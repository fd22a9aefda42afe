/** The older solver and drop rules: layoutDominoes works on the board's
    list of boxes rather than on arms. Each of ten ever finer grids is
    tried in turn: centre the boxes, move them so that the boxes near the
    spinner lie inside, bend every box that still sticks out around the
    fitting box reaching furthest towards that side, and accept the grid
    once the bent layout's extent fits. */
module LegacyView {
  import opened Wrappers
  import opened Utils
  import opened Dominoes
  import opened Geometry
  import opened LegacyBoard
  import Layout

  /** lockedDominoDistance: a box this near the spinner's box is kept
      inside the grid rather than bent. */
  const LockedDistance: real := 6.0

  /** The solved layout: grid dimensions in squares, square size in
      pixels, and one box and one drawing direction per tile, in play
      order. */
  datatype LegacyLayout = LegacyLayout(gridWidth: int, gridHeight: int, squareSize: real,
                                       boxes: seq<Box>, directions: seq<Direction>)

  // ---------------------------------------------------------------------
  // Moving all boxes

  /** Moving every box twice is one move by the sum, and moving by nothing
      changes nothing. */
  lemma TranslateAllCompose(bs: seq<Box>, x1: real, y1: real, x2: real, y2: real)
    ensures TranslateAll(bs, 0.0, 0.0) == bs
    ensures TranslateAll(TranslateAll(bs, x1, y1), x2, y2) == TranslateAll(bs, x1 + x2, y1 + y2)
  {
    forall i | 0 <= i < |bs|
      ensures TranslateAll(bs, 0.0, 0.0)[i] == bs[i]
      ensures TranslateAll(TranslateAll(bs, x1, y1), x2, y2)[i] == TranslateAll(bs, x1 + x2, y1 + y2)[i]
    {
      TranslateIdentityAndCompose(bs[i], x1, y1, x2, y2);
    }
  }

  /** The move that centres the boxes on a `w` by `h` grid: the grid's
      middle square, floor(w/2), less the middle of the boxes' extent. (On
      an empty board the source adds two nulls, which gives 0; there is no
      box to move either way.) */
  function CentringShift(bs: seq<Box>, w: int, h: int): Point {
    if |bs| == 0 then Point((w / 2) as real, (h / 2) as real)
    else Point((w / 2) as real - (EastLimit(bs) + WestLimit(bs)) / 2.0,
               (h / 2) as real - (NorthLimit(bs) + SouthLimit(bs)) / 2.0)
  }

  /** After centring, the middle of the boxes' extent is the grid's middle
      square, and the extent itself is unchanged. */
  lemma CentredBoxes(bs: seq<Box>, w: int, h: int, x: real, y: real)
    requires |bs| > 0
    requires x == CentringShift(bs, w, h).x && y == CentringShift(bs, w, h).y
    ensures var c := TranslateAll(bs, x, y);
            && (EastLimit(c) + WestLimit(c)) / 2.0 == (w / 2) as real
            && (NorthLimit(c) + SouthLimit(c)) / 2.0 == (h / 2) as real
            && EastLimit(c) - WestLimit(c) == EastLimit(bs) - WestLimit(bs)
            && SouthLimit(c) - NorthLimit(c) == SouthLimit(bs) - NorthLimit(bs)
  {
    LimitsOfTranslateAll(bs, x, y);
  }

  /** The extreme sides of a non-empty list of boxes. */
  function LimitsOf(bs: seq<Box>): Box
    requires |bs| > 0
  {
    Box(NorthLimit(bs), EastLimit(bs), SouthLimit(bs), WestLimit(bs))
  }

  /** One axis of the source's clamp: the push away from the low side and
      the pull back from the high side are computed from the same limits
      and BOTH applied when both are needed. */
  function SequentialShift(low: real, high: real, size: int): (r: real)
    ensures high - low <= size as real ==> r == ClampShift(low, high, size)
    ensures 0.0 <= low && high <= size as real ==> r == 0.0
  {
    (if low < 0.0 then -low else 0.0) + (if high > size as real then size as real - high else 0.0)
  }

  /** The four translations the source applies one after another (north,
      south, east, west), each by an amount taken from `limits`, the
      extent measured before any of them: together a single move. */
  function ClampSequentially(bs: seq<Box>, limits: Box, w: int, h: int): (r: seq<Box>)
    ensures r == TranslateAll(bs, SequentialShift(limits.west, limits.east, w),
                              SequentialShift(limits.north, limits.south, h))
  {
    var toNorth := if limits.north < 0.0 then -limits.north else 0.0;
    var toSouth := if limits.south > h as real then h as real - limits.south else 0.0;
    var toEast := if limits.east > w as real then w as real - limits.east else 0.0;
    var toWest := if limits.west < 0.0 then -limits.west else 0.0;
    var a := if limits.north < 0.0 then TranslateAll(bs, 0.0, toNorth) else bs;
    var b := if limits.south > h as real then TranslateAll(a, 0.0, toSouth) else a;
    var c := if limits.east > w as real then TranslateAll(b, toEast, 0.0) else b;
    var d := if limits.west < 0.0 then TranslateAll(c, toWest, 0.0) else c;
    SequentialPasses(bs, toNorth, toSouth, toEast, toWest);
    d
  }

  /** Applying four moves (each possibly by nothing) is one move by their
      sums. */
  lemma SequentialPasses(bs: seq<Box>, n: real, s: real, e: real, w: real)
    ensures TranslateAll(TranslateAll(TranslateAll(TranslateAll(bs, 0.0, n), 0.0, s), e, 0.0), w, 0.0)
            == TranslateAll(bs, e + w, n + s)
    ensures TranslateAll(bs, 0.0, 0.0) == bs
  {
    var a := TranslateAll(bs, 0.0, n);
    var b := TranslateAll(a, 0.0, s);
    var c := TranslateAll(b, e, 0.0);
    TranslateAllCompose(bs, 0.0, n, 0.0, s);
    TranslateAllCompose(bs, 0.0, n + s, e, 0.0);
    TranslateAllCompose(bs, e, n + s, w, 0.0);
  }

  // ---------------------------------------------------------------------
  // Keeping the spinner's neighbours inside

  /** The boxes near the spinner's box, in order. */
  function Neighbours(spinnerBox: Box, bs: seq<Box>): (r: seq<Box>)
    ensures |r| <= |bs|
    ensures forall b :: b in r <==> b in bs && AreClose(spinnerBox, b, LockedDistance)
  {
    if |bs| == 0 then []
    else
      assert forall b :: b in bs <==> b == bs[0] || b in bs[1..];
      (if AreClose(spinnerBox, bs[0], LockedDistance) then [bs[0]] else []) + Neighbours(spinnerBox, bs[1..])
  }

  /** Which boxes are near the spinner does not change when everything
      moves together. */
  lemma {:induction false} NeighboursOfTranslated(sb: Box, bs: seq<Box>, x: real, y: real)
    ensures Neighbours(Translate(sb, x, y), TranslateAll(bs, x, y)) == TranslateAll(Neighbours(sb, bs), x, y)
  {
    if |bs| > 0 {
      var ts := TranslateAll(bs, x, y);
      assert bs == [bs[0]] + bs[1..];
      TranslateAllCons(bs[0], bs[1..], x, y);
      assert ts[1..] == TranslateAll(bs[1..], x, y);
      NeighboursOfTranslated(sb, bs[1..], x, y);
      AreCloseProperties(sb, bs[0], LockedDistance, x, y);
      var head := if AreClose(sb, bs[0], LockedDistance) then [bs[0]] else [];
      assert Neighbours(sb, bs) == head + Neighbours(sb, bs[1..]);
      TranslateAllAppend(head, Neighbours(sb, bs[1..]), x, y);
    }
  }

  lemma TranslateAllAppend(a: seq<Box>, b: seq<Box>, x: real, y: real)
    ensures TranslateAll(a + b, x, y) == TranslateAll(a, x, y) + TranslateAll(b, x, y)
  {
    assert forall i :: 0 <= i < |a| + |b| ==>
      TranslateAll(a + b, x, y)[i] == (TranslateAll(a, x, y) + TranslateAll(b, x, y))[i];
  }

  /** When there is a spinner and one of the boxes near it sticks out,
      move every box by the sequential clamp of those near boxes' extent. */
  function KeepNeighboursInside(board: Board, bs: seq<Box>, w: int, h: int): (r: seq<Box>)
    requires |bs| == |board.dominoes|
    ensures |r| == |bs|
    ensures Spinner(board).None? ==> r == bs
    ensures Spinner(board).Some? && AllFit(Neighbours(bs[Spinner(board).value], bs), w, h) ==> r == bs
  {
    match Spinner(board)
    case None => bs
    case Some(s) =>
      var close := Neighbours(bs[s], bs);
      if AllFit(close, w, h) then bs
      else ClampSequentially(bs, LimitsOf(close), w, h)
  }

  /** When the near boxes' extent fits the grid, every box near the
      spinner lies inside it afterwards, and the whole board has moved as
      one. */
  lemma KeptNeighboursFit(board: Board, bs: seq<Box>, w: int, h: int, s: nat)
    requires |bs| == |board.dominoes| && Spinner(board) == Some(s)
    requires SpanFits(Neighbours(bs[s], bs), w, h)
    ensures var r := KeepNeighboursInside(board, bs, w, h);
            AllFit(Neighbours(r[s], r), w, h)
  {
    var close := Neighbours(bs[s], bs);
    if !AllFit(close, w, h) {
      var lim := LimitsOf(close);
      var x := SequentialShift(lim.west, lim.east, w);
      var y := SequentialShift(lim.north, lim.south, h);
      NeighboursMoved(bs, s, close, x, y, w, h);
    }
  }

  lemma NeighboursMoved(bs: seq<Box>, s: nat, close: seq<Box>, x: real, y: real, w: int, h: int)
    requires s < |bs| && close == Neighbours(bs[s], bs) && |close| > 0 && SpanFits(close, w, h)
    requires x == SequentialShift(WestLimit(close), EastLimit(close), w)
    requires y == SequentialShift(NorthLimit(close), SouthLimit(close), h)
    ensures var r := TranslateAll(bs, x, y);
            AllFit(Neighbours(r[s], r), w, h)
  {
    NeighboursOfTranslated(bs[s], bs, x, y);
    ClampedBoxesFit(close, w, h);
  }

  // ---------------------------------------------------------------------
  // Bending

  /** `box` crosses the grid's `side`. */
  predicate Beyond(box: Box, side: Direction, w: int, h: int) {
    match side
    case North => box.north < 0.0
    case East => box.east > w as real
    case South => box.south > h as real
    case West => box.west < 0.0
    case NoDirection => false
  }

  /** The side a box that does not fit is bent from: the first of north,
      east, south and west it crosses. The source's final test (west) can
      only succeed, so its "Invalid bend attempted" throw is never
      reached. */
  function BendSide(box: Box, w: int, h: int): (r: Direction)
    requires !FitsInGrid(box, w, h)
    ensures IsCardinal(r) && Beyond(box, r, w, h)
    ensures r != North ==> !Beyond(box, North, w, h)
    ensures r == South || r == West ==> !Beyond(box, East, w, h)
    ensures r == West ==> !Beyond(box, South, w, h)
  {
    if box.north < 0.0 then North
    else if box.east > w as real then East
    else if box.south > h as real then South
    else West
  }

  /** `a` reaches at least as far towards `side` as `b`. */
  predicate Reaches(a: Box, b: Box, side: Direction) {
    match side
    case North => a.north <= b.north
    case East => a.east >= b.east
    case South => a.south >= b.south
    case West => a.west <= b.west
    case NoDirection => false
  }

  /** The boxes that fit the grid, in order. */
  function FittingBoxes(bs: seq<Box>, w: int, h: int): (r: seq<Box>)
    ensures forall b :: b in r <==> b in bs && FitsInGrid(b, w, h)
    ensures |r| == 0 <==> forall i :: 0 <= i < |bs| ==> !FitsInGrid(bs[i], w, h)
  {
    if |bs| == 0 then []
    else
      assert forall b :: b in bs <==> b == bs[0] || b in bs[1..];
      assert forall i :: 1 <= i < |bs| ==> bs[i] == bs[1..][i - 1];
      (if FitsInGrid(bs[0], w, h) then [bs[0]] else []) + FittingBoxes(bs[1..], w, h)
  }

  /** Math.min / Math.max of one side over the fitting boxes. */
  function LimitValue(bs: seq<Box>, side: Direction): (r: real)
    requires |bs| > 0 && IsCardinal(side)
    ensures exists i :: 0 <= i < |bs| && Side(bs[i], side) == r
    ensures forall i :: 0 <= i < |bs| ==> Reaches(Box(r, r, r, r), bs[i], side)
  {
    match side
    case North => NorthLimit(bs)
    case East => EastLimit(bs)
    case South => SouthLimit(bs)
    case West => WestLimit(bs)
  }

  /** findIndex: the first fitting box from `k` on whose `side` is `v`. */
  function FirstFittingWith(bs: seq<Box>, w: int, h: int, side: Direction, v: real, k: nat): (r: Option<nat>)
    requires k <= |bs|
    decreases |bs| - k
    ensures r.Some? ==> k <= r.value < |bs| && FitsInGrid(bs[r.value], w, h) && Side(bs[r.value], side) == v
    ensures r.Some? ==> forall j :: k <= j < r.value ==> !(FitsInGrid(bs[j], w, h) && Side(bs[j], side) == v)
    ensures r.None? ==> forall j :: k <= j < |bs| ==> !(FitsInGrid(bs[j], w, h) && Side(bs[j], side) == v)
  {
    if k == |bs| then None
    else if FitsInGrid(bs[k], w, h) && Side(bs[k], side) == v then Some(k)
    else FirstFittingWith(bs, w, h, side, v, k + 1)
  }

  /** The box bent around on one side: the first of the fitting boxes
      that reaches furthest towards that side. None when no box fits
      (Math.min of nothing is Infinity and findIndex gives -1). */
  function LimitTile(bs: seq<Box>, w: int, h: int, side: Direction): (r: Option<nat>)
    requires IsCardinal(side)
    ensures r.None? <==> forall i :: 0 <= i < |bs| ==> !FitsInGrid(bs[i], w, h)
    ensures r.Some? ==> r.value < |bs| && FitsInGrid(bs[r.value], w, h)
    ensures r.Some? ==> forall i :: 0 <= i < |bs| && FitsInGrid(bs[i], w, h) ==> Reaches(bs[r.value], bs[i], side)
    ensures r.Some? ==> forall i :: 0 <= i < r.value && FitsInGrid(bs[i], w, h) ==> Side(bs[i], side) != Side(bs[r.value], side)
  {
    var fitting := FittingBoxes(bs, w, h);
    if |fitting| == 0 then None
    else
      var v := LimitValue(fitting, side);
      var r := FirstFittingWith(bs, w, h, side, v, 0);
      LimitFound(bs, fitting, w, h, side, v, r);
      r
  }

  lemma LimitFound(bs: seq<Box>, fitting: seq<Box>, w: int, h: int, side: Direction, v: real, r: Option<nat>)
    requires IsCardinal(side) && |fitting| > 0 && fitting == FittingBoxes(bs, w, h)
    requires v == LimitValue(fitting, side) && r == FirstFittingWith(bs, w, h, side, v, 0)
    ensures r.Some?
    ensures exists i :: 0 <= i < |bs| && FitsInGrid(bs[i], w, h)
    ensures forall i :: 0 <= i < |bs| && FitsInGrid(bs[i], w, h) ==> Reaches(bs[r.value], bs[i], side)
  {
    var k :| 0 <= k < |fitting| && Side(fitting[k], side) == v;
    assert fitting[k] in bs;
    var j :| 0 <= j < |bs| && bs[j] == fitting[k];
    assert FitsInGrid(bs[j], w, h);
    forall i | 0 <= i < |bs| && FitsInGrid(bs[i], w, h)
      ensures Reaches(bs[r.value], bs[i], side)
    {
      assert bs[i] in fitting;
      var m :| 0 <= m < |fitting| && fitting[m] == bs[i];
      assert Reaches(Box(v, v, v, v), fitting[m], side);
    }
  }

  /** The box of tile `i` after bending: a box that fits stays; one that
      sticks out is bent around the limit tile on the first side it
      crosses, with the double correction taken from that limit tile.
      Reading the limit box when no box fits is a TypeError in the
      source. */
  function BendBox(board: Board, bs: seq<Box>, w: int, h: int, i: nat): (r: Result<Box, Layout.LayoutError>)
    requires |bs| == |board.dominoes| && i < |bs|
    ensures FitsInGrid(bs[i], w, h) ==> r == Success(bs[i])
    ensures r.Failure? <==> !FitsInGrid(bs[i], w, h) && forall j :: 0 <= j < |bs| ==> !FitsInGrid(bs[j], w, h)
    ensures r.Failure? ==> r.error == Layout.MissingPivot
    ensures r.Success? && !FitsInGrid(bs[i], w, h) ==>
              Width(r.value) == Height(bs[i]) && Height(r.value) == Width(bs[i])
  {
    if FitsInGrid(bs[i], w, h) then Success(bs[i])
    else
      var side := BendSide(bs[i], w, h);
      match LimitTile(bs, w, h, side)
      case None => Failure(Layout.MissingPivot)
      case Some(p) => Success(BendAroundPoint(bs[i], Pivot(bs[p], side), side, IsDouble(board.dominoes[p].domino)))
  }

  /** Bending every box from `k` on, stopping at the first failure as the
      source's map stops at the first throw. */
  function BendFrom(board: Board, bs: seq<Box>, w: int, h: int, k: nat): (r: Result<seq<Box>, Layout.LayoutError>)
    requires |bs| == |board.dominoes| && k <= |bs|
    decreases |bs| - k
    ensures r.Success? ==> |r.value| == |bs| - k
  {
    if k == |bs| then Success([])
    else
      match BendBox(board, bs, w, h, k)
      case Failure(e) => Failure(e)
      case Success(b) =>
        match BendFrom(board, bs, w, h, k + 1)
        case Failure(e) => Failure(e)
        case Success(rest) => Success([b] + rest)
  }

  /** The boxes bent from `k` on are the boxes BendBox gives one by one; the
      whole succeeds exactly when every box bends, and a failure is the
      failure of some box. */
  lemma {:induction false} BendFromBendsEachBox(board: Board, bs: seq<Box>, w: int, h: int, k: nat)
    requires |bs| == |board.dominoes| && k <= |bs|
    decreases |bs| - k
    ensures var r := BendFrom(board, bs, w, h, k);
            r.Success? ==> forall j :: k <= j < |bs| ==> BendBox(board, bs, w, h, j) == Success(r.value[j - k])
    ensures var r := BendFrom(board, bs, w, h, k);
            r.Failure? ==> exists j :: k <= j < |bs| && BendBox(board, bs, w, h, j) == Failure(r.error)
    ensures BendFrom(board, bs, w, h, k).Success? <==> forall j :: k <= j < |bs| ==> BendBox(board, bs, w, h, j).Success?
  {
    if k < |bs| {
      BendFromBendsEachBox(board, bs, w, h, k + 1);
      var r := BendFrom(board, bs, w, h, k);
      if r.Success? {
        var rest := BendFrom(board, bs, w, h, k + 1).value;
        assert r.value == [BendBox(board, bs, w, h, k).value] + rest;
        forall j | k < j < |bs|
          ensures BendBox(board, bs, w, h, j) == Success(r.value[j - k])
        {
          assert r.value[j - k] == rest[j - (k + 1)];
        }
      }
    }
  }

  /** Bend every box that sticks out. Boxes that fit stay where they are,
      every other box is turned a quarter, and the whole bend fails (for
      want of a box to bend around) exactly when no box fits at all. */
  function BendOutside(board: Board, bs: seq<Box>, w: int, h: int): (r: Result<seq<Box>, Layout.LayoutError>)
    requires |bs| == |board.dominoes|
    ensures r.Failure? <==> |bs| > 0 && forall j :: 0 <= j < |bs| ==> !FitsInGrid(bs[j], w, h)
    ensures r.Failure? ==> r.error == Layout.MissingPivot
    ensures r.Success? ==> |r.value| == |bs|
    ensures r.Success? ==> forall j :: 0 <= j < |bs| && FitsInGrid(bs[j], w, h) ==> r.value[j] == bs[j]
    ensures r.Success? ==> forall j :: 0 <= j < |bs| && !FitsInGrid(bs[j], w, h) ==>
              Width(r.value[j]) == Height(bs[j]) && Height(r.value[j]) == Width(bs[j])
  {
    var r := BendFrom(board, bs, w, h, 0);
    BendFromBendsEachBox(board, bs, w, h, 0);
    if r.Success? then
      assert forall j :: 0 <= j < |bs| ==> BendBox(board, bs, w, h, j) == Success(r.value[j]);
      r
    else
      r
  }

  /** The drawing directions after bending: a tile that fits keeps its
      direction and every other tile turns a quarter clockwise. */
  function BentDirections(board: Board, bs: seq<Box>, w: int, h: int): (r: seq<Direction>)
    requires |bs| == |board.dominoes|
    ensures |r| == |bs|
    ensures forall i :: 0 <= i < |bs| && FitsInGrid(bs[i], w, h) ==> r[i] == board.dominoes[i].direction
    ensures forall i :: 0 <= i < |bs| && !FitsInGrid(bs[i], w, h) ==> r[i] == RotateClockwise(board.dominoes[i].direction)
  {
    seq(|bs|, i requires 0 <= i < |bs| =>
      if FitsInGrid(bs[i], w, h) then board.dominoes[i].direction
      else RotateClockwise(board.dominoes[i].direction))
  }

  /** Box and direction turn together: every tile either keeps both its
      box and its direction, or has its box turned a quarter (width and
      height swapped) and is drawn pointing a quarter turn clockwise, which
      is never NONE. */
  lemma BoxesAndDirectionsTurnTogether(board: Board, bs: seq<Box>, w: int, h: int)
    requires |bs| == |board.dominoes| && BendOutside(board, bs, w, h).Success?
    ensures var r := BendOutside(board, bs, w, h).value;
            var ds := BentDirections(board, bs, w, h);
            forall i :: 0 <= i < |bs| ==>
              || (r[i] == bs[i] && ds[i] == board.dominoes[i].direction)
              || (Width(r[i]) == Height(bs[i]) && Height(r[i]) == Width(bs[i])
                  && ds[i] == RotateClockwise(board.dominoes[i].direction) && IsCardinal(ds[i]))
  {
  }

  // ---------------------------------------------------------------------
  // The final clamp and the loop

  /** Move a bent layout whose extent fits the grid so that it lies inside
      it: the same four sequential passes, on the bent boxes' extent. */
  function FinalShift(bs: seq<Box>, w: int, h: int): (r: seq<Box>)
    ensures |r| == |bs|
    ensures AllFit(bs, w, h) ==> r == bs
  {
    if |bs| == 0 then bs
    else
      var r := ClampSequentially(bs, LimitsOf(bs), w, h);
      if AllFit(bs, w, h) then
        FitsAreNotMoved(bs, w, h);
        r
      else r
  }

  lemma FitsAreNotMoved(bs: seq<Box>, w: int, h: int)
    requires |bs| > 0 && AllFit(bs, w, h)
    ensures ClampSequentially(bs, LimitsOf(bs), w, h) == bs
  {
    var n :| 0 <= n < |bs| && NorthLimit(bs) == bs[n].north;
    var e :| 0 <= e < |bs| && EastLimit(bs) == bs[e].east;
    var s :| 0 <= s < |bs| && SouthLimit(bs) == bs[s].south;
    var x :| 0 <= x < |bs| && WestLimit(bs) == bs[x].west;
    assert FitsInGrid(bs[n], w, h) && FitsInGrid(bs[e], w, h);
    assert FitsInGrid(bs[s], w, h) && FitsInGrid(bs[x], w, h);
    TranslateAllCompose(bs, 0.0, 0.0, 0.0, 0.0);
  }

  /** A bent layout whose extent fits the grid lies inside it after the
      final clamp. */
  lemma FinalShiftFits(bs: seq<Box>, w: int, h: int)
    requires SpanFits(bs, w, h)
    ensures AllFit(FinalShift(bs, w, h), w, h)
  {
    if |bs| > 0 {
      var lim := LimitsOf(bs);
      var x := SequentialShift(lim.west, lim.east, w);
      var y := SequentialShift(lim.north, lim.south, h);
      ClampedBoxesFit(bs, w, h);
      if AllFit(bs, w, h) {
        FitsAreNotMoved(bs, w, h);
      } else {
        assert FinalShift(bs, w, h) == TranslateAll(bs, x, y);
      }
    }
  }

  /** The drawing direction of every tile, in play order. */
  function Directions(ds: seq<PlacedDomino>): (r: seq<Direction>)
    ensures |r| == |ds| && forall i :: 0 <= i < |ds| ==> r[i] == ds[i].direction
  {
    seq(|ds|, i requires 0 <= i < |ds| => ds[i].direction)
  }

  /** One pass of the loop on a `w` by `h` grid of squares of `size`
      pixels; `first` marks attempt 0, the only one with a fast path. */
  function AttemptOnGrid(board: Board, w: int, h: int, size: real, first: bool): (r: Layout.Attempt<LegacyLayout>)
    ensures r.Placed? ==> r.layout.gridWidth == w && r.layout.gridHeight == h && r.layout.squareSize == size
    ensures r.Placed? ==> |r.layout.boxes| == |board.dominoes| && |r.layout.directions| == |board.dominoes|
    ensures first && SpanFits(BoundingBoxes(board.dominoes), w, h) ==>
              && r.Placed?
              && r.layout.directions == Directions(board.dominoes)
              && r.layout.boxes == TranslateAll(BoundingBoxes(board.dominoes),
                                                CentringShift(BoundingBoxes(board.dominoes), w, h).x,
                                                CentringShift(BoundingBoxes(board.dominoes), w, h).y)
    ensures r.Placed? && !(first && SpanFits(BoundingBoxes(board.dominoes), w, h)) ==> AllFit(r.layout.boxes, w, h)
    ensures r.Crashed? ==> r.error == Layout.MissingPivot
  {
    var bs := BoundingBoxes(board.dominoes);
    var c := CentringShift(bs, w, h);
    var centred := TranslateAll(bs, c.x, c.y);
    if first && SpanFits(bs, w, h) then
      Layout.Placed(LegacyLayout(w, h, size, centred, Directions(board.dominoes)))
    else
      var kept := KeepNeighboursInside(board, centred, w, h);
      match BendOutside(board, kept, w, h)
      case Failure(e) => Layout.Crashed(e)
      case Success(bent) =>
        if SpanFits(bent, w, h) then
          FinalShiftFits(bent, w, h);
          Layout.Placed(LegacyLayout(w, h, size, FinalShift(bent, w, h), BentDirections(board, kept, w, h)))
        else Layout.TooBig
  }

  /** Attempt `i` of the loop, on the same grids as the current solver. */
  function TryAttempt(board: Board, pw: real, ph: real, i: nat): Layout.Attempt<LegacyLayout>
    requires Min(pw, ph) != 0.0
  {
    AttemptOnGrid(board, Layout.GridWidth(pw, ph, i), Layout.GridHeight(pw, ph, i), Layout.SquareSize(pw, ph, i), i == 0)
  }

  /** The ten attempts of the loop, i = 0..9. */
  function Attempts(board: Board, pw: real, ph: real): (r: seq<Layout.Attempt<LegacyLayout>>)
    requires Min(pw, ph) != 0.0
    ensures |r| == 10
    ensures forall i :: 0 <= i < 10 ==> r[i] == TryAttempt(board, pw, ph, i)
  {
    seq(10, i requires 0 <= i < 10 => TryAttempt(board, pw, ph, i))
  }

  /** layoutDominoes: the first of the ten attempts that places the board
      or crashes decides; when all ten are too big the solver throws. A
      placed layout has one box and one direction per tile and, unless it
      came from the fast path of attempt 0, lies inside its grid. */
  function LayoutDominoes(pw: real, ph: real, board: Board): (r: Result<LegacyLayout, Layout.LayoutError>)
    requires Min(pw, ph) != 0.0
    ensures r.Success? ==> |r.value.boxes| == |board.dominoes| && |r.value.directions| == |board.dominoes|
    ensures r.Success? ==> exists i :: 0 <= i < 10 && PlacedOnGrid(r.value, board, pw, ph, i)
    ensures var attempts := Attempts(board, pw, ph);
            r.Success? <==> exists i :: 0 <= i < 10 && attempts[i].Placed? && Layout.AllTooBig(attempts, 0, i)
    ensures r.Failure? ==> r.error in {Layout.Unresolved, Layout.MissingPivot}
  {
    DecidedLayout(board, pw, ph);
    Layout.Decide(Attempts(board, pw, ph), 0)
  }

  /** A layout of attempt `i` of the older engine: it lies on that
      attempt's grid with one box and one direction per tile, and inside
      the grid unless attempt 0 took the fast path because the board's
      span fits. */
  predicate PlacedOnGrid(l: LegacyLayout, board: Board, pw: real, ph: real, i: nat)
    requires Min(pw, ph) != 0.0
  {
    && l.gridWidth == Layout.GridWidth(pw, ph, i) && l.gridHeight == Layout.GridHeight(pw, ph, i)
    && |l.boxes| == |board.dominoes| && |l.directions| == |board.dominoes|
    && (|| AllFit(l.boxes, l.gridWidth, l.gridHeight)
        || (i == 0 && SpanFits(BoundingBoxes(board.dominoes), l.gridWidth, l.gridHeight)))
  }

  /** The loop's decision over the ten attempts of the older engine. */
  lemma DecidedLayout(board: Board, pw: real, ph: real)
    requires Min(pw, ph) != 0.0
    ensures var attempts := Attempts(board, pw, ph);
            var r := Layout.Decide(attempts, 0);
            && (r.Success? ==> exists i :: 0 <= i < 10 && PlacedOnGrid(r.value, board, pw, ph, i))
            && (r.Success? <==> exists i :: 0 <= i < 10 && attempts[i].Placed? && Layout.AllTooBig(attempts, 0, i))
            && (r.Failure? ==> r.error in {Layout.Unresolved, Layout.MissingPivot})
  {
    PlacedAttempts(board, pw, ph);
    DecideAmongPlacedGrids(Attempts(board, pw, ph), board, pw, ph);
  }

  /** The decision over any ten attempts that only crash for a missing
      pivot and whose placed layouts lie on their own grids. */
  lemma DecideAmongPlacedGrids(attempts: seq<Layout.Attempt<LegacyLayout>>, board: Board, pw: real, ph: real)
    requires Min(pw, ph) != 0.0 && |attempts| == 10
    requires forall i :: 0 <= i < 10 && attempts[i].Placed? ==> PlacedOnGrid(attempts[i].layout, board, pw, ph, i)
    requires forall i :: 0 <= i < 10 && attempts[i].Crashed? ==> attempts[i].error == Layout.MissingPivot
    ensures var r := Layout.Decide(attempts, 0);
            && (r.Success? ==> exists i :: 0 <= i < 10 && PlacedOnGrid(r.value, board, pw, ph, i))
            && (r.Success? <==> exists i :: 0 <= i < 10 && attempts[i].Placed? && Layout.AllTooBig(attempts, 0, i))
            && (r.Failure? ==> r.error in {Layout.Unresolved, Layout.MissingPivot})
  {
    Layout.DecidePlacesIff(attempts, 0);
  }

  /** Every placed attempt lies on its own grid, and every crash is a
      missing pivot. */
  lemma PlacedAttempts(board: Board, pw: real, ph: real)
    requires Min(pw, ph) != 0.0
    ensures var attempts := Attempts(board, pw, ph);
            && (forall i :: 0 <= i < 10 && attempts[i].Placed? ==> PlacedOnGrid(attempts[i].layout, board, pw, ph, i))
            && (forall i :: 0 <= i < 10 && attempts[i].Crashed? ==> attempts[i].error == Layout.MissingPivot)
  {
    var attempts := Attempts(board, pw, ph);
    forall i | 0 <= i < 10
      ensures attempts[i].Placed? ==> PlacedOnGrid(attempts[i].layout, board, pw, ph, i)
      ensures attempts[i].Crashed? ==> attempts[i].error == Layout.MissingPivot
    {
      PlacedAttempt(board, pw, ph, i, attempts[i]);
    }
  }

  /** What one attempt places, and how it crashes. */
  lemma PlacedAttempt(board: Board, pw: real, ph: real, i: nat, a: Layout.Attempt<LegacyLayout>)
    requires Min(pw, ph) != 0.0 && a == TryAttempt(board, pw, ph, i)
    ensures a.Placed? ==> PlacedOnGrid(a.layout, board, pw, ph, i)
    ensures a.Crashed? ==> a.error == Layout.MissingPivot
  {
  }

  // ---------------------------------------------------------------------
  // Dropping a tile

  /** Tile `i` is the edge tile on `side` and `d` carries the number that
      edge leaves open. */
  predicate OpensTo(board: Board, i: nat, side: Direction, d: Domino) {
    Edge(board, side) == Some(i) && ExposedFace(board, side).Some? && HasFace(d, ExposedFace(board, side).value)
  }

  /** isDroppable: some piece is being dragged and it matches the open
      number of one of the edges tile `i` is; only a tile on the board
      that is an edge on some side can be a target. */
  function IsDroppable(board: Board, i: nat, dragged: Option<Domino>): (r: bool)
    ensures r ==> dragged.Some? && i < |board.dominoes| && exists side :: IsCardinal(side) && Edge(board, side) == Some(i)
  {
    match dragged
    case None => false
    case Some(d) => OpensTo(board, i, North, d) || OpensTo(board, i, East, d)
                    || OpensTo(board, i, South, d) || OpensTo(board, i, West, d)
  }

  /** A tile is a drop target exactly when it is the edge tile on some side
      and the dragged piece carries the number the tile shows outwards on
      that side. */
  lemma DroppableMeans(board: Board, i: nat, dragged: Option<Domino>)
    ensures IsDroppable(board, i, dragged) <==>
              && dragged.Some?
              && i < |board.dominoes|
              && exists side :: IsCardinal(side) && Edge(board, side) == Some(i)
                   && HasFace(dragged.value, ExposedFaceOf(board.dominoes[i], Opposite(side)))
  {
    if dragged.Some? {
      var d := dragged.value;
      OpensToMeans(board, i, North, d);
      OpensToMeans(board, i, East, d);
      OpensToMeans(board, i, South, d);
      OpensToMeans(board, i, West, d);
    }
  }

  lemma OpensToMeans(board: Board, i: nat, side: Direction, d: Domino)
    ensures OpensTo(board, i, side, d) <==>
              && i < |board.dominoes| && Edge(board, side) == Some(i)
              && HasFace(d, ExposedFaceOf(board.dominoes[i], Opposite(side)))
  {
  }

  /** determineDropDirectionForDomino: the side a piece dropped on tile `i`
      is played on. North and south come first but need vertical play;
      then east, then west; null when the tile is no usable edge. */
  function DropDirection(board: Board, i: nat): (r: Option<Direction>)
    ensures r.Some? ==> IsCardinal(r.value)
    ensures r.Some? ==> Edge(board, r.value) == Some(i)
    ensures r == Some(North) || r == Some(South) ==> CanPlayVertically(board)
    ensures r.None? <==>
              && EastEdge(board) != Some(i) && WestEdge(board) != Some(i)
              && (!CanPlayVertically(board) || (NorthEdge(board) != Some(i) && SouthEdge(board) != Some(i)))
    ensures r == Some(South) ==> !(CanPlayVertically(board) && NorthEdge(board) == Some(i))
    ensures r == Some(East) ==> !(CanPlayVertically(board) && (NorthEdge(board) == Some(i) || SouthEdge(board) == Some(i)))
    ensures r == Some(West) ==>
              && EastEdge(board) != Some(i)
              && !(CanPlayVertically(board) && (NorthEdge(board) == Some(i) || SouthEdge(board) == Some(i)))
  {
    if NorthEdge(board) == Some(i) && CanPlayVertically(board) then
      Some(North)
    else if SouthEdge(board) == Some(i) && CanPlayVertically(board) then
      Some(South)
    else if EastEdge(board) == Some(i) then
      Some(East)
    else if WestEdge(board) == Some(i) then
      Some(West)
    else None
  }

  /** A highlighted tile always has a side to play on, except a north or
      south edge tile while vertical play is not allowed. */
  lemma DroppableHasDirection(board: Board, i: nat, dragged: Option<Domino>)
    requires IsDroppable(board, i, dragged)
    ensures CanPlayVertically(board) || EastEdge(board) == Some(i) || WestEdge(board) == Some(i)
            <==> DropDirection(board, i).Some?
  {
  }
}
