/** The older, array-based board. Every tile played is kept in order of
    play with its grid location (the spinner, or the first tile, at the
    origin; north is positive Y) and a bounding box that is computed once,
    when the tile is played, from the box of the tile at the edge it is
    played against. Tiles are named by their position in play order, which
    is how the view compares them with the edge tiles. */
module LegacyBoard {
  import opened Wrappers
  import opened Utils
  import opened Dominoes
  import opened Geometry

  datatype Coordinate = Coordinate(x: int, y: int)

  /** BoardDominoModel: the tile, the way it is drawn, where it lies on the
      logical board, and its box on the grid. Face1 and Face2 of the view
      models are `domino.head` and `domino.tail`; X and Y are
      `location.x` and `location.y`. */
  datatype PlacedDomino = PlacedDomino(domino: Domino, direction: Direction, location: Coordinate, box: Box)

  /** BoardModel: the tiles in order of play and the index of the spinner,
      if one has been played. */
  datatype Board = Board(dominoes: seq<PlacedDomino>, spinnerIndex: Option<nat>)

  // ---------------------------------------------------------------------
  // Searching the tiles (Math.max / Math.min over a key, Array.find)

  function MaxOf(s: seq<int>): (r: int)
    requires |s| > 0
    ensures forall i :: 0 <= i < |s| ==> s[i] <= r
    ensures exists i :: 0 <= i < |s| && s[i] == r
  {
    if |s| == 1 then s[0]
    else
      var m := MaxOf(s[1..]);
      assert forall i :: 1 <= i < |s| ==> s[i] == s[1..][i - 1];
      if s[0] >= m then s[0] else m
  }

  function MinOf(s: seq<int>): (r: int)
    requires |s| > 0
    ensures forall i :: 0 <= i < |s| ==> r <= s[i]
    ensures exists i :: 0 <= i < |s| && s[i] == r
  {
    if |s| == 1 then s[0]
    else
      var m := MinOf(s[1..]);
      assert forall i :: 1 <= i < |s| ==> s[i] == s[1..][i - 1];
      if s[0] <= m then s[0] else m
  }

  /** Array.find, reporting the position of the first match. */
  function FirstIndexOf<T(==)>(s: seq<T>, v: T): (r: Option<nat>)
    ensures r.Some? ==> r.value < |s| && s[r.value] == v && forall i :: 0 <= i < r.value ==> s[i] != v
    ensures r.None? <==> v !in s
  {
    if |s| == 0 then None
    else if s[0] == v then Some(0)
    else
      match FirstIndexOf(s[1..], v)
      case None => None
      case Some(k) => Some(k + 1)
  }

  function Xs(ds: seq<PlacedDomino>): (r: seq<int>)
    ensures |r| == |ds| && forall i :: 0 <= i < |ds| ==> r[i] == ds[i].location.x
  {
    seq(|ds|, i requires 0 <= i < |ds| => ds[i].location.x)
  }

  function Ys(ds: seq<PlacedDomino>): (r: seq<int>)
    ensures |r| == |ds| && forall i :: 0 <= i < |ds| ==> r[i] == ds[i].location.y
  {
    seq(|ds|, i requires 0 <= i < |ds| => ds[i].location.y)
  }

  function Locations(ds: seq<PlacedDomino>): (r: seq<Coordinate>)
    ensures |r| == |ds| && forall i :: 0 <= i < |ds| ==> r[i] == ds[i].location
  {
    seq(|ds|, i requires 0 <= i < |ds| => ds[i].location)
  }

  /** BoundingBoxes. */
  function BoundingBoxes(ds: seq<PlacedDomino>): (r: seq<Box>)
    ensures |r| == |ds| && forall i :: 0 <= i < |ds| ==> r[i] == ds[i].box
  {
    seq(|ds|, i requires 0 <= i < |ds| => ds[i].box)
  }

  // ---------------------------------------------------------------------
  // BoardViewModel getters

  /** IsEmpty: no tile is down, so in particular there is no spinner. */
  function IsEmpty(b: Board): (r: bool)
    ensures r ==> Spinner(b).None?
  {
    |b.dominoes| == 0
  }

  /** Spinner: the tile at SpinnerIndex. An index past the end reads
      `undefined`, which every caller treats like null. */
  function Spinner(b: Board): (r: Option<nat>)
    ensures r.Some? ==> r.value < |b.dominoes| && b.spinnerIndex == Some(r.value)
    ensures b.spinnerIndex.None? ==> r.None?
  {
    match b.spinnerIndex
    case None => None
    case Some(s) => if s < |b.dominoes| then Some(s) else None
  }

  /** NorthEdge: nothing without a spinner; otherwise the first tile with
      the largest Y when that is north of the centre row, else the
      spinner. */
  function NorthEdge(b: Board): (r: Option<nat>)
    ensures r.None? <==> Spinner(b).None?
    ensures r.Some? ==> r.value < |b.dominoes|
    ensures r.Some? && (exists i :: 0 <= i < |b.dominoes| && b.dominoes[i].location.y > 0) ==>
              && b.dominoes[r.value].location.y > 0
              && (forall i :: 0 <= i < |b.dominoes| ==> b.dominoes[i].location.y <= b.dominoes[r.value].location.y)
              && (forall i :: 0 <= i < r.value ==> b.dominoes[i].location.y < b.dominoes[r.value].location.y)
    ensures r.Some? && (forall i :: 0 <= i < |b.dominoes| ==> b.dominoes[i].location.y <= 0) ==> r == Spinner(b)
  {
    match Spinner(b)
    case None => None
    case Some(s) =>
      var ys := Ys(b.dominoes);
      var maxY := MaxOf(ys);
      if maxY > 0 then FirstIndexOf(ys, maxY) else Some(s)
  }

  /** SouthEdge: the mirror image of NorthEdge. */
  function SouthEdge(b: Board): (r: Option<nat>)
    ensures r.None? <==> Spinner(b).None?
    ensures r.Some? ==> r.value < |b.dominoes|
    ensures r.Some? && (exists i :: 0 <= i < |b.dominoes| && b.dominoes[i].location.y < 0) ==>
              && b.dominoes[r.value].location.y < 0
              && (forall i :: 0 <= i < |b.dominoes| ==> b.dominoes[r.value].location.y <= b.dominoes[i].location.y)
              && (forall i :: 0 <= i < r.value ==> b.dominoes[r.value].location.y < b.dominoes[i].location.y)
    ensures r.Some? && (forall i :: 0 <= i < |b.dominoes| ==> b.dominoes[i].location.y >= 0) ==> r == Spinner(b)
  {
    match Spinner(b)
    case None => None
    case Some(s) =>
      var ys := Ys(b.dominoes);
      var minY := MinOf(ys);
      if minY < 0 then FirstIndexOf(ys, minY) else Some(s)
  }

  /** EastEdge: the first tile with the largest X (`undefined` on an empty
      board). */
  function EastEdge(b: Board): (r: Option<nat>)
    ensures r.None? <==> IsEmpty(b)
    ensures r.Some? ==>
              && r.value < |b.dominoes|
              && (forall i :: 0 <= i < |b.dominoes| ==> b.dominoes[i].location.x <= b.dominoes[r.value].location.x)
              && (forall i :: 0 <= i < r.value ==> b.dominoes[i].location.x < b.dominoes[r.value].location.x)
  {
    if IsEmpty(b) then None
    else
      var xs := Xs(b.dominoes);
      FirstIndexOf(xs, MaxOf(xs))
  }

  /** WestEdge: the first tile with the smallest X. */
  function WestEdge(b: Board): (r: Option<nat>)
    ensures r.None? <==> IsEmpty(b)
    ensures r.Some? ==>
              && r.value < |b.dominoes|
              && (forall i :: 0 <= i < |b.dominoes| ==> b.dominoes[r.value].location.x <= b.dominoes[i].location.x)
              && (forall i :: 0 <= i < r.value ==> b.dominoes[r.value].location.x < b.dominoes[i].location.x)
  {
    if IsEmpty(b) then None
    else
      var xs := Xs(b.dominoes);
      FirstIndexOf(xs, MinOf(xs))
  }

  /** The edge tile on one side of the board. */
  function Edge(b: Board, side: Direction): (r: Option<nat>)
    ensures r.Some? ==> r.value < |b.dominoes|
    ensures side == North ==> r == NorthEdge(b)
    ensures side == East ==> r == EastEdge(b)
    ensures side == South ==> r == SouthEdge(b)
    ensures side == West ==> r == WestEdge(b)
  {
    match side
    case North => NorthEdge(b)
    case East => EastEdge(b)
    case South => SouthEdge(b)
    case West => WestEdge(b)
    case NoDirection => None
  }

  /** CanPlayVertically: there is a spinner and the row runs past it on
      both sides, so the spinner and the two edge tiles are three distinct
      tiles. */
  function CanPlayVertically(b: Board): (r: bool)
    ensures r ==> && Spinner(b).Some? && WestEdge(b).Some? && EastEdge(b).Some?
                  && WestEdge(b) != Spinner(b) && EastEdge(b) != Spinner(b) && WestEdge(b) != EastEdge(b)
  {
    match Spinner(b)
    case None => false
    case Some(s) =>
      var x := b.dominoes[s].location.x;
      b.dominoes[WestEdge(b).value].location.x < x < b.dominoes[EastEdge(b).value].location.x
  }

  /** Vertical play is allowed exactly when some tile lies west of the
      spinner and some tile lies east of it. */
  lemma CanPlayVerticallyMeans(b: Board)
    ensures CanPlayVertically(b) <==>
              && Spinner(b).Some?
              && (exists i :: 0 <= i < |b.dominoes| && b.dominoes[i].location.x < b.dominoes[Spinner(b).value].location.x)
              && (exists j :: 0 <= j < |b.dominoes| && b.dominoes[Spinner(b).value].location.x < b.dominoes[j].location.x)
  {
    if Spinner(b).Some? {
      var w, e := WestEdge(b).value, EastEdge(b).value;
      assert w < |b.dominoes| && e < |b.dominoes|;
    }
  }

  /** RenderedNorthBoundary and friends: null on an empty board, otherwise
      the extreme side over all boxes. */
  function RenderedBoundary(b: Board, side: Direction): (r: Option<real>)
    requires IsCardinal(side)
    ensures r.None? <==> IsEmpty(b)
    ensures r.Some? ==> exists i :: 0 <= i < |b.dominoes| && r.value == Side(b.dominoes[i].box, side)
    ensures r.Some? && side in {North, West} ==> forall i :: 0 <= i < |b.dominoes| ==> r.value <= Side(b.dominoes[i].box, side)
    ensures r.Some? && side in {East, South} ==> forall i :: 0 <= i < |b.dominoes| ==> Side(b.dominoes[i].box, side) <= r.value
  {
    if IsEmpty(b) then None
    else
      var bs := BoundingBoxes(b.dominoes);
      match side
      case North => Some(NorthLimit(bs))
      case East => Some(EastLimit(bs))
      case South => Some(SouthLimit(bs))
      case West => Some(WestLimit(bs))
  }

  /** One side of a box. */
  function Side(box: Box, side: Direction): real {
    match side
    case North => box.north
    case East => box.east
    case South => box.south
    case _ => box.west
  }

  /** The number an edge tile leaves open: Face1 for a double or for a
      tile drawn pointing back towards the centre (`inward`), Face2 for any
      other tile. */
  function ExposedFaceOf(t: PlacedDomino, inward: Direction): (r: int)
    ensures HasFace(t.domino, r)
    ensures !IsDouble(t.domino) ==> (r == t.domino.head <==> t.direction == inward)
  {
    if IsDouble(t.domino) || t.direction == inward then t.domino.head else t.domino.tail
  }

  /** NorthExposedFace, EastExposedFace, SouthExposedFace, WestExposedFace:
      null when that edge has no tile. */
  function ExposedFace(b: Board, side: Direction): (r: Option<int>)
    ensures r.Some? <==> Edge(b, side).Some?
    ensures r.Some? ==> HasFace(b.dominoes[Edge(b, side).value].domino, r.value)
  {
    match Edge(b, side)
    case None => None
    case Some(e) => Some(ExposedFaceOf(b.dominoes[e], Opposite(side)))
  }

  /** DominoAt: the first tile at a location. */
  function DominoAt(b: Board, location: Coordinate): (r: Option<nat>)
    ensures r.Some? ==> r.value < |b.dominoes| && b.dominoes[r.value].location == location
    ensures r.Some? ==> forall i :: 0 <= i < r.value ==> b.dominoes[i].location != location
    ensures r.None? <==> forall i :: 0 <= i < |b.dominoes| ==> b.dominoes[i].location != location
  {
    var ls := Locations(b.dominoes);
    var r := FirstIndexOf(ls, location);
    assert r.None? ==> forall i :: 0 <= i < |b.dominoes| ==> ls[i] != location;
    r
  }

  // ---------------------------------------------------------------------
  // CalculateBoundingBox

  /** The box of the tile about to be played at `location`. A tile north
      or south of the row is placed against the north or south edge tile,
      one in the row against the east or west edge tile, and the first tile
      at the origin. Reading the box of an edge that does not exist is a
      TypeError in the source: None here. */
  function CalculateBoundingBox(b: Board, d: Domino, location: Coordinate): (r: Option<Box>)
    ensures r.None? <==>
              || (location.y > 0 && NorthEdge(b).None?)
              || (location.y < 0 && SouthEdge(b).None?)
              || (location.y == 0 && location.x > 0 && IsEmpty(b))
              || (location.y == 0 && location.x < 0 && IsEmpty(b))
  {
    var double := IsDouble(d);
    if location.y > 0 then
      match NorthEdge(b)
      case None => None
      case Some(e) =>
        var edge := b.dominoes[e];
        var eb := edge.box;
        var adjust := if IsDouble(edge.domino) && edge.location.y != 0 then 1.0 else 0.0;
        Some(Box(if double then eb.north - 2.0 else eb.north - 4.0,
                 if double then eb.east + 1.0 else eb.east - adjust,
                 eb.north,
                 if double then eb.west - 1.0 else eb.west + adjust))
    else if location.y < 0 then
      match SouthEdge(b)
      case None => None
      case Some(e) =>
        var edge := b.dominoes[e];
        var eb := edge.box;
        var adjust := if IsDouble(edge.domino) && edge.location.y != 0 then 1.0 else 0.0;
        Some(Box(eb.south,
                 if double then eb.east + 1.0 else eb.east - adjust,
                 if double then eb.south + 2.0 else eb.south + 4.0,
                 if double then eb.west - 1.0 else eb.west + adjust))
    else if location.x > 0 then
      match EastEdge(b)
      case None => None
      case Some(e) =>
        var edge := b.dominoes[e];
        var eb := edge.box;
        var adjust := if IsDouble(edge.domino) then 1.0 else 0.0;
        Some(Box(if double then eb.north - 1.0 else eb.north + adjust,
                 if double then eb.east + 2.0 else eb.east + 4.0,
                 if double then eb.south + 1.0 else eb.south - adjust,
                 eb.east))
    else if location.x < 0 then
      match WestEdge(b)
      case None => None
      case Some(e) =>
        var edge := b.dominoes[e];
        var eb := edge.box;
        var adjust := if IsDouble(edge.domino) then 1.0 else 0.0;
        Some(Box(if double then eb.north - 1.0 else eb.north + adjust,
                 eb.west,
                 if double then eb.south + 1.0 else eb.south - adjust,
                 if double then eb.west - 2.0 else eb.west - 4.0))
    else if double then Some(Box(-2.0, 1.0, 2.0, -1.0))
    else Some(Box(-1.0, 2.0, 1.0, -2.0))
  }

  /** How far a tile reaches across the row when it lies in the row: a
      double stands across it (4 squares), any other tile lies along it
      (2 squares). */
  function RowBreadth(t: PlacedDomino): real {
    if IsDouble(t.domino) then 4.0 else 2.0
  }

  /** How far a tile reaches across a vertical arm: a double in the arm
      lies across it (4 squares); the spinner, which sits in the row, and
      every other tile are 2 squares wide. */
  function ColumnBreadth(t: PlacedDomino): real {
    if IsDouble(t.domino) && t.location.y != 0 then 4.0 else 2.0
  }

  /** The first tile is centred on the origin; a double stands across the
      row (it will be the spinner), any other tile lies along it. */
  lemma FirstTileIsCentred(b: Board, d: Domino)
    ensures var r := CalculateBoundingBox(b, d, Coordinate(0, 0));
            && r.Some?
            && r.value.north + r.value.south == 0.0 && r.value.east + r.value.west == 0.0
            && Width(r.value) == TileLength(IsDouble(d))
            && Height(r.value) == RowBreadth(PlacedDomino(d, NoDirection, Coordinate(0, 0), r.value))
  {
  }

  /** A tile played in the row east of the centre starts at the east side
      of the east edge tile, is 2 squares long if a double and 4 otherwise,
      and shares the edge tile's centre line. If the edge tile is as broad
      as a tile in the row should be, so is the new one (two doubles are
      never played against each other: the only tile matching a double's
      number on both ends is that double); the two then touch. */
  lemma EastSidePlacement(b: Board, d: Domino, location: Coordinate)
    requires location.y == 0 && location.x > 0 && !IsEmpty(b)
    ensures var r := CalculateBoundingBox(b, d, location);
            var edge := b.dominoes[EastEdge(b).value];
            && r.Some?
            && r.value.west == edge.box.east
            && Width(r.value) == TileLength(IsDouble(d))
            && r.value.north + r.value.south == edge.box.north + edge.box.south
            && (Height(edge.box) == RowBreadth(edge) && !(IsDouble(d) && IsDouble(edge.domino)) ==>
                  Height(r.value) == RowBreadth(PlacedDomino(d, NoDirection, location, r.value))
                  && Abuts(edge.box, r.value, East))
  {
  }

  /** The mirror image of EastSidePlacement on the west side of the row. */
  lemma WestSidePlacement(b: Board, d: Domino, location: Coordinate)
    requires location.y == 0 && location.x < 0 && !IsEmpty(b)
    ensures var r := CalculateBoundingBox(b, d, location);
            var edge := b.dominoes[WestEdge(b).value];
            && r.Some?
            && r.value.east == edge.box.west
            && Width(r.value) == TileLength(IsDouble(d))
            && r.value.north + r.value.south == edge.box.north + edge.box.south
            && (Height(edge.box) == RowBreadth(edge) && !(IsDouble(d) && IsDouble(edge.domino)) ==>
                  Height(r.value) == RowBreadth(PlacedDomino(d, NoDirection, location, r.value))
                  && Abuts(edge.box, r.value, West))
  {
  }

  /** A tile played north of the row ends at the north side of the north
      edge tile, is 2 squares tall if a double and 4 otherwise, and shares
      the edge tile's centre line; with a well-formed edge tile it has the
      breadth of a tile in a vertical arm and the two touch. */
  lemma NorthSidePlacement(b: Board, d: Domino, location: Coordinate)
    requires location.y > 0 && Spinner(b).Some?
    ensures var r := CalculateBoundingBox(b, d, location);
            var edge := b.dominoes[NorthEdge(b).value];
            && r.Some?
            && r.value.south == edge.box.north
            && Height(r.value) == TileLength(IsDouble(d))
            && r.value.east + r.value.west == edge.box.east + edge.box.west
            && (Width(edge.box) == ColumnBreadth(edge) && !(IsDouble(d) && IsDouble(edge.domino)) ==>
                  Width(r.value) == ColumnBreadth(PlacedDomino(d, NoDirection, location, r.value))
                  && Abuts(edge.box, r.value, North))
  {
  }

  /** The mirror image of NorthSidePlacement south of the row. */
  lemma SouthSidePlacement(b: Board, d: Domino, location: Coordinate)
    requires location.y < 0 && Spinner(b).Some?
    ensures var r := CalculateBoundingBox(b, d, location);
            var edge := b.dominoes[SouthEdge(b).value];
            && r.Some?
            && r.value.north == edge.box.south
            && Height(r.value) == TileLength(IsDouble(d))
            && r.value.east + r.value.west == edge.box.east + edge.box.west
            && (Width(edge.box) == ColumnBreadth(edge) && !(IsDouble(d) && IsDouble(edge.domino)) ==>
                  Width(r.value) == ColumnBreadth(PlacedDomino(d, NoDirection, location, r.value))
                  && Abuts(edge.box, r.value, South))
  {
  }

  // ---------------------------------------------------------------------
  // BoardController

  /** AddDomino: append the tile with its computed box; the first double
      played becomes the spinner. None when computing the box fails. */
  function AddDomino(b: Board, d: Domino, direction: Direction, location: Coordinate): (r: Option<Board>)
    ensures r.Some? <==> CalculateBoundingBox(b, d, location).Some?
    ensures r.Some? ==>
              && |r.value.dominoes| == |b.dominoes| + 1
              && r.value.dominoes[..|b.dominoes|] == b.dominoes
              && r.value.dominoes[|b.dominoes|] == PlacedDomino(d, direction, location, CalculateBoundingBox(b, d, location).value)
    ensures r.Some? && Spinner(b).Some? ==> r.value.spinnerIndex == b.spinnerIndex
    ensures r.Some? && !IsDouble(d) ==> r.value.spinnerIndex == b.spinnerIndex
    ensures r.Some? && IsDouble(d) && b.spinnerIndex.None? ==> r.value.spinnerIndex == Some(|b.dominoes|)
  {
    match CalculateBoundingBox(b, d, location)
    case None => None
    case Some(box) =>
      var pushed := Board(b.dominoes + [PlacedDomino(d, direction, location, box)], b.spinnerIndex);
      if IsDouble(d) && Spinner(pushed).None? then Some(pushed.(spinnerIndex := Some(|pushed.dominoes| - 1)))
      else Some(pushed)
  }

  /** ClearBoard. */
  function ClearBoard(): (r: Board)
    ensures IsEmpty(r) && r.spinnerIndex.None?
  {
    Board([], None)
  }

  /** The spinner index names the first double played, and nothing while no
      double has been played. */
  predicate SpinnerIsFirstDouble(b: Board) {
    match b.spinnerIndex
    case None => forall i :: 0 <= i < |b.dominoes| ==> !IsDouble(b.dominoes[i].domino)
    case Some(s) =>
      && s < |b.dominoes|
      && IsDouble(b.dominoes[s].domino)
      && forall i :: 0 <= i < s ==> !IsDouble(b.dominoes[i].domino)
  }

  /** A cleared board satisfies the spinner invariant, and every tile added
      keeps it. */
  lemma AddDominoKeepsSpinnerFirstDouble(b: Board, d: Domino, direction: Direction, location: Coordinate)
    requires SpinnerIsFirstDouble(b)
    ensures SpinnerIsFirstDouble(ClearBoard())
    ensures AddDomino(b, d, direction, location).Some? ==> SpinnerIsFirstDouble(AddDomino(b, d, direction, location).value)
  {
    var r := AddDomino(b, d, direction, location);
    if r.Some? {
      var ds := r.value.dominoes;
      assert forall i :: 0 <= i < |b.dominoes| ==> ds[i] == b.dominoes[i];
    }
  }

  /** On a board that keeps the invariant, Spinner is null exactly when
      SpinnerIndex is null. */
  lemma SpinnerNullIffIndexNull(b: Board)
    requires SpinnerIsFirstDouble(b)
    ensures Spinner(b).None? <==> b.spinnerIndex.None?
    ensures Spinner(b).Some? ==> IsDouble(b.dominoes[Spinner(b).value].domino)
  {
  }
}
