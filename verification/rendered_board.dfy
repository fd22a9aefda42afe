/** The current layout engine's board representation
    (src/games/dominoes/view/game/RenderedBoard.ts): the logical board, its
    rendered form with one box and one draw direction per tile, and the pure
    transformations the solver chains together. */
module RenderedBoards {
  import opened Wrappers
  import opened Utils
  import opened Dominoes
  import opened Geometry

  /** The logical board handed to the engine: an open row before any double
      has been played, or a spinner with four arms running outward. */
  datatype Board =
    | Row(dominoes: seq<Domino>)
    | Cross(spinner: Domino, north: seq<Domino>, east: seq<Domino>, south: seq<Domino>, west: seq<Domino>)

  /** One placed tile: the domino, its footprint and the direction in which
      its two halves are drawn. */
  datatype BoardDomino = BoardDomino(domino: Domino, box: Box, direction: Direction)

  /** The rendered board: the source's `initialRow !== null` case is `Open`,
      the spinner case is `Spun`. */
  datatype RenderedBoard =
    | Open(row: seq<BoardDomino>)
    | Spun(spinner: BoardDomino, northArm: seq<BoardDomino>, eastArm: seq<BoardDomino>,
           southArm: seq<BoardDomino>, westArm: seq<BoardDomino>)

  // ---------------------------------------------------------------------
  // GetRenderedRepresentation

  /** getDominoWidth: a tile's length along its arm. */
  function DominoWidth(d: Domino): int {
    if IsDouble(d) then 2 else 4
  }

  /** getWidthDisplacementInArm: half a tile's extent across its arm. */
  function WidthDisplacement(d: Domino): int {
    if IsDouble(d) then 2 else 1
  }

  /** The summed lengths of a run of tiles. */
  function SumWidths(s: seq<Domino>): (r: int)
    ensures r >= 2 * |s|
  {
    if |s| == 0 then 0 else SumWidths(s[..|s| - 1]) + DominoWidth(s[|s| - 1])
  }

  /** getLengthDisplacementInArm: how far out along its arm tile `i` starts,
      the lengths of the tiles before it. */
  function LengthDisplacement(arm: seq<Domino>, i: nat): int
    requires i <= |arm|
  {
    SumWidths(arm[..i])
  }

  lemma {:induction false} LengthDisplacementStep(arm: seq<Domino>, i: nat)
    requires i < |arm|
    ensures LengthDisplacement(arm, i + 1) == LengthDisplacement(arm, i) + DominoWidth(arm[i])
  {
    assert arm[..i + 1][..i] == arm[..i];
  }

  function RowTile(row: seq<Domino>, i: nat): BoardDomino
    requires i < |row|
  {
    BoardDomino(row[i], Box(-1.0, (4 * (i + 1)) as real, 1.0, (4 * i) as real), East)
  }

  function NorthTile(arm: seq<Domino>, i: nat): BoardDomino
    requires i < |arm|
  {
    var d, l := arm[i], LengthDisplacement(arm, i);
    BoardDomino(d, Box((-2 - l - DominoWidth(d)) as real, WidthDisplacement(d) as real,
                       (-2 - l) as real, (-1 * WidthDisplacement(d)) as real),
                if IsDouble(d) then East else North)
  }

  function EastTile(arm: seq<Domino>, i: nat): BoardDomino
    requires i < |arm|
  {
    var d, l := arm[i], LengthDisplacement(arm, i);
    BoardDomino(d, Box((-1 * WidthDisplacement(d)) as real, (1 + l + DominoWidth(d)) as real,
                       WidthDisplacement(d) as real, (1 + l) as real),
                if IsDouble(d) then South else East)
  }

  function SouthTile(arm: seq<Domino>, i: nat): BoardDomino
    requires i < |arm|
  {
    var d, l := arm[i], LengthDisplacement(arm, i);
    BoardDomino(d, Box((2 + l) as real, WidthDisplacement(d) as real,
                       (2 + l + DominoWidth(d)) as real, (-1 * WidthDisplacement(d)) as real),
                if IsDouble(d) then East else South)
  }

  function WestTile(arm: seq<Domino>, i: nat): BoardDomino
    requires i < |arm|
  {
    var d, l := arm[i], LengthDisplacement(arm, i);
    BoardDomino(d, Box((-1 * WidthDisplacement(d)) as real, (-1 - l) as real,
                       WidthDisplacement(d) as real, (-1 - l - DominoWidth(d)) as real),
                if IsDouble(d) then South else West)
  }

  /** The tile an arm running towards `dir` holds at position `i`. */
  function ArmTile(dir: Direction, arm: seq<Domino>, i: nat): BoardDomino
    requires IsCardinal(dir) && i < |arm|
  {
    match dir
    case North => NorthTile(arm, i)
    case East => EastTile(arm, i)
    case South => SouthTile(arm, i)
    case West => WestTile(arm, i)
  }

  function BuildArm(dir: Direction, arm: seq<Domino>): (r: seq<BoardDomino>)
    requires IsCardinal(dir)
    ensures |r| == |arm|
    ensures forall i :: 0 <= i < |arm| ==> r[i] == ArmTile(dir, arm, i)
  {
    seq(|arm|, i requires 0 <= i < |arm| => ArmTile(dir, arm, i))
  }

  /** The fixed box of the spinner, centred on the origin. */
  const SpinnerBox := Box(-2.0, 1.0, 2.0, -1.0)

  /** GetRenderedRepresentation: lay the logical board out around the
      origin, unbent and uncentred. */
  function GetRenderedRepresentation(board: Board): (r: RenderedBoard)
    ensures r.Open? <==> board.Row?
    ensures r.Open? ==> |r.row| == |board.dominoes|
    ensures r.Spun? ==> r.spinner == BoardDomino(board.spinner, SpinnerBox, South)
    ensures r.Spun? ==> |r.northArm| == |board.north| && |r.eastArm| == |board.east|
                        && |r.southArm| == |board.south| && |r.westArm| == |board.west|
  {
    match board
    case Row(row) =>
      Open(seq(|row|, i requires 0 <= i < |row| => RowTile(row, i)))
    case Cross(spinner, n, e, s, w) =>
      Spun(BoardDomino(spinner, SpinnerBox, South),
           BuildArm(North, n), BuildArm(East, e), BuildArm(South, s), BuildArm(West, w))
  }

  /** Where an arm's first tile starts: on the spinner's side facing `dir`. */
  function SpinnerEdge(dir: Direction): real {
    match dir
    case North => SpinnerBox.north
    case East => SpinnerBox.east
    case South => SpinnerBox.south
    case _ => SpinnerBox.west
  }

  /** Where tile `i` of an arm starts: the spinner's edge, moved outward by
      the lengths of the tiles before it. */
  function NearEdge(dir: Direction, arm: seq<Domino>, i: nat): real
    requires i <= |arm|
  {
    if dir == North || dir == West then SpinnerEdge(dir) - LengthDisplacement(arm, i) as real
    else SpinnerEdge(dir) + LengthDisplacement(arm, i) as real
  }

  /** In an open row, tile `i` is the four-square box starting at 4i on the
      row's middle line, drawn EAST, and each tile's east side is the next
      tile's west side. */
  lemma OpenRowLayout(row: seq<Domino>)
    ensures var r := GetRenderedRepresentation(Row(row)).row;
            forall i :: 0 <= i < |row| ==>
              && r[i].domino == row[i] && r[i].direction == East
              && r[i].box == ArmBox(East, false, (4 * i) as real, 0.0)
    ensures var r := GetRenderedRepresentation(Row(row)).row;
            forall i :: 0 <= i < |row| - 1 ==> Abuts(r[i].box, r[i + 1].box, East)
  {
  }

  /** Each arm tile is the arm box of its domino starting at its near edge,
      on the line through the spinner's centre. */
  lemma ArmTileIsArmBox(dir: Direction, arm: seq<Domino>, i: nat)
    requires IsCardinal(dir) && i < |arm|
    ensures ArmTile(dir, arm, i).box == ArmBox(dir, IsDouble(arm[i]), NearEdge(dir, arm, i), 0.0)
    ensures ArmTile(dir, arm, i).domino == arm[i]
  {
  }

  /** The dominoes of a spun board's arm running towards `dir`. */
  function ArmOf(board: Board, dir: Direction): seq<Domino>
    requires board.Cross?
  {
    match dir
    case North => board.north
    case East => board.east
    case South => board.south
    case West => board.west
    case NoDirection => []
  }

  /** In a spun board the first tile of every arm sits flush against the
      spinner and every later tile sits flush against the one before it:
      no gap and no overlap along the arm. */
  lemma {:induction false} ArmsAreContiguous(board: Board, dir: Direction)
    requires board.Cross? && IsCardinal(dir)
    ensures var arm := ArmOf(board, dir);
            var built := BuildArm(dir, arm);
            && (|arm| > 0 ==> Abuts(SpinnerBox, built[0].box, dir))
            && (forall i :: 0 <= i < |arm| - 1 ==> Abuts(built[i].box, built[i + 1].box, dir))
  {
    var arm := ArmOf(board, dir);
    var built := BuildArm(dir, arm);
    if |arm| > 0 {
      ArmTileIsArmBox(dir, arm, 0);
      assert arm[..0] == [];
    }
    forall i | 0 <= i < |arm| - 1
      ensures Abuts(built[i].box, built[i + 1].box, dir)
    {
      ArmTileIsArmBox(dir, arm, i);
      ArmTileIsArmBox(dir, arm, i + 1);
      LengthDisplacementStep(arm, i);
      assert NearEdge(dir, arm, i + 1) == FarEdge(dir, IsDouble(arm[i]), NearEdge(dir, arm, i));
      ArmTilesAbut(dir, IsDouble(arm[i]), IsDouble(arm[i + 1]), NearEdge(dir, arm, i), 0.0);
    }
  }

  /** A non-double is drawn along its arm; a double is drawn across it
      (EAST in the north and south arms, SOUTH in the east and west arms). */
  lemma ArmOrientation(dir: Direction, arm: seq<Domino>, i: nat)
    requires IsCardinal(dir) && i < |arm|
    ensures !IsDouble(arm[i]) ==> ArmTile(dir, arm, i).direction == dir
    ensures IsDouble(arm[i]) ==>
              ArmTile(dir, arm, i).direction == (if dir in {North, South} then East else South)
  {
  }

  // ---------------------------------------------------------------------
  // Flattening and boundaries

  /** FlattenRenderedBoard: the open row, or the spinner followed by the
      north, east, south and west arms. */
  function Flatten(b: RenderedBoard): (r: seq<BoardDomino>)
    ensures b.Open? ==> r == b.row
    ensures b.Spun? ==> |r| == 1 + |b.northArm| + |b.eastArm| + |b.southArm| + |b.westArm|
    ensures b.Spun? ==> r[0] == b.spinner
    ensures b.Spun? ==> forall t :: t in r <==>
              (t == b.spinner || t in b.northArm || t in b.eastArm || t in b.southArm || t in b.westArm)
  {
    match b
    case Open(row) => row
    case Spun(spinner, n, e, s, w) => [spinner] + n + e + s + w
  }

  /** The footprints of a run of tiles. */
  function Boxes(ts: seq<BoardDomino>): (r: seq<Box>)
    ensures |r| == |ts|
    ensures forall i :: 0 <= i < |ts| ==> r[i] == ts[i].box
  {
    seq(|ts|, i requires 0 <= i < |ts| => ts[i].box)
  }

  /** A spun board always has at least its spinner; only an empty open row
      has no tiles. */
  predicate HasTiles(b: RenderedBoard) {
    |Flatten(b)| > 0
  }

  /** GetNorthBoundary and its three siblings: the smallest north side,
      the largest east side, the largest south side and the smallest west
      side of the board's tiles, each reached by some tile. */
  function NorthBoundary(b: RenderedBoard): (r: real)
    requires HasTiles(b)
    ensures forall t :: t in Flatten(b) ==> r <= t.box.north
    ensures exists t :: t in Flatten(b) && t.box.north == r
  {
    TileLimits(Flatten(b));
    NorthLimit(Boxes(Flatten(b)))
  }

  function EastBoundary(b: RenderedBoard): (r: real)
    requires HasTiles(b)
    ensures forall t :: t in Flatten(b) ==> t.box.east <= r
    ensures exists t :: t in Flatten(b) && t.box.east == r
  {
    TileLimits(Flatten(b));
    EastLimit(Boxes(Flatten(b)))
  }

  function SouthBoundary(b: RenderedBoard): (r: real)
    requires HasTiles(b)
    ensures forall t :: t in Flatten(b) ==> t.box.south <= r
    ensures exists t :: t in Flatten(b) && t.box.south == r
  {
    TileLimits(Flatten(b));
    SouthLimit(Boxes(Flatten(b)))
  }

  function WestBoundary(b: RenderedBoard): (r: real)
    requires HasTiles(b)
    ensures forall t :: t in Flatten(b) ==> r <= t.box.west
    ensures exists t :: t in Flatten(b) && t.box.west == r
  {
    TileLimits(Flatten(b));
    WestLimit(Boxes(Flatten(b)))
  }

  /** The limits of a run of tiles' boxes bound every tile and are reached
      by some tile. */
  lemma TileLimits(ts: seq<BoardDomino>)
    requires |ts| > 0
    ensures forall t :: t in ts ==>
              && NorthLimit(Boxes(ts)) <= t.box.north && t.box.south <= SouthLimit(Boxes(ts))
              && WestLimit(Boxes(ts)) <= t.box.west && t.box.east <= EastLimit(Boxes(ts))
    ensures exists t :: t in ts && t.box.north == NorthLimit(Boxes(ts))
    ensures exists t :: t in ts && t.box.east == EastLimit(Boxes(ts))
    ensures exists t :: t in ts && t.box.south == SouthLimit(Boxes(ts))
    ensures exists t :: t in ts && t.box.west == WestLimit(Boxes(ts))
  {
    var bs := Boxes(ts);
    forall t | t in ts
      ensures && NorthLimit(bs) <= t.box.north && t.box.south <= SouthLimit(bs)
              && WestLimit(bs) <= t.box.west && t.box.east <= EastLimit(bs)
    {
      var i :| 0 <= i < |ts| && ts[i] == t;
      assert bs[i] == t.box;
    }
    var n :| 0 <= n < |bs| && NorthLimit(bs) == bs[n].north;
    assert ts[n] in ts;
    var e :| 0 <= e < |bs| && EastLimit(bs) == bs[e].east;
    assert ts[e] in ts;
    var s :| 0 <= s < |bs| && SouthLimit(bs) == bs[s].south;
    assert ts[s] in ts;
    var w :| 0 <= w < |bs| && WestLimit(bs) == bs[w].west;
    assert ts[w] in ts;
  }

  /** The boundaries are attained, extreme sides of the board's tiles: no
      tile reaches past them and some tile touches each of them. */
  lemma BoundariesAreExtremes(b: RenderedBoard)
    requires HasTiles(b)
    ensures forall t :: t in Flatten(b) ==>
              && NorthBoundary(b) <= t.box.north && t.box.south <= SouthBoundary(b)
              && WestBoundary(b) <= t.box.west && t.box.east <= EastBoundary(b)
    ensures exists t :: t in Flatten(b) && t.box.north == NorthBoundary(b)
    ensures exists t :: t in Flatten(b) && t.box.east == EastBoundary(b)
    ensures exists t :: t in Flatten(b) && t.box.south == SouthBoundary(b)
    ensures exists t :: t in Flatten(b) && t.box.west == WestBoundary(b)
  {
    var n, e, s, w := NorthBoundary(b), EastBoundary(b), SouthBoundary(b), WestBoundary(b);
    assert exists t :: t in Flatten(b) && t.box.north == n;
  }

  /** Tiles that touch the four boundaries. */
  lemma BoundaryTiles(b: RenderedBoard) returns (nt: BoardDomino, et: BoardDomino, st: BoardDomino, wt: BoardDomino)
    requires HasTiles(b)
    ensures nt in Flatten(b) && nt.box.north == NorthBoundary(b)
    ensures et in Flatten(b) && et.box.east == EastBoundary(b)
    ensures st in Flatten(b) && st.box.south == SouthBoundary(b)
    ensures wt in Flatten(b) && wt.box.west == WestBoundary(b)
  {
    BoundariesAreExtremes(b);
    nt :| nt in Flatten(b) && nt.box.north == NorthBoundary(b);
    et :| et in Flatten(b) && et.box.east == EastBoundary(b);
    st :| st in Flatten(b) && st.box.south == SouthBoundary(b);
    wt :| wt in Flatten(b) && wt.box.west == WestBoundary(b);
  }

  /** The arm of a spun rendered board that runs towards `dir`. */
  function RenderedArm(b: RenderedBoard, dir: Direction): seq<BoardDomino>
    requires b.Spun?
  {
    match dir
    case North => b.northArm
    case East => b.eastArm
    case South => b.southArm
    case West => b.westArm
    case NoDirection => []
  }

  /** The same tile: the source compares only the dominoes. */
  predicate SameDomino(t: BoardDomino, last: BoardDomino) {
    Equals(t.domino, last.domino)
  }

  /** IsFurthestNorthDomino: on a spun board, whether the tile's domino is
      the one at the end of the north arm (never, when the arm is empty:
      comparing with the missing last tile is taken to be false);
      on an open row every tile counts. */
  function IsFurthestNorthDomino(b: RenderedBoard, t: BoardDomino): (r: bool)
    ensures b.Open? ==> r
    ensures b.Spun? ==> (r <==> |b.northArm| > 0 && t.domino == b.northArm[|b.northArm| - 1].domino)
  {
    if b.Spun? then |b.northArm| > 0 && SameDomino(t, b.northArm[|b.northArm| - 1]) else true
  }

  function IsFurthestSouthDomino(b: RenderedBoard, t: BoardDomino): (r: bool)
    ensures b.Open? ==> r
    ensures b.Spun? ==> (r <==> |b.southArm| > 0 && t.domino == b.southArm[|b.southArm| - 1].domino)
  {
    if b.Spun? then |b.southArm| > 0 && SameDomino(t, b.southArm[|b.southArm| - 1]) else true
  }

  /** IsFurthestEastDomino: the end of the east arm, or the last tile of
      the open row; an empty open row makes the source throw. */
  function IsFurthestEastDomino(b: RenderedBoard, t: BoardDomino): (r: Option<bool>)
    ensures r.None? <==> b.Open? && |b.row| == 0
    ensures b.Spun? ==> r == Some(|b.eastArm| > 0 && t.domino == b.eastArm[|b.eastArm| - 1].domino)
    ensures b.Open? && |b.row| > 0 ==> r == Some(t.domino == b.row[|b.row| - 1].domino)
  {
    if b.Spun? then Some(|b.eastArm| > 0 && SameDomino(t, b.eastArm[|b.eastArm| - 1]))
    else if |b.row| == 0 then None
    else Some(SameDomino(t, b.row[|b.row| - 1]))
  }

  function IsFurthestWestDomino(b: RenderedBoard, t: BoardDomino): (r: Option<bool>)
    ensures r.None? <==> b.Open? && |b.row| == 0
    ensures b.Spun? ==> r == Some(|b.westArm| > 0 && t.domino == b.westArm[|b.westArm| - 1].domino)
    ensures b.Open? && |b.row| > 0 ==> r == Some(t.domino == b.row[0].domino)
  {
    if b.Spun? then Some(|b.westArm| > 0 && SameDomino(t, b.westArm[|b.westArm| - 1]))
    else if |b.row| == 0 then None
    else Some(SameDomino(t, b.row[0]))
  }

  /** Only the end tiles of the open row are furthest east or west, and on
      a spun board a tile is furthest in an arm exactly when the arm ends in
      its domino. */
  lemma FurthestIsTheEnd(b: RenderedBoard, t: BoardDomino)
    ensures b.Open? && |b.row| > 0 ==>
              && IsFurthestEastDomino(b, t) == Some(t.domino == b.row[|b.row| - 1].domino)
              && IsFurthestWestDomino(b, t) == Some(t.domino == b.row[0].domino)
    ensures b.Spun? ==>
              (IsFurthestEastDomino(b, t) == Some(true) <==>
                 |b.eastArm| > 0 && t.domino == b.eastArm[|b.eastArm| - 1].domino)
    ensures b.Spun? ==>
              (IsFurthestNorthDomino(b, t) <==>
                 |b.northArm| > 0 && t.domino == b.northArm[|b.northArm| - 1].domino)
    ensures b.Open? ==> IsFurthestNorthDomino(b, t) && IsFurthestSouthDomino(b, t)
  {
  }

  // ---------------------------------------------------------------------
  // Shifting

  /** ShiftBoardDominoFunction(x, y) applied to one tile. */
  function ShiftTile(t: BoardDomino, x: real, y: real): (r: BoardDomino)
    ensures r.domino == t.domino && r.direction == t.direction
    ensures r.box == Translate(t.box, x, y)
  {
    t.(box := Translate(t.box, x, y))
  }

  function ShiftTiles(ts: seq<BoardDomino>, x: real, y: real): (r: seq<BoardDomino>)
    ensures |r| == |ts|
    ensures forall i :: 0 <= i < |ts| ==> r[i] == ShiftTile(ts[i], x, y)
  {
    seq(|ts|, i requires 0 <= i < |ts| => ShiftTile(ts[i], x, y))
  }

  /** ShiftRenderedBoard with the uniform shift the engine always passes. */
  function ShiftRenderedBoard(b: RenderedBoard, x: real, y: real): (r: RenderedBoard)
    ensures r.Open? <==> b.Open?
    ensures Flatten(r) == ShiftTiles(Flatten(b), x, y)
    ensures r.Spun? ==> && |r.northArm| == |b.northArm| && |r.eastArm| == |b.eastArm|
                        && |r.southArm| == |b.southArm| && |r.westArm| == |b.westArm|
  {
    match b
    case Open(row) => Open(ShiftTiles(row, x, y))
    case Spun(spinner, n, e, s, w) =>
      var r := Spun(ShiftTile(spinner, x, y), ShiftTiles(n, x, y), ShiftTiles(e, x, y),
                    ShiftTiles(s, x, y), ShiftTiles(w, x, y));
      ShiftTilesConcat([spinner], n, x, y);
      ShiftTilesConcat([spinner] + n, e, x, y);
      ShiftTilesConcat([spinner] + n + e, s, x, y);
      ShiftTilesConcat([spinner] + n + e + s, w, x, y);
      r
  }

  lemma ShiftTilesConcat(a: seq<BoardDomino>, b: seq<BoardDomino>, x: real, y: real)
    ensures ShiftTiles(a + b, x, y) == ShiftTiles(a, x, y) + ShiftTiles(b, x, y)
  {
    assert forall i :: 0 <= i < |a + b| ==>
      ShiftTiles(a + b, x, y)[i] == (ShiftTiles(a, x, y) + ShiftTiles(b, x, y))[i];
  }

  /** Shifting moves every footprint and nothing else: the boxes of the
      shifted tiles are the translated boxes. */
  lemma BoxesOfShift(ts: seq<BoardDomino>, x: real, y: real)
    ensures Boxes(ShiftTiles(ts, x, y)) == TranslateAll(Boxes(ts), x, y)
  {
  }

  /** A shift by nothing is the identity, and two shifts compose into one
      shift by the sum. */
  lemma ShiftIdentityAndCompose(b: RenderedBoard, x1: real, y1: real, x2: real, y2: real)
    ensures ShiftRenderedBoard(b, 0.0, 0.0) == b
    ensures ShiftRenderedBoard(ShiftRenderedBoard(b, x1, y1), x2, y2) == ShiftRenderedBoard(b, x1 + x2, y1 + y2)
  {
    forall ts: seq<BoardDomino>
      ensures ShiftTiles(ts, 0.0, 0.0) == ts
      ensures ShiftTiles(ShiftTiles(ts, x1, y1), x2, y2) == ShiftTiles(ts, x1 + x2, y1 + y2)
    {
      TilesIdentityAndCompose(ts, x1, y1, x2, y2);
    }
  }

  /** Equal moves give equal boards. */
  lemma SameShift(b: RenderedBoard, x: real, y: real, x': real, y': real)
    requires x == x' && y == y'
    ensures ShiftRenderedBoard(b, x, y) == ShiftRenderedBoard(b, x', y')
  {
  }

  lemma TilesIdentityAndCompose(ts: seq<BoardDomino>, x1: real, y1: real, x2: real, y2: real)
    ensures ShiftTiles(ts, 0.0, 0.0) == ts
    ensures ShiftTiles(ShiftTiles(ts, x1, y1), x2, y2) == ShiftTiles(ts, x1 + x2, y1 + y2)
  {
    assert forall i :: 0 <= i < |ts| ==> ShiftTiles(ts, 0.0, 0.0)[i] == ts[i];
  }

  /** Shifting moves the four boundaries by the shift. */
  lemma BoundariesOfShift(b: RenderedBoard, x: real, y: real)
    requires HasTiles(b)
    ensures HasTiles(ShiftRenderedBoard(b, x, y))
    ensures NorthBoundary(ShiftRenderedBoard(b, x, y)) == NorthBoundary(b) + y
    ensures SouthBoundary(ShiftRenderedBoard(b, x, y)) == SouthBoundary(b) + y
    ensures EastBoundary(ShiftRenderedBoard(b, x, y)) == EastBoundary(b) + x
    ensures WestBoundary(ShiftRenderedBoard(b, x, y)) == WestBoundary(b) + x
  {
    BoxesOfShift(Flatten(b), x, y);
    LimitsOfTranslateAll(Boxes(Flatten(b)), x, y);
  }

  // ---------------------------------------------------------------------
  // Centring

  /** CenterRenderedBoardOnGrid: shift the board so that the middle of its
      extent lands on the grid square floor(W/2), floor(H/2). An empty open
      row has no extent (the source's shift is NaN) and no tile to move. */
  function CenterRenderedBoardOnGrid(b: RenderedBoard, w: int, h: int): (r: RenderedBoard)
    ensures !HasTiles(b) ==> r == b
    ensures HasTiles(b) ==> && HasTiles(r)
                            && (EastBoundary(r) + WestBoundary(r)) / 2.0 == (w / 2) as real
                            && (NorthBoundary(r) + SouthBoundary(r)) / 2.0 == (h / 2) as real
                            && EastBoundary(r) - WestBoundary(r) == EastBoundary(b) - WestBoundary(b)
                            && SouthBoundary(r) - NorthBoundary(r) == SouthBoundary(b) - NorthBoundary(b)
    ensures exists x: real, y: real :: r == ShiftRenderedBoard(b, x, y)
  {
    if !HasTiles(b) then
      ShiftIdentityAndCompose(b, 0.0, 0.0, 0.0, 0.0);
      b
    else
      BoundariesOfShift(b, CentringShiftX(b, w), CentringShiftY(b, h));
      ShiftRenderedBoard(b, CentringShiftX(b, w), CentringShiftY(b, h))
  }

  /** Centring a board with tiles is the move by the centring shifts. */
  lemma CenteringIsAMove(b: RenderedBoard, w: int, h: int, x: real, y: real)
    requires HasTiles(b) && CentringShiftX(b, w) == x && CentringShiftY(b, h) == y
    ensures CenterRenderedBoardOnGrid(b, w, h) == ShiftRenderedBoard(b, x, y)
  {
    SameShift(b, CentringShiftX(b, w), CentringShiftY(b, h), x, y);
  }

  /** How far centring moves a board across: from the middle of its
      horizontal extent to the middle column floor(W/2). */
  function CentringShiftX(b: RenderedBoard, w: int): real
    requires HasTiles(b)
  {
    (w / 2) as real - (EastBoundary(b) + WestBoundary(b)) / 2.0
  }

  /** How far centring moves a board down. */
  function CentringShiftY(b: RenderedBoard, h: int): real
    requires HasTiles(b)
  {
    (h / 2) as real - (NorthBoundary(b) + SouthBoundary(b)) / 2.0
  }

  // ---------------------------------------------------------------------
  // Keeping the tiles near the spinner inside the grid

  /** The source's default closeness distance. */
  const CloseDistance: real := 6.0

  /** The footprints among `ts` that are close to the box `s`, in order. */
  function CloseTo(s: Box, ts: seq<BoardDomino>): (r: seq<Box>)
    ensures |r| <= |ts|
    ensures forall bx :: bx in r <==> bx in Boxes(ts) && AreClose(s, bx, CloseDistance)
  {
    if |ts| == 0 then []
    else
      var rest := CloseTo(s, ts[1..]);
      assert Boxes(ts) == [ts[0].box] + Boxes(ts[1..]);
      if AreClose(s, ts[0].box, CloseDistance) then [ts[0].box] + rest else rest
  }

  /** The close bounding boxes of a spun board: every tile close to the
      spinner (the spinner itself never is). */
  function CloseBoxes(b: RenderedBoard): seq<Box>
    requires b.Spun?
  {
    CloseTo(b.spinner.box, Flatten(b))
  }

  lemma {:induction false} CloseToShifted(s: Box, ts: seq<BoardDomino>, x: real, y: real)
    ensures CloseTo(Translate(s, x, y), ShiftTiles(ts, x, y)) == TranslateAll(CloseTo(s, ts), x, y)
  {
    if |ts| > 0 {
      var st := ShiftTiles(ts, x, y);
      var ss := Translate(s, x, y);
      assert st[1..] == ShiftTiles(ts[1..], x, y);
      CloseToShifted(s, ts[1..], x, y);
      var rest := CloseTo(s, ts[1..]);
      assert CloseTo(ss, st[1..]) == TranslateAll(rest, x, y);
      AreCloseProperties(s, ts[0].box, CloseDistance, x, y);
      assert st[0].box == Translate(ts[0].box, x, y);
      if AreClose(s, ts[0].box, CloseDistance) {
        assert CloseTo(ss, st) == [st[0].box] + CloseTo(ss, st[1..]);
        TranslateAllCons(ts[0].box, rest, x, y);
      } else {
        assert CloseTo(ss, st) == CloseTo(ss, st[1..]);
      }
    }
  }

  /** Shifting a spun board shifts its close boxes: closeness depends only
      on the relative position of a tile and the spinner. */
  lemma CloseBoxesOfShift(b: RenderedBoard, x: real, y: real)
    requires b.Spun?
    ensures CloseBoxes(ShiftRenderedBoard(b, x, y)) == TranslateAll(CloseBoxes(b), x, y)
  {
    CloseToShifted(b.spinner.box, Flatten(b), x, y);
  }

  /** MaintainDominoesCloseToSpinnerWithinGrid: when some tile close to the
      spinner is outside the grid, shift the whole board once, by the least
      amount on each axis that brings the close tiles' extent back inside. */
  function MaintainDominoesCloseToSpinnerWithinGrid(b: RenderedBoard, w: int, h: int): (r: RenderedBoard)
    ensures r.Spun? <==> b.Spun?
    ensures b.Open? || AllFit(CloseBoxes(b), w, h) ==> r == b
    ensures exists x: real, y: real :: r == ShiftRenderedBoard(b, x, y)
  {
    if b.Open? || AllFit(CloseBoxes(b), w, h) then
      ShiftIdentityAndCompose(b, 0.0, 0.0, 0.0, 0.0);
      b
    else
      var close := CloseBoxes(b);
      ShiftRenderedBoard(b, ClampShift(WestLimit(close), EastLimit(close), w),
                         ClampShift(NorthLimit(close), SouthLimit(close), h))
  }

  /** Whenever the close tiles' overall extent is no larger than the grid,
      every close tile is inside the grid afterwards. */
  lemma MaintainKeepsCloseTilesInGrid(b: RenderedBoard, w: int, h: int)
    requires b.Spun? && SpanFits(CloseBoxes(b), w, h)
    ensures var r := MaintainDominoesCloseToSpinnerWithinGrid(b, w, h);
            r.Spun? && AllFit(CloseBoxes(r), w, h)
  {
    var close := CloseBoxes(b);
    if !AllFit(close, w, h) {
      var x := ClampShift(WestLimit(close), EastLimit(close), w);
      var y := ClampShift(NorthLimit(close), SouthLimit(close), h);
      CloseBoxesOfShift(b, x, y);
      ClampedBoxesFit(close, w, h);
    }
  }

  /** The region, centred on the spinner, that holds every tile close to
      the spinner of a freshly built board: 22 squares wide and 24 tall. */
  const CloseRegion := Box(-12.0, 11.0, 12.0, -11.0)

  lemma CloseArmTileInRegion(dir: Direction, arm: seq<Domino>, i: nat)
    requires IsCardinal(dir) && i < |arm|
    requires AreClose(SpinnerBox, ArmTile(dir, arm, i).box, CloseDistance)
    ensures Contains(CloseRegion, ArmTile(dir, arm, i).box)
  {
    ArmTileIsArmBox(dir, arm, i);
  }

  /** Every tile of a built board that is close to the spinner lies in
      `CloseRegion`: an arm tile is close only while it starts within six
      squares of the spinner, and an arm is at most two squares to either
      side of the spinner's centre line. */
  lemma CloseBoxesOfBuiltBoard(board: Board)
    requires board.Cross?
    ensures var b := GetRenderedRepresentation(board);
            forall bx :: bx in CloseBoxes(b) ==> Contains(CloseRegion, bx)
  {
    var b := GetRenderedRepresentation(board);
    forall bx | bx in CloseBoxes(b)
      ensures Contains(CloseRegion, bx)
    {
      CloseBoxOfBuiltBoard(board, bx);
    }
  }

  lemma CloseBoxOfBuiltBoard(board: Board, bx: Box)
    requires board.Cross? && bx in CloseBoxes(GetRenderedRepresentation(board))
    ensures Contains(CloseRegion, bx)
  {
    var b := GetRenderedRepresentation(board);
    var ts := Flatten(b);
    assert AreClose(SpinnerBox, bx, CloseDistance);
    var j :| 0 <= j < |ts| && Boxes(ts)[j] == bx;
    var t := ts[j];
    assert t in ts && t.box == bx;
    if t == b.spinner {
    } else if t in b.northArm {
      CloseArmTileOfBuiltBoard(board, North, t);
    } else if t in b.eastArm {
      CloseArmTileOfBuiltBoard(board, East, t);
    } else if t in b.southArm {
      CloseArmTileOfBuiltBoard(board, South, t);
    } else {
      CloseArmTileOfBuiltBoard(board, West, t);
    }
  }

  lemma CloseArmTileOfBuiltBoard(board: Board, dir: Direction, t: BoardDomino)
    requires board.Cross? && IsCardinal(dir)
    requires t in BuildArm(dir, ArmOf(board, dir)) && AreClose(SpinnerBox, t.box, CloseDistance)
    ensures Contains(CloseRegion, t.box)
  {
    var arm := BuildArm(dir, ArmOf(board, dir));
    var i :| 0 <= i < |arm| && arm[i] == t;
    CloseArmTileInRegion(dir, ArmOf(board, dir), i);
  }

  /** On a built board shifted anywhere, the tiles close to the spinner
      span at most 22 squares across and 24 down, so a grid at least that
      large can hold them all. */
  lemma CloseSpanOfBuiltBoard(board: Board, x: real, y: real, w: int, h: int)
    requires board.Cross? && w >= 22 && h >= 24
    ensures SpanFits(CloseBoxes(ShiftRenderedBoard(GetRenderedRepresentation(board), x, y)), w, h)
  {
    var b := GetRenderedRepresentation(board);
    var close := CloseBoxes(b);
    CloseBoxesOfShift(b, x, y);
    if |close| > 0 {
      CloseBoxesOfBuiltBoard(board);
      SpanWithin(close, CloseRegion);
      LimitsOfTranslateAll(close, x, y);
    }
  }

  // ---------------------------------------------------------------------
  // Bending the tiles that leave the grid

  /** Whose doubleness decides the double correction of a bend. The source
      passes the bent tile's (`BentTileRule`); the legacy engine and the
      source's own comment key it to the tile bent around
      (`PivotTileRule`). */
  datatype DoubleRule = BentTileRule | PivotTileRule

  predicate Fits(t: BoardDomino, w: int, h: int) {
    FitsInGrid(t.box, w, h)
  }

  /** bendDominoAroundDomino: reflect a tile around the bend point of
      `pivot` and turn its drawing direction a quarter counter-clockwise. */
  function BendDominoAroundDomino(t: BoardDomino, pivot: BoardDomino, dir: Direction, rule: DoubleRule): (r: BoardDomino)
    requires IsCardinal(dir)
    ensures r.domino == t.domino
    ensures r.direction == RotateCounterClockwise(dir) && RotateClockwise(r.direction) == dir
    ensures Width(r.box) == Height(t.box) && Height(r.box) == Width(t.box)
  {
    RotationsAreInverse(dir);
    var aroundDouble := if rule == BentTileRule then IsDouble(t.domino) else IsDouble(pivot.domino);
    BoardDomino(t.domino, BendAroundPoint(t.box, Pivot(pivot.box, dir), dir, aroundDouble),
                RotateCounterClockwise(dir))
  }

  /** Tile `k` is the first of `arm` outside the grid. */
  predicate IsFirstOutside(arm: seq<BoardDomino>, k: int, w: int, h: int) {
    0 <= k < |arm| && !Fits(arm[k], w, h) && forall i :: 0 <= i < k ==> Fits(arm[i], w, h)
  }

  /** The index of the first tile outside the grid (findIndex), -1 when
      every tile fits. */
  function FirstOutsideIndex(arm: seq<BoardDomino>, w: int, h: int): (r: int)
    ensures -1 <= r < |arm|
    ensures r == -1 <==> forall i :: 0 <= i < |arm| ==> Fits(arm[i], w, h)
    ensures r >= 0 ==> IsFirstOutside(arm, r, w, h)
  {
    if |arm| == 0 then -1
    else if !Fits(arm[0], w, h) then 0
    else
      var k := FirstOutsideIndex(arm[1..], w, h);
      assert forall i :: 1 <= i < |arm| ==> arm[i] == arm[1..][i - 1];
      if k == -1 then -1 else k + 1
  }

  /** getLastDominoInArmWithinGrid: the tile just before the first tile
      that leaves the grid; nothing for an empty arm, an arm whose every
      tile fits, or an arm whose first tile is already outside. */
  function LastDominoInArmWithinGrid(arm: seq<BoardDomino>, w: int, h: int): (r: Option<BoardDomino>)
    ensures r.None? <==> (forall i :: 0 <= i < |arm| ==> Fits(arm[i], w, h)) || !Fits(arm[0], w, h)
    ensures r.Some? ==> exists k :: 0 < k < |arm| && IsFirstOutside(arm, k, w, h) && r == Some(arm[k - 1])
  {
    if |arm| == 0 then None
    else
      var k := FirstOutsideIndex(arm, w, h);
      if k < 1 then None else Some(arm[k - 1])
  }

  /** The result of bending keeps every tile's domino and position in the
      sequence, and leaves every tile that fits exactly where it was. */
  predicate BendsOnlyOutside(before: seq<BoardDomino>, after: seq<BoardDomino>, w: int, h: int) {
    && |after| == |before|
    && forall i :: 0 <= i < |before| ==>
         after[i].domino == before[i].domino && (Fits(before[i], w, h) ==> after[i] == before[i])
  }

  lemma BendsOnlyOutsideConcat(a1: seq<BoardDomino>, b1: seq<BoardDomino>,
                               a2: seq<BoardDomino>, b2: seq<BoardDomino>, w: int, h: int)
    requires BendsOnlyOutside(a1, b1, w, h) && BendsOnlyOutside(a2, b2, w, h)
    ensures BendsOnlyOutside(a1 + a2, b1 + b2, w, h)
  {
    forall i | 0 <= i < |a1 + a2|
      ensures (b1 + b2)[i].domino == (a1 + a2)[i].domino
      ensures Fits((a1 + a2)[i], w, h) ==> (b1 + b2)[i] == (a1 + a2)[i]
    {
      if i >= |a1| {
        assert (a1 + a2)[i] == a2[i - |a1|] && (b1 + b2)[i] == b2[i - |a1|];
      }
    }
  }

  /** bendArmAroundDomino: bend every tile of the arm that is outside the
      grid around the pivot; the source crashes on a missing pivot as soon
      as one tile needs bending. */
  function BendArmAroundDomino(arm: seq<BoardDomino>, pivot: Option<BoardDomino>, dir: Direction,
                               w: int, h: int, rule: DoubleRule): (r: Option<seq<BoardDomino>>)
    requires IsCardinal(dir)
    ensures r.None? <==> pivot.None? && exists i :: 0 <= i < |arm| && !Fits(arm[i], w, h)
    ensures r.Some? ==> BendsOnlyOutside(arm, r.value, w, h)
    ensures r.Some? ==> forall i :: 0 <= i < |arm| && !Fits(arm[i], w, h) ==>
                          r.value[i].direction == RotateCounterClockwise(dir)
  {
    if pivot.None? && exists i :: 0 <= i < |arm| && !Fits(arm[i], w, h) then None
    else
      Some(seq(|arm|, i requires 0 <= i < |arm| =>
                 if Fits(arm[i], w, h) then arm[i]
                 else BendDominoAroundDomino(arm[i], pivot.value, dir, rule)))
  }

  /** An arm can be bent exactly when it is empty or its first tile is
      inside the grid. */
  lemma ArmBendFailsIffFirstTileOutside(arm: seq<BoardDomino>, dir: Direction, w: int, h: int, rule: DoubleRule)
    requires IsCardinal(dir)
    ensures BendArmAroundDomino(arm, LastDominoInArmWithinGrid(arm, w, h), dir, w, h, rule).None?
            <==> |arm| > 0 && !Fits(arm[0], w, h)
  {
  }

  /** The first tile of the open row that fits (find). */
  function FirstFitting(row: seq<BoardDomino>, w: int, h: int): (r: Option<BoardDomino>)
    ensures r.None? <==> forall i :: 0 <= i < |row| ==> !Fits(row[i], w, h)
    ensures r.Some? ==> exists k :: && 0 <= k < |row| && r.value == row[k] && Fits(row[k], w, h)
                                    && forall i :: 0 <= i < k ==> !Fits(row[i], w, h)
  {
    if |row| == 0 then None
    else if Fits(row[0], w, h) then Some(row[0])
    else
      var r := FirstFitting(row[1..], w, h);
      assert forall i :: 1 <= i < |row| ==> row[i] == row[1..][i - 1];
      r
  }

  /** The last tile of the open row that fits (find over the reversed row). */
  function LastFitting(row: seq<BoardDomino>, w: int, h: int): (r: Option<BoardDomino>)
    ensures r.None? <==> forall i :: 0 <= i < |row| ==> !Fits(row[i], w, h)
    ensures r.Some? ==> exists k :: && 0 <= k < |row| && r.value == row[k] && Fits(row[k], w, h)
                                    && forall i :: k < i < |row| ==> !Fits(row[i], w, h)
  {
    if |row| == 0 then None
    else if Fits(row[|row| - 1], w, h) then Some(row[|row| - 1])
    else
      var r := LastFitting(row[..|row| - 1], w, h);
      assert forall i :: 0 <= i < |row| - 1 ==> row[i] == row[..|row| - 1][i];
      r
  }

  /** Whether a tile of the open row sticks out to the west or the east. */
  predicate OutsideHorizontally(t: BoardDomino, w: int) {
    t.box.west < 0.0 || t.box.east > w as real
  }

  /** One tile of the open row: bent WEST around the westmost fitting tile
      when it sticks out to the west, else bent EAST around the eastmost
      fitting tile when it sticks out to the east, else unchanged. */
  function BendRowTile(t: BoardDomino, westPivot: Option<BoardDomino>, eastPivot: Option<BoardDomino>,
                       w: int, rule: DoubleRule): (r: Option<BoardDomino>)
    ensures r.None? <==> (t.box.west < 0.0 && westPivot.None?)
                         || (t.box.west >= 0.0 && t.box.east > w as real && eastPivot.None?)
    ensures r.Some? ==> r.value.domino == t.domino
    ensures r.Some? && !OutsideHorizontally(t, w) ==> r.value == t
  {
    if t.box.west < 0.0 then
      if westPivot.None? then None else Some(BendDominoAroundDomino(t, westPivot.value, West, rule))
    else if t.box.east > w as real then
      if eastPivot.None? then None else Some(BendDominoAroundDomino(t, eastPivot.value, East, rule))
    else Some(t)
  }

  function BendRowTiles(row: seq<BoardDomino>, westPivot: Option<BoardDomino>, eastPivot: Option<BoardDomino>,
                        w: int, rule: DoubleRule): (r: Option<seq<BoardDomino>>)
    ensures r.None? <==> exists i :: 0 <= i < |row| && BendRowTile(row[i], westPivot, eastPivot, w, rule).None?
    ensures r.Some? ==> |r.value| == |row|
    ensures r.Some? ==> forall i :: 0 <= i < |row| ==>
                          Some(r.value[i]) == BendRowTile(row[i], westPivot, eastPivot, w, rule)
  {
    if |row| == 0 then Some([])
    else
      var first := BendRowTile(row[0], westPivot, eastPivot, w, rule);
      var rest := BendRowTiles(row[1..], westPivot, eastPivot, w, rule);
      assert forall i :: 1 <= i < |row| ==> row[i] == row[1..][i - 1];
      if first.None? || rest.None? then None else Some([first.value] + rest.value)
  }

  /** BendDominoesOutsideOfGrid: in an open row, bend the tiles sticking
      out at either end around the outermost tiles that fit; on a spun
      board, bend each arm around the last tile of the arm that fits. A
      missing pivot for a tile that needs one is the source's crash. */
  function BendDominoesOutsideOfGrid(b: RenderedBoard, w: int, h: int, rule: DoubleRule): (r: Option<RenderedBoard>)
    ensures r.Some? ==> (r.value.Open? <==> b.Open?)
    ensures r.Some? ==> BendsOnlyOutside(Flatten(b), Flatten(r.value), w, h)
    ensures r.Some? && b.Spun? ==> r.value.spinner == b.spinner
  {
    if b.Open? then
      var row := b.row;
      var bent := BendRowTiles(row, FirstFitting(row, w, h), LastFitting(row, w, h), w, rule);
      if bent.None? then None else Some(Open(bent.value))
    else
      var sp, n, e, s, west := b.spinner, b.northArm, b.eastArm, b.southArm, b.westArm;
      var n' := BendArmAroundDomino(n, LastDominoInArmWithinGrid(n, w, h), North, w, h, rule);
      var e' := BendArmAroundDomino(e, LastDominoInArmWithinGrid(e, w, h), East, w, h, rule);
      var s' := BendArmAroundDomino(s, LastDominoInArmWithinGrid(s, w, h), South, w, h, rule);
      var w' := BendArmAroundDomino(west, LastDominoInArmWithinGrid(west, w, h), West, w, h, rule);
      if n'.None? || e'.None? || s'.None? || w'.None? then None
      else
        BendsOnlyOutsideConcat([sp], [sp], n, n'.value, w, h);
        BendsOnlyOutsideConcat([sp] + n, [sp] + n'.value, e, e'.value, w, h);
        BendsOnlyOutsideConcat([sp] + n + e, [sp] + n'.value + e'.value, s, s'.value, w, h);
        BendsOnlyOutsideConcat([sp] + n + e + s, [sp] + n'.value + e'.value + s'.value,
                               west, w'.value, w, h);
        Some(Spun(sp, n'.value, e'.value, s'.value, w'.value))
  }

  /** Bending a spun board bends each arm on its own: every arm keeps its
      length and its dominoes, and its fitting tiles. */
  lemma BentArms(b: RenderedBoard, w: int, h: int, rule: DoubleRule, dir: Direction)
    requires b.Spun? && BendDominoesOutsideOfGrid(b, w, h, rule).Some?
    ensures var r := BendDominoesOutsideOfGrid(b, w, h, rule).value;
            r.Spun? && BendsOnlyOutside(RenderedArm(b, dir), RenderedArm(r, dir), w, h)
  {
  }

  /** When the open row is bent, it crashes exactly when some tile sticks
      out horizontally and no tile fits the grid. */
  lemma OpenRowBendFailure(row: seq<BoardDomino>, w: int, h: int, rule: DoubleRule)
    ensures BendDominoesOutsideOfGrid(Open(row), w, h, rule).None? <==>
              (exists i :: 0 <= i < |row| && OutsideHorizontally(row[i], w))
              && forall i :: 0 <= i < |row| ==> !Fits(row[i], w, h)
  {
  }

  /** A spun board crashes in bending exactly when one of its arms starts
      with a tile outside the grid. */
  lemma SpunBendFailure(b: RenderedBoard, w: int, h: int, rule: DoubleRule)
    requires b.Spun?
    ensures BendDominoesOutsideOfGrid(b, w, h, rule).None? <==>
              || (|b.northArm| > 0 && !Fits(b.northArm[0], w, h))
              || (|b.eastArm| > 0 && !Fits(b.eastArm[0], w, h))
              || (|b.southArm| > 0 && !Fits(b.southArm[0], w, h))
              || (|b.westArm| > 0 && !Fits(b.westArm[0], w, h))
  {
    ArmBendFailsIffFirstTileOutside(b.northArm, North, w, h, rule);
    ArmBendFailsIffFirstTileOutside(b.eastArm, East, w, h, rule);
    ArmBendFailsIffFirstTileOutside(b.southArm, South, w, h, rule);
    ArmBendFailsIffFirstTileOutside(b.westArm, West, w, h, rule);
  }

  /** A board whose every tile fits is left exactly as it is. */
  lemma BendKeepsFittingBoard(b: RenderedBoard, w: int, h: int, rule: DoubleRule)
    requires forall t :: t in Flatten(b) ==> Fits(t, w, h)
    ensures BendDominoesOutsideOfGrid(b, w, h, rule) == Some(b)
  {
    if b.Spun? {
      assert forall t :: t in b.northArm ==> t in Flatten(b);
      assert forall t :: t in b.eastArm ==> t in Flatten(b);
      assert forall t :: t in b.southArm ==> t in Flatten(b);
      assert forall t :: t in b.westArm ==> t in Flatten(b);
      ArmKeepsFittingTiles(b.northArm, North, w, h, rule);
      ArmKeepsFittingTiles(b.eastArm, East, w, h, rule);
      ArmKeepsFittingTiles(b.southArm, South, w, h, rule);
      ArmKeepsFittingTiles(b.westArm, West, w, h, rule);
    } else {
      assert Flatten(b) == b.row;
      RowKeepsFittingTiles(b.row, w, h, rule);
    }
  }

  lemma RowKeepsFittingTiles(row: seq<BoardDomino>, w: int, h: int, rule: DoubleRule)
    requires forall t :: t in row ==> Fits(t, w, h)
    ensures BendRowTiles(row, FirstFitting(row, w, h), LastFitting(row, w, h), w, rule) == Some(row)
  {
    var bent := BendRowTiles(row, FirstFitting(row, w, h), LastFitting(row, w, h), w, rule);
    assert forall i :: 0 <= i < |row| ==> row[i] in row;
    assert bent.Some?;
    assert bent.value == row;
  }

  lemma ArmKeepsFittingTiles(arm: seq<BoardDomino>, dir: Direction, w: int, h: int, rule: DoubleRule)
    requires IsCardinal(dir)
    requires forall t :: t in arm ==> Fits(t, w, h)
    ensures BendArmAroundDomino(arm, LastDominoInArmWithinGrid(arm, w, h), dir, w, h, rule) == Some(arm)
  {
    var r := BendArmAroundDomino(arm, LastDominoInArmWithinGrid(arm, w, h), dir, w, h, rule);
    assert forall i :: 0 <= i < |arm| ==> arm[i] in arm;
    assert r.Some? && r.value == arm;
  }

  /** CanPlayVertically on the logical board: a spinner whose east and
      west arms both hold a tile. The answer is the same on the board's
      rendering. */
  function CanPlayVertically(board: Board): (r: bool)
    ensures r <==> CanPlayVerticallyRendered(GetRenderedRepresentation(board))
  {
    board.Cross? && |board.east| > 0 && |board.west| > 0
  }

  /** CanPlayVertically on the rendered board: exactly when the board has
      a spinner and some tile is furthest east and some tile furthest west,
      so that at least three tiles are down. */
  function CanPlayVerticallyRendered(b: RenderedBoard): (r: bool)
    ensures r <==> b.Spun? && (exists t :: IsFurthestEastDomino(b, t) == Some(true))
                           && (exists t :: IsFurthestWestDomino(b, t) == Some(true))
    ensures r ==> |Flatten(b)| >= 3
  {
    if b.Spun? && |b.eastArm| > 0 && |b.westArm| > 0 then
      assert IsFurthestEastDomino(b, b.eastArm[|b.eastArm| - 1]) == Some(true);
      assert IsFurthestWestDomino(b, b.westArm[|b.westArm| - 1]) == Some(true);
      true
    else
      false
  }

  /** Rendering, shifting and bending never change whether the north and
      south arms are open for play. */
  lemma CanPlayVerticallyIsStable(board: Board, x: real, y: real, w: int, h: int, rule: DoubleRule)
    ensures CanPlayVerticallyRendered(GetRenderedRepresentation(board)) <==> CanPlayVertically(board)
    ensures var b := GetRenderedRepresentation(board);
            CanPlayVerticallyRendered(ShiftRenderedBoard(b, x, y)) <==> CanPlayVertically(board)
    ensures var b := GetRenderedRepresentation(board);
            var r := BendDominoesOutsideOfGrid(b, w, h, rule);
            r.Some? ==> (CanPlayVerticallyRendered(r.value) <==> CanPlayVertically(board))
  {
    var b := GetRenderedRepresentation(board);
    var r := BendDominoesOutsideOfGrid(b, w, h, rule);
    if r.Some? && b.Spun? {
      BendKeepsVerticalPlay(b, w, h, rule);
    }
  }

  /** Bending keeps the east and west arms' lengths, hence vertical play. */
  lemma BendKeepsVerticalPlay(b: RenderedBoard, w: int, h: int, rule: DoubleRule)
    requires b.Spun? && BendDominoesOutsideOfGrid(b, w, h, rule).Some?
    ensures CanPlayVerticallyRendered(BendDominoesOutsideOfGrid(b, w, h, rule).value) == CanPlayVerticallyRendered(b)
  {
    BentArms(b, w, h, rule, East);
    BentArms(b, w, h, rule, West);
  }

  /** Tile `k` of the arm towards `dir` of a built board moved by (x, y). */
  function PlacedArmTile(board: Board, dir: Direction, k: nat, x: real, y: real): BoardDomino
    requires board.Cross? && IsCardinal(dir) && k < |ArmOf(board, dir)|
  {
    ShiftTile(ArmTile(dir, ArmOf(board, dir), k), x, y)
  }

  /** The part of a move (x, y) that runs along an arm towards `dir`, and
      the part that runs across it. */
  function Along(dir: Direction, x: real, y: real): real {
    if dir in {North, South} then y else x
  }

  function Across(dir: Direction, x: real, y: real): real {
    if dir in {North, South} then x else y
  }

  lemma PlacedArmTileBox(board: Board, dir: Direction, k: nat, x: real, y: real)
    requires board.Cross? && IsCardinal(dir) && k < |ArmOf(board, dir)|
    ensures var arm := ArmOf(board, dir);
            var along, across := Along(dir, x, y), Across(dir, x, y);
            PlacedArmTile(board, dir, k, x, y).box
              == ArmBox(dir, IsDouble(arm[k]), NearEdge(dir, arm, k) + along, across)
  {
    ArmTileIsArmBox(dir, ArmOf(board, dir), k);
    ArmBoxTranslate(dir, IsDouble(ArmOf(board, dir)[k]), NearEdge(dir, ArmOf(board, dir), k), 0.0, x, y);
  }

  lemma PlacedNeighbours(board: Board, dir: Direction, k: nat, x: real, y: real)
    requires board.Cross? && IsCardinal(dir) && 0 < k < |ArmOf(board, dir)|
    ensures var arm := ArmOf(board, dir);
            var along, across := Along(dir, x, y), Across(dir, x, y);
            var near := NearEdge(dir, arm, k - 1) + along;
            && PlacedArmTile(board, dir, k - 1, x, y).box == ArmBox(dir, IsDouble(arm[k - 1]), near, across)
            && PlacedArmTile(board, dir, k, x, y).box
               == ArmBox(dir, IsDouble(arm[k]), FarEdge(dir, IsDouble(arm[k - 1]), near), across)
  {
    var j := k - 1;
    PlacedArmTileBox(board, dir, j, x, y);
    PlacedArmTileBox(board, dir, k, x, y);
    NearEdgeStep(dir, ArmOf(board, dir), j, k);
  }

  /** Along an arm, each tile starts where the one before it ends. */
  lemma NearEdgeStep(dir: Direction, arm: seq<Domino>, j: nat, k: nat)
    requires k == j + 1 && k <= |arm|
    ensures NearEdge(dir, arm, k) == FarEdge(dir, IsDouble(arm[j]), NearEdge(dir, arm, j))
  {
    LengthDisplacementStep(arm, j);
  }

  /** Keyed to the tile bent around, the double correction puts the first
      bent tile of an arm flush against its pivot, a quarter turn clockwise
      from the arm's direction, wherever the board has been moved and
      whichever of the two tiles are doubles. */
  lemma PivotRuleBendAbutsPivot(board: Board, dir: Direction, k: nat, x: real, y: real)
    requires board.Cross? && IsCardinal(dir) && 0 < k < |ArmOf(board, dir)|
    ensures var pivot := PlacedArmTile(board, dir, k - 1, x, y);
            var bent := BendDominoAroundDomino(PlacedArmTile(board, dir, k, x, y), pivot, dir, PivotTileRule);
            Abuts(pivot.box, bent.box, RotateClockwise(dir))
  {
    var arm := ArmOf(board, dir);
    var along, across := Along(dir, x, y), Across(dir, x, y);
    PlacedNeighbours(board, dir, k, x, y);
    BendAroundPivotAbuts(dir, IsDouble(arm[k - 1]), IsDouble(arm[k]), NearEdge(dir, arm, k - 1) + along, across);
  }

  /** The same bend as the source writes it, keyed to the bent tile: in an
      east arm holding a non-double and then a double, the bent double
      lands two squares below its pivot instead of on it. */
  lemma BentTileRuleLeavesGap(x: real, y: real)
    ensures var board := Cross(Domino(6, 6), [], [Domino(6, 1), Domino(1, 1)], [], []);
            var pivot := PlacedArmTile(board, East, 0, x, y);
            var bent := BendDominoAroundDomino(PlacedArmTile(board, East, 1, x, y), pivot, East, BentTileRule);
            !Abuts(pivot.box, bent.box, South) && bent.box.north == pivot.box.south + 2.0
  {
    var board := Cross(Domino(6, 6), [], [Domino(6, 1), Domino(1, 1)], [], []);
    PlacedNeighbours(board, East, 1, x, y);
    assert NearEdge(East, board.east, 0) == 1.0 by {
      assert board.east[..0] == [];
    }
    BendAroundBentTileSeparates(1.0 + x, y);
  }
}
