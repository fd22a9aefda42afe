/** Bounding boxes in grid-square units and the operations both layout
    engines perform on them: translation, containment in the grid,
    closeness, and bending (reflecting a box around a pivot point). */
module Geometry {
  import opened Utils

  /** A tile's footprint. Coordinates grow eastward (x) and southward (y). */
  datatype Box = Box(north: real, east: real, south: real, west: real)

  datatype Point = Point(x: real, y: real)

  function Width(b: Box): real {
    b.east - b.west
  }

  function Height(b: Box): real {
    b.south - b.north
  }

  /** translateBoundingBox / shiftBoundingBox: move a box by (x, y). */
  function Translate(b: Box, x: real, y: real): (r: Box)
    ensures Width(r) == Width(b) && Height(r) == Height(b)
    ensures r.west - b.west == x && r.north - b.north == y
  {
    Box(b.north + y, b.east + x, b.south + y, b.west + x)
  }

  /** Translating by nothing changes nothing, and two translations are one
      translation by the sum. */
  lemma TranslateIdentityAndCompose(b: Box, x1: real, y1: real, x2: real, y2: real)
    ensures Translate(b, 0.0, 0.0) == b
    ensures Translate(Translate(b, x1, y1), x2, y2) == Translate(b, x1 + x2, y1 + y2)
  {
  }

  /** boundingBoxFitsInGrid. */
  predicate FitsInGrid(b: Box, w: int, h: int) {
    b.north >= 0.0 && b.west >= 0.0 && b.east <= w as real && b.south <= h as real
  }

  /** Box containment, stated independently of the grid test. */
  predicate Contains(outer: Box, inner: Box) {
    && outer.north <= inner.north && inner.south <= outer.south
    && outer.west <= inner.west && inner.east <= outer.east
  }

  /** The grid as a box with its top-left corner at (0, 0). */
  function GridBox(w: int, h: int): Box {
    Box(0.0, w as real, h as real, 0.0)
  }

  /** A box fits in the grid exactly when the grid's own box contains it;
      a box that does not fit fails one of the four side tests, which is
      why the legacy engine's "Invalid bend attempted" branch is dead. */
  lemma FitsInGridIsContainment(b: Box, w: int, h: int)
    ensures FitsInGrid(b, w, h) <==> Contains(GridBox(w, h), b)
    ensures !FitsInGrid(b, w, h) <==>
              (b.north < 0.0 || b.east > w as real || b.south > h as real || b.west < 0.0)
  {
  }

  /** boundingBoxesAreClose: some side of `b1` faces the opposite side of
      `b2` at a gap of at most `distance`. */
  predicate AreClose(b1: Box, b2: Box, distance: real) {
    || (b1.north >= b2.south && b1.north - distance <= b2.south)
    || (b1.south <= b2.north && b1.south + distance >= b2.north)
    || (b1.west >= b2.east && b1.west - distance <= b2.east)
    || (b1.east <= b2.west && b1.east + distance >= b2.west)
  }

  /** Closeness does not depend on the order of the two boxes, a box with
      positive extent is not close to itself, and moving both boxes by the
      same amount keeps them exactly as close as before. */
  lemma AreCloseProperties(b1: Box, b2: Box, distance: real, x: real, y: real)
    ensures AreClose(b1, b2, distance) <==> AreClose(b2, b1, distance)
    ensures b1.north < b1.south && b1.west < b1.east ==> !AreClose(b1, b1, distance)
    ensures AreClose(Translate(b1, x, y), Translate(b2, x, y), distance) <==> AreClose(b1, b2, distance)
  {
  }

  /** getCoordinatesToBendAround: the point an arm is bent around, taken
      from the last tile of the arm that still fits. */
  function Pivot(b: Box, dir: Direction): Point {
    match dir
    case North => Point(b.west, b.north + 2.0)
    case East => Point(b.east - 2.0, b.north)
    case South => Point(b.east, b.south - 2.0)
    case _ => Point(b.west + 2.0, b.south)
  }

  /** bendBoundingBoxAroundPoint: reflect `b` across the diagonal through
      `p` (the anti-diagonal for NORTH and SOUTH), then shift it by the
      empirical correction for doubles when `aroundDouble` holds. */
  function BendAroundPoint(b: Box, p: Point, dir: Direction, aroundDouble: bool): (r: Box)
    requires IsCardinal(dir)
    ensures Width(r) == Height(b) && Height(r) == Width(b)
  {
    var parallel := if aroundDouble then -1.0 else 0.0;
    var perpendicular := if aroundDouble then 2.0 else 0.0;
    var x, y := p.x, p.y;
    match dir
    case North =>
      Box(y - (b.east - x) - parallel, x - (b.north - y) + perpendicular,
          y - (b.west - x) - parallel, x - (b.south - y) + perpendicular)
    case South =>
      Box(y - (b.east - x) + parallel, x - (b.north - y) - perpendicular,
          y - (b.west - x) + parallel, x - (b.south - y) - perpendicular)
    case East =>
      Box(y + (b.west - x) + perpendicular, x + (b.south - y) + parallel,
          y + (b.east - x) + perpendicular, x + (b.north - y) + parallel)
    case West =>
      Box(y + (b.west - x) - perpendicular, x + (b.south - y) - parallel,
          y + (b.east - x) - perpendicular, x + (b.north - y) - parallel)
  }

  /** The displacement the double correction adds, per bend direction. */
  function DoubleCorrection(dir: Direction): Point {
    match dir
    case North => Point(2.0, 1.0)
    case South => Point(-2.0, -1.0)
    case East => Point(-1.0, 2.0)
    case _ => Point(1.0, -2.0)
  }

  /** Bending is a reflection: without the double correction, bending twice
      around the same point restores the box, and the correction is a pure
      translation of the reflected box. */
  lemma BendIsReflection(b: Box, p: Point, dir: Direction)
    requires IsCardinal(dir)
    ensures BendAroundPoint(BendAroundPoint(b, p, dir, false), p, dir, false) == b
    ensures BendAroundPoint(b, p, dir, true)
            == Translate(BendAroundPoint(b, p, dir, false), DoubleCorrection(dir).x, DoubleCorrection(dir).y)
  {
  }

  /** Reflection turns a move along one axis into a move along the other:
      a tile further out along the arm lands further out along the bent
      part of the arm. */
  lemma BendTurnsTranslation(b: Box, p: Point, dir: Direction, aroundDouble: bool, dx: real, dy: real)
    requires IsCardinal(dir)
    ensures var s := if dir == North || dir == South then -1.0 else 1.0;
            BendAroundPoint(Translate(b, dx, dy), p, dir, aroundDouble)
            == Translate(BendAroundPoint(b, p, dir, aroundDouble), s * dy, s * dx)
  {
  }

  // ---------------------------------------------------------------------
  // Tiles laid along an arm

  /** Length of a tile along its arm: a double lies across the arm. */
  function TileLength(double: bool): real {
    if double then 2.0 else 4.0
  }

  /** Half of a tile's extent across its arm. */
  function HalfBreadth(double: bool): real {
    if double then 2.0 else 1.0
  }

  /** The box of a tile in an arm running towards `dir`, whose edge nearer
      the spinner is at `near` and whose middle line is at `center`. */
  function ArmBox(dir: Direction, double: bool, near: real, center: real): (r: Box)
    requires IsCardinal(dir)
    ensures dir in {North, South} ==> Height(r) == TileLength(double) && Width(r) == 2.0 * HalfBreadth(double)
    ensures dir in {East, West} ==> Width(r) == TileLength(double) && Height(r) == 2.0 * HalfBreadth(double)
  {
    var len, hb := TileLength(double), HalfBreadth(double);
    match dir
    case North => Box(near - len, center + hb, near, center - hb)
    case East => Box(center - hb, near + len, center + hb, near)
    case South => Box(near, center + hb, near + len, center - hb)
    case West => Box(center - hb, near, center + hb, near - len)
  }

  /** Where the next tile of the arm starts. */
  function FarEdge(dir: Direction, double: bool, near: real): real {
    if dir == North || dir == West then near - TileLength(double) else near + TileLength(double)
  }

  /** `b` sits directly on the `side` of `a`: they share a stretch of edge of
      positive length and do not overlap. */
  predicate Abuts(a: Box, b: Box, side: Direction) {
    match side
    case North => b.south == a.north && b.west < a.east && a.west < b.east
    case East => b.west == a.east && b.north < a.south && a.north < b.south
    case South => b.north == a.south && b.west < a.east && a.west < b.east
    case West => b.east == a.west && b.north < a.south && a.north < b.south
    case NoDirection => false
  }

  /** Consecutive tiles of an arm abut each other along the arm. */
  lemma ArmTilesAbut(dir: Direction, d1: bool, d2: bool, near: real, center: real)
    requires IsCardinal(dir)
    ensures Abuts(ArmBox(dir, d1, near, center), ArmBox(dir, d2, FarEdge(dir, d1, near), center), dir)
  {
  }

  /** With the double correction keyed to the PIVOT tile (as the legacy
      engine does and as the comment in the current engine describes), the
      first bent tile sits directly against the pivot, a quarter turn
      clockwise from the arm's direction, whatever mix of doubles and
      non-doubles the two tiles are. */
  lemma BendAroundPivotAbuts(dir: Direction, pivotDouble: bool, tileDouble: bool, near: real, center: real)
    requires IsCardinal(dir)
    ensures var pivot := ArmBox(dir, pivotDouble, near, center);
            var tile := ArmBox(dir, tileDouble, FarEdge(dir, pivotDouble, near), center);
            Abuts(pivot, BendAroundPoint(tile, Pivot(pivot, dir), dir, pivotDouble), RotateClockwise(dir))
  {
  }

  /** With the correction keyed to the BENT tile, as the current engine
      passes it, a double bent around a non-double pivot in an east arm
      leaves a gap of two squares below the pivot, and a non-double bent
      around a double pivot overlaps it. */
  lemma BendAroundBentTileSeparates(near: real, center: real)
    ensures var pivot := ArmBox(East, false, near, center);
            var tile := ArmBox(East, true, FarEdge(East, false, near), center);
            var bent := BendAroundPoint(tile, Pivot(pivot, East), East, true);
            !Abuts(pivot, bent, South) && bent.north == pivot.south + 2.0
    ensures var pivot := ArmBox(East, true, near, center);
            var tile := ArmBox(East, false, FarEdge(East, true, near), center);
            var bent := BendAroundPoint(tile, Pivot(pivot, East), East, false);
            !Abuts(pivot, bent, South) && bent.north < pivot.south && bent.west < pivot.east
  {
  }

  // ---------------------------------------------------------------------
  // Extremes of a collection of boxes (Math.min / Math.max over a side)

  function Min(a: real, b: real): real {
    if a <= b then a else b
  }

  function Max(a: real, b: real): real {
    if a >= b then a else b
  }

  /** The smallest north side: the board's north boundary. */
  function NorthLimit(bs: seq<Box>): (r: real)
    requires |bs| > 0
    ensures forall i :: 0 <= i < |bs| ==> r <= bs[i].north
    ensures exists i :: 0 <= i < |bs| && r == bs[i].north
  {
    if |bs| == 1 then bs[0].north else Min(bs[0].north, NorthLimit(bs[1..]))
  }

  /** The largest east side: the board's east boundary. */
  function EastLimit(bs: seq<Box>): (r: real)
    requires |bs| > 0
    ensures forall i :: 0 <= i < |bs| ==> bs[i].east <= r
    ensures exists i :: 0 <= i < |bs| && r == bs[i].east
  {
    if |bs| == 1 then bs[0].east else Max(bs[0].east, EastLimit(bs[1..]))
  }

  /** The largest south side: the board's south boundary. */
  function SouthLimit(bs: seq<Box>): (r: real)
    requires |bs| > 0
    ensures forall i :: 0 <= i < |bs| ==> bs[i].south <= r
    ensures exists i :: 0 <= i < |bs| && r == bs[i].south
  {
    if |bs| == 1 then bs[0].south else Max(bs[0].south, SouthLimit(bs[1..]))
  }

  /** The smallest west side: the board's west boundary. */
  function WestLimit(bs: seq<Box>): (r: real)
    requires |bs| > 0
    ensures forall i :: 0 <= i < |bs| ==> r <= bs[i].west
    ensures exists i :: 0 <= i < |bs| && r == bs[i].west
  {
    if |bs| == 1 then bs[0].west else Min(bs[0].west, WestLimit(bs[1..]))
  }

  /** Every box moved by the same amount. */
  function TranslateAll(bs: seq<Box>, x: real, y: real): (r: seq<Box>)
    ensures |r| == |bs|
    ensures forall i :: 0 <= i < |bs| ==> r[i] == Translate(bs[i], x, y)
  {
    seq(|bs|, i requires 0 <= i < |bs| => Translate(bs[i], x, y))
  }

  /** The extremes of translated boxes are the translated extremes. */
  lemma LimitsOfTranslateAll(bs: seq<Box>, x: real, y: real)
    requires |bs| > 0
    ensures NorthLimit(TranslateAll(bs, x, y)) == NorthLimit(bs) + y
    ensures SouthLimit(TranslateAll(bs, x, y)) == SouthLimit(bs) + y
    ensures EastLimit(TranslateAll(bs, x, y)) == EastLimit(bs) + x
    ensures WestLimit(TranslateAll(bs, x, y)) == WestLimit(bs) + x
  {
    var ts := TranslateAll(bs, x, y);
    NorthLimitOfTranslated(bs, ts, y);
    SouthLimitOfTranslated(bs, ts, y);
    EastLimitOfTranslated(bs, ts, x);
    WestLimitOfTranslated(bs, ts, x);
  }

  lemma NorthLimitOfTranslated(bs: seq<Box>, ts: seq<Box>, y: real)
    requires |bs| > 0 && |ts| == |bs|
    requires forall i :: 0 <= i < |bs| ==> ts[i].north == bs[i].north + y
    ensures NorthLimit(ts) == NorthLimit(bs) + y
  {
    var n :| 0 <= n < |bs| && NorthLimit(bs) == bs[n].north;
    var m :| 0 <= m < |ts| && NorthLimit(ts) == ts[m].north;
    assert NorthLimit(ts) <= ts[n].north;
    assert NorthLimit(bs) <= bs[m].north;
  }

  lemma SouthLimitOfTranslated(bs: seq<Box>, ts: seq<Box>, y: real)
    requires |bs| > 0 && |ts| == |bs|
    requires forall i :: 0 <= i < |bs| ==> ts[i].south == bs[i].south + y
    ensures SouthLimit(ts) == SouthLimit(bs) + y
  {
    var n :| 0 <= n < |bs| && SouthLimit(bs) == bs[n].south;
    var m :| 0 <= m < |ts| && SouthLimit(ts) == ts[m].south;
    assert SouthLimit(ts) >= ts[n].south;
    assert SouthLimit(bs) >= bs[m].south;
  }

  lemma EastLimitOfTranslated(bs: seq<Box>, ts: seq<Box>, x: real)
    requires |bs| > 0 && |ts| == |bs|
    requires forall i :: 0 <= i < |bs| ==> ts[i].east == bs[i].east + x
    ensures EastLimit(ts) == EastLimit(bs) + x
  {
    var n :| 0 <= n < |bs| && EastLimit(bs) == bs[n].east;
    var m :| 0 <= m < |ts| && EastLimit(ts) == ts[m].east;
    assert EastLimit(ts) >= ts[n].east;
    assert EastLimit(bs) >= bs[m].east;
  }

  lemma WestLimitOfTranslated(bs: seq<Box>, ts: seq<Box>, x: real)
    requires |bs| > 0 && |ts| == |bs|
    requires forall i :: 0 <= i < |bs| ==> ts[i].west == bs[i].west + x
    ensures WestLimit(ts) == WestLimit(bs) + x
  {
    var n :| 0 <= n < |bs| && WestLimit(bs) == bs[n].west;
    var m :| 0 <= m < |ts| && WestLimit(ts) == ts[m].west;
    assert WestLimit(ts) <= ts[n].west;
    assert WestLimit(bs) <= bs[m].west;
  }

  predicate AllFit(bs: seq<Box>, w: int, h: int) {
    forall i :: 0 <= i < |bs| ==> FitsInGrid(bs[i], w, h)
  }

  /** The boxes' overall extent is no larger than the grid (vacuously so
      for no boxes: the source's Math.max of nothing is -Infinity). */
  predicate SpanFits(bs: seq<Box>, w: int, h: int) {
    |bs| == 0 ||
    (EastLimit(bs) - WestLimit(bs) <= w as real && SouthLimit(bs) - NorthLimit(bs) <= h as real)
  }

  /** The one-axis correction used by both clamps: push the low side back
      to 0 if it is negative, otherwise pull the high side back to `size`
      if it overflows, otherwise do nothing. */
  function ClampShift(low: real, high: real, size: int): (r: real)
    ensures high - low <= size as real ==> 0.0 <= low + r && high + r <= size as real
    ensures 0.0 <= low && high <= size as real ==> r == 0.0
  {
    if low < 0.0 then -low
    else if high > size as real then size as real - high
    else 0.0
  }

  /** Boxes whose overall extent fits the grid all fit once the clamp has
      moved them. */
  lemma ClampedBoxesFit(bs: seq<Box>, w: int, h: int)
    requires |bs| > 0 && SpanFits(bs, w, h)
    ensures AllFit(TranslateAll(bs, ClampShift(WestLimit(bs), EastLimit(bs), w),
                                ClampShift(NorthLimit(bs), SouthLimit(bs), h)), w, h)
  {
  }

  /** Boxes that all lie inside one region span no more than the region. */
  lemma SpanWithin(bs: seq<Box>, region: Box)
    requires |bs| > 0
    requires forall i :: 0 <= i < |bs| ==> Contains(region, bs[i])
    ensures EastLimit(bs) - WestLimit(bs) <= region.east - region.west
    ensures SouthLimit(bs) - NorthLimit(bs) <= region.south - region.north
  {
    var n :| 0 <= n < |bs| && NorthLimit(bs) == bs[n].north;
    var e :| 0 <= e < |bs| && EastLimit(bs) == bs[e].east;
    var s :| 0 <= s < |bs| && SouthLimit(bs) == bs[s].south;
    var w :| 0 <= w < |bs| && WestLimit(bs) == bs[w].west;
    assert Contains(region, bs[n]) && Contains(region, bs[e]);
    assert Contains(region, bs[s]) && Contains(region, bs[w]);
  }

  lemma TranslateAllCons(b: Box, bs: seq<Box>, x: real, y: real)
    ensures TranslateAll([b] + bs, x, y) == [Translate(b, x, y)] + TranslateAll(bs, x, y)
  {
    assert forall i :: 0 <= i < |bs| + 1 ==>
      TranslateAll([b] + bs, x, y)[i] == ([Translate(b, x, y)] + TranslateAll(bs, x, y))[i];
  }

  /** Moving an arm box moves its near edge along the arm and its middle
      line across it. */
  lemma ArmBoxTranslate(dir: Direction, double: bool, near: real, center: real, x: real, y: real)
    requires IsCardinal(dir)
    ensures dir in {North, South} ==>
              Translate(ArmBox(dir, double, near, center), x, y) == ArmBox(dir, double, near + y, center + x)
    ensures dir in {East, West} ==>
              Translate(ArmBox(dir, double, near, center), x, y) == ArmBox(dir, double, near + x, center + y)
  {
  }

  /** Bending two boxes around the same point with the same correction
      keeps them flush: a box that sat on the `dir` side of another sits on
      the side a quarter turn clockwise from it afterwards. */
  lemma BendPreservesAbutting(a: Box, b: Box, p: Point, dir: Direction, aroundDouble: bool)
    requires IsCardinal(dir) && Abuts(a, b, dir)
    ensures Abuts(BendAroundPoint(a, p, dir, aroundDouble), BendAroundPoint(b, p, dir, aroundDouble), RotateClockwise(dir))
  {
  }

  /** Boxes that share an edge are close at any distance. */
  lemma AbuttingBoxesAreClose(a: Box, b: Box, side: Direction, distance: real)
    requires Abuts(a, b, side) && distance >= 0.0
    ensures AreClose(a, b, distance)
  {
  }

  lemma AllFitMember(bs: seq<Box>, b: Box, w: int, h: int)
    requires AllFit(bs, w, h) && b in bs
    ensures FitsInGrid(b, w, h)
  {
    var i :| 0 <= i < |bs| && bs[i] == b;
  }
}
