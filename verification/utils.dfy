/** The compass directions of the board, their rotations, and the
    null-or-undefined test of src/utils/utils.ts. */
module Utils {

  /** The board's compass directions; `NoDirection` is the enum's NONE. */
  datatype Direction = North | East | South | West | NoDirection

  predicate IsCardinal(d: Direction) {
    d != NoDirection
  }

  /** rotateDirectionClockwise: NORTH, EAST and SOUTH move one quarter turn
      clockwise; every other input, WEST and NONE included, falls through
      to NORTH. Both copies of the helper in the source are this function. */
  function RotateClockwise(d: Direction): (r: Direction)
    ensures IsCardinal(r)
  {
    match d
    case North => East
    case East => South
    case South => West
    case _ => North
  }

  /** The counter-clockwise rotation used by the bending code: the inverse
      of `RotateClockwise` on the four cardinal directions. */
  function RotateCounterClockwise(d: Direction): (r: Direction)
    ensures IsCardinal(d) <==> IsCardinal(r)
    ensures IsCardinal(d) ==> r != d && RotateClockwise(r) == d
  {
    match d
    case North => West
    case East => North
    case South => East
    case West => South
    case NoDirection => NoDirection
  }

  /** The two rotations undo each other on the cardinal directions. */
  lemma RotationsAreInverse(d: Direction)
    requires IsCardinal(d)
    ensures RotateCounterClockwise(RotateClockwise(d)) == d
    ensures RotateClockwise(RotateCounterClockwise(d)) == d
  {
  }

  /** The direction on the other side of the board. */
  function Opposite(d: Direction): Direction {
    RotateClockwise(RotateClockwise(d))
  }

  /** Four clockwise quarter turns bring every cardinal direction back to
      itself, and the clockwise rotation visits all four directions. */
  lemma RotateClockwiseCycle(d: Direction)
    requires IsCardinal(d)
    ensures RotateClockwise(RotateClockwise(RotateClockwise(RotateClockwise(d)))) == d
    ensures {RotateClockwise(d), RotateClockwise(RotateClockwise(d)),
             RotateClockwise(RotateClockwise(RotateClockwise(d))),
             RotateClockwise(RotateClockwise(RotateClockwise(RotateClockwise(d))))}
            == {North, East, South, West}
  {
  }

  /** Every input that is not NORTH, EAST or SOUTH maps to NORTH; so WEST
      and NONE are the only two inputs with the same image. */
  lemma RotateClockwiseFallThrough(d: Direction)
    ensures d !in {North, East, South} <==> RotateClockwise(d) == North
    ensures RotateClockwise(d) == RotateClockwise(NoDirection) <==> d in {West, NoDirection}
  {
  }

  /** A JavaScript value that may be `null` or `undefined`. */
  datatype JsValue<+T> = Null | Undefined | Defined(value: T)

  /** isNullOrUndefined holds exactly when no value is present. */
  function IsNullOrUndefined<T>(v: JsValue<T>): (r: bool)
    ensures r <==> !v.Defined?
  {
    v.Null? || v.Undefined?
  }
}
