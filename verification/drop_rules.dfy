/** Which placed tile lights up as a drop target while a domino is being
    dragged (isDroppable in src/games/dominoes/view/game/BoardView.tsx). */
module DropRules {
  import opened Wrappers
  import opened Utils
  import opened Dominoes
  import opened RenderedBoards

  /** The last tile of the arm of a spun board that runs towards `dir`. */
  function ArmEnd(b: RenderedBoard, dir: Direction): BoardDomino
    requires b.Spun? && |RenderedArm(b, dir)| > 0
  {
    RenderedArm(b, dir)[|RenderedArm(b, dir)| - 1]
  }

  /** The drop rule's IsFurthestDominoInArm, whose body lies outside this
      model, read by position: the arm towards `dir` is not empty and ends
      in the tile's domino. This is the reading under which the caller's
      `_.last(arm).domino` that follows it never meets an empty arm. On the
      four cardinal directions it answers as the board's own
      IsFurthestNorthDomino and its siblings do. */
  function IsFurthestInArm(b: RenderedBoard, t: BoardDomino, dir: Direction): (r: bool)
    requires b.Spun?
    ensures r ==> IsCardinal(dir)
    ensures dir == North ==> r == IsFurthestNorthDomino(b, t)
    ensures dir == South ==> r == IsFurthestSouthDomino(b, t)
    ensures dir == East ==> Some(r) == IsFurthestEastDomino(b, t)
    ensures dir == West ==> Some(r) == IsFurthestWestDomino(b, t)
  {
    |RenderedArm(b, dir)| > 0 && SameDomino(t, ArmEnd(b, dir))
  }

  /** The drop rule's IsFurthestDominoInInitialRow towards EAST, whose body
      lies outside this model, read by position: the last tile of a
      non-empty open row. It is the board's IsFurthestEastDomino, with an
      empty row (where that throws) never counting. */
  function IsEastEndOfRow(b: RenderedBoard, t: BoardDomino): (r: bool)
    requires b.Open?
    ensures r ==> |b.row| > 0
    ensures |b.row| > 0 ==> IsFurthestEastDomino(b, t) == Some(r)
  {
    |b.row| > 0 && SameDomino(t, b.row[|b.row| - 1])
  }

  /** The same towards WEST: the first tile of a non-empty open row. */
  function IsWestEndOfRow(b: RenderedBoard, t: BoardDomino): (r: bool)
    requires b.Open?
    ensures r ==> |b.row| > 0
    ensures |b.row| > 0 ==> IsFurthestWestDomino(b, t) == Some(r)
  {
    |b.row| > 0 && SameDomino(t, b.row[0])
  }

  /** isDroppable: whether `dropped` may be dropped on the placed tile `t`.
      A missing dragged domino or a missing tile is never a target. On the
      spinner the dragged piece must carry the spinner's head and some arm
      must still be open; on any other tile of a spun board it must match
      the tail of an arm it ends (north and south only while vertical play
      is allowed); on an open row it must match the tail of the last tile
      or the head of the first. */
  function IsDroppable(b: RenderedBoard, t: Option<BoardDomino>, dropped: Option<Domino>): (r: bool)
    ensures dropped.None? || t.None? ==> !r
    ensures r && b.Spun? && t.value.domino != b.spinner.domino ==>
              exists dir :: IsFurthestInArm(b, t.value, dir)
    ensures r && b.Open? ==> IsEastEndOfRow(b, t.value) || IsWestEndOfRow(b, t.value)
  {
    if dropped.None? then false
    else if t.None? then false
    else
      var tile, d := t.value, dropped.value;
      if b.Spun? then
        if Equals(tile.domino, b.spinner.domino) then
          if HasFace(d, b.spinner.domino.head) then
            if |b.eastArm| == 0 then true
            else if |b.westArm| == 0 then true
            else if CanPlayVerticallyRendered(b) then
              if |b.northArm| == 0 then true
              else if |b.southArm| == 0 then true
              else false
            else false
          else false
        else
          if IsFurthestInArm(b, tile, East) && HasFace(d, ArmEnd(b, East).domino.tail) then true
          else if IsFurthestInArm(b, tile, West) && HasFace(d, ArmEnd(b, West).domino.tail) then true
          else if CanPlayVerticallyRendered(b) && IsFurthestInArm(b, tile, North)
                  && HasFace(d, ArmEnd(b, North).domino.tail) then true
          else if CanPlayVerticallyRendered(b) && IsFurthestInArm(b, tile, South)
                  && HasFace(d, ArmEnd(b, South).domino.tail) then true
          else false
      else
        if IsEastEndOfRow(b, tile) && HasFace(d, b.row[|b.row| - 1].domino.tail) then true
        else if IsWestEndOfRow(b, tile) && HasFace(d, b.row[0].domino.head) then true
        else false
  }

  // ---------------------------------------------------------------------
  // An independent description of the drop targets

  /** The arms a new tile may extend: east and west always, north and south
      once vertical play is allowed. */
  function PlayableArms(b: RenderedBoard): (r: set<Direction>)
    requires b.Spun?
    ensures r <= {North, East, South, West}
    ensures East in r && West in r
  {
    {East, West} + (if CanPlayVerticallyRendered(b) then {North, South} else {})
  }

  /** The playable arms that are still empty: a tile played there would
      touch the spinner itself. */
  function EmptyPlayableArms(b: RenderedBoard): (r: set<Direction>)
    requires b.Spun?
    ensures r <= PlayableArms(b)
  {
    set dir | dir in PlayableArms(b) && |RenderedArm(b, dir)| == 0
  }

  /** The spinner is a target exactly for a piece that carries the
      spinner's head while an arm is still empty. Because north and south
      only open once east and west both hold a tile, this is the same as
      any of the four arms being empty. */
  lemma SpinnerDropRule(b: RenderedBoard, t: BoardDomino, d: Domino)
    requires b.Spun? && t.domino == b.spinner.domino
    ensures IsDroppable(b, Some(t), Some(d)) <==>
              HasFace(d, b.spinner.domino.head) && EmptyPlayableArms(b) != {}
    ensures IsDroppable(b, Some(t), Some(d)) <==>
              && HasFace(d, b.spinner.domino.head)
              && (|b.northArm| == 0 || |b.eastArm| == 0 || |b.southArm| == 0 || |b.westArm| == 0)
  {
    if HasFace(d, b.spinner.domino.head) {
      if |b.eastArm| == 0 {
        assert East in EmptyPlayableArms(b);
      } else if |b.westArm| == 0 {
        assert West in EmptyPlayableArms(b);
      } else if |b.northArm| == 0 {
        assert North in EmptyPlayableArms(b);
      } else if |b.southArm| == 0 {
        assert South in EmptyPlayableArms(b);
      } else {
        assert forall dir :: dir in PlayableArms(b) ==> |RenderedArm(b, dir)| > 0;
      }
    }
  }

  /** Any other tile of a spun board is a target exactly when it ends a
      playable arm and the piece carries that arm's open tail. */
  lemma ArmEndDropRule(b: RenderedBoard, t: BoardDomino, d: Domino)
    requires b.Spun? && t.domino != b.spinner.domino
    ensures IsDroppable(b, Some(t), Some(d)) <==>
              exists dir :: dir in PlayableArms(b) && IsFurthestInArm(b, t, dir)
                            && HasFace(d, ArmEnd(b, dir).domino.tail)
  {
    var r := IsDroppable(b, Some(t), Some(d));
    if r {
      if IsFurthestInArm(b, t, East) && HasFace(d, ArmEnd(b, East).domino.tail) {
        assert East in PlayableArms(b);
      } else if IsFurthestInArm(b, t, West) && HasFace(d, ArmEnd(b, West).domino.tail) {
        assert West in PlayableArms(b);
      } else if CanPlayVerticallyRendered(b) && IsFurthestInArm(b, t, North)
                && HasFace(d, ArmEnd(b, North).domino.tail) {
        assert North in PlayableArms(b);
      } else {
        assert South in PlayableArms(b);
      }
    } else {
      forall dir | dir in PlayableArms(b)
        ensures !(IsFurthestInArm(b, t, dir) && HasFace(d, ArmEnd(b, dir).domino.tail))
      {
      }
    }
  }

  /** On an open row the two ends are the targets: the last tile for a
      piece carrying its tail, the first tile for one carrying its head. */
  lemma RowEndDropRule(b: RenderedBoard, t: BoardDomino, d: Domino)
    requires b.Open?
    ensures IsDroppable(b, Some(t), Some(d)) <==>
              && |b.row| > 0
              && (|| (t.domino == b.row[|b.row| - 1].domino && HasFace(d, t.domino.tail))
                  || (t.domino == b.row[0].domino && HasFace(d, t.domino.head)))
  {
  }

  /** A piece can only be dropped on a tile it shares a number with. */
  lemma DropNeedsSharedFace(b: RenderedBoard, t: BoardDomino, d: Domino)
    requires IsDroppable(b, Some(t), Some(d))
    ensures exists n :: HasFace(t.domino, n) && HasFace(d, n)
  {
    if b.Spun? && t.domino == b.spinner.domino {
      SpinnerDropRule(b, t, d);
      assert HasFace(t.domino, b.spinner.domino.head);
    } else if b.Spun? {
      ArmEndDropRule(b, t, d);
      var dir :| dir in PlayableArms(b) && IsFurthestInArm(b, t, dir)
                 && HasFace(d, ArmEnd(b, dir).domino.tail);
      assert HasFace(t.domino, ArmEnd(b, dir).domino.tail);
    } else {
      RowEndDropRule(b, t, d);
      assert HasFace(t.domino, t.domino.tail) && HasFace(t.domino, t.domino.head);
    }
  }

  /** Two rendered boards that agree on everything the drop rules read:
      the phase, the spinner's domino, the arm lengths and the dominoes at
      the ends of every arm or of the row. */
  predicate SameDropView(a: RenderedBoard, b: RenderedBoard) {
    if a.Spun? then
      && b.Spun? && a.spinner.domino == b.spinner.domino
      && (forall dir :: |RenderedArm(a, dir)| == |RenderedArm(b, dir)|)
      && (forall dir :: |RenderedArm(a, dir)| > 0 ==> ArmEnd(a, dir).domino == ArmEnd(b, dir).domino)
    else
      && b.Open? && |a.row| == |b.row|
      && (|a.row| > 0 ==> a.row[0].domino == b.row[0].domino
                          && a.row[|a.row| - 1].domino == b.row[|b.row| - 1].domino)
  }

  /** Boards with the same drop view have the same drop targets. */
  lemma SameDropViewSameTargets(a: RenderedBoard, b: RenderedBoard, t: Option<BoardDomino>, d: Option<Domino>)
    requires SameDropView(a, b)
    ensures IsDroppable(a, t, d) == IsDroppable(b, t, d)
  {
    if a.Spun? {
      assert |RenderedArm(a, North)| == |RenderedArm(b, North)|;
      assert |RenderedArm(a, East)| == |RenderedArm(b, East)|;
      assert |RenderedArm(a, South)| == |RenderedArm(b, South)|;
      assert |RenderedArm(a, West)| == |RenderedArm(b, West)|;
    }
  }

  /** A move keeps the drop view. */
  lemma ShiftKeepsDropView(b: RenderedBoard, x: real, y: real)
    ensures SameDropView(ShiftRenderedBoard(b, x, y), b)
  {
    var s := ShiftRenderedBoard(b, x, y);
    if b.Spun? {
      forall dir | |RenderedArm(s, dir)| > 0
        ensures ArmEnd(s, dir).domino == ArmEnd(b, dir).domino
      {
        var arm := RenderedArm(b, dir);
        assert RenderedArm(s, dir) == ShiftTiles(arm, x, y);
      }
    }
  }

  /** Bending keeps the drop view. */
  lemma BendKeepsDropView(b: RenderedBoard, w: int, h: int, rule: DoubleRule)
    requires BendDominoesOutsideOfGrid(b, w, h, rule).Some?
    ensures SameDropView(BendDominoesOutsideOfGrid(b, w, h, rule).value, b)
  {
    if b.Spun? {
      BendKeepsSpunDropView(b, w, h, rule);
    } else {
      var r := BendDominoesOutsideOfGrid(b, w, h, rule).value;
      assert Flatten(b) == b.row && Flatten(r) == r.row;
    }
  }

  lemma BendKeepsSpunDropView(b: RenderedBoard, w: int, h: int, rule: DoubleRule)
    requires b.Spun? && BendDominoesOutsideOfGrid(b, w, h, rule).Some?
    ensures SameDropView(BendDominoesOutsideOfGrid(b, w, h, rule).value, b)
  {
    var r := BendDominoesOutsideOfGrid(b, w, h, rule).value;
    forall dir
      ensures |RenderedArm(r, dir)| == |RenderedArm(b, dir)|
      ensures |RenderedArm(r, dir)| > 0 ==> ArmEnd(r, dir).domino == ArmEnd(b, dir).domino
    {
      BentArms(b, w, h, rule, dir);
    }
  }

  /** Neither moving nor bending the board changes which tiles are
      targets: only the dominoes and the arm lengths are consulted. So the
      final board shows the same targets as the board first built from the
      logical board. */
  lemma DroppableUnderBend(b: RenderedBoard, t: Option<BoardDomino>, d: Option<Domino>, w: int, h: int, rule: DoubleRule)
    requires BendDominoesOutsideOfGrid(b, w, h, rule).Some?
    ensures IsDroppable(BendDominoesOutsideOfGrid(b, w, h, rule).value, t, d) == IsDroppable(b, t, d)
  {
    BendKeepsDropView(b, w, h, rule);
    SameDropViewSameTargets(BendDominoesOutsideOfGrid(b, w, h, rule).value, b, t, d);
  }

  /** Moving the board does not change which tiles are targets: only the
      dominoes and the arm lengths are consulted. */
  lemma DroppableUnderShift(b: RenderedBoard, t: Option<BoardDomino>, d: Option<Domino>, x: real, y: real)
    ensures IsDroppable(ShiftRenderedBoard(b, x, y), t, d) == IsDroppable(b, t, d)
  {
    ShiftKeepsDropView(b, x, y);
    SameDropViewSameTargets(ShiftRenderedBoard(b, x, y), b, t, d);
  }
}
