/** The current engine's solver loop (layoutDominoes in
    src/games/dominoes/view/game/BoardView.tsx): try ten ever finer grids;
    on each, centre the board, keep the tiles near the spinner inside,
    bend the rest, and accept the first grid the bent board fits. */
module Layout {
  import opened Wrappers
  import opened Utils
  import opened Dominoes
  import opened Geometry
  import opened RenderedBoards

  /** The number of grid squares along the smaller side at attempt `i`. */
  function Squares(i: nat): (k: int)
    ensures k >= 24
  {
    6 * i + 24
  }

  /** The side of one grid square in pixels: the smaller dimension split
      into `Squares(i)` parts. Nothing stops the view from passing a
      negative height, and then the square size is negative too. */
  function SquareSize(pw: real, ph: real, i: nat): (s: real)
    requires Min(pw, ph) != 0.0
    ensures s != 0.0
    ensures s > 0.0 <==> Min(pw, ph) > 0.0
    ensures s * Squares(i) as real == Min(pw, ph)
  {
    Min(pw, ph) / Squares(i) as real
  }

  /** How many whole squares fit along a side of `pixels` pixels
      (Math.floor, which rounds towards minus infinity). */
  function GridSquares(pixels: real, size: real): int
    requires size != 0.0
  {
    (pixels / size).Floor
  }

  /** The smaller side holds exactly `Squares(i)` squares, and the larger
      at least as many; so every grid the solver tries is at least 24
      squares each way. */
  lemma GridSquaresBounds(pw: real, ph: real, i: nat)
    requires pw > 0.0 && ph > 0.0
    ensures var s := SquareSize(pw, ph, i);
            && GridSquares(Min(pw, ph), s) == Squares(i)
            && GridSquares(pw, s) >= Squares(i) && GridSquares(ph, s) >= Squares(i)
  {
    var s, k := SquareSize(pw, ph, i), Squares(i) as real;
    assert Min(pw, ph) / s == k;
    assert pw / s >= k by {
      assert pw >= Min(pw, ph);
      assert pw / s >= Min(pw, ph) / s;
    }
    assert ph / s >= k by {
      assert ph >= Min(pw, ph);
      assert ph / s >= Min(pw, ph) / s;
    }
  }

  /** The solved layout: grid dimensions in squares, square size in
      pixels, and the placed board. */
  datatype GridLayout = GridLayout(gridWidth: int, gridHeight: int, squareSize: real, board: RenderedBoard)

  /** Why a solver gives up: no attempt fit ("Could not resolve grid
      layout, fatal error"), or a bend found no tile to bend around (the
      source dereferences a missing pivot). */
  datatype LayoutError = Unresolved | MissingPivot

  /** The outcome of one attempt of a solver loop producing layouts `L`. */
  datatype Attempt<L> = Placed(layout: L) | Crashed(error: LayoutError) | TooBig

  /** The sequence of dominoes a run of tiles shows, in order. */
  function DominoesOf(ts: seq<BoardDomino>): (r: seq<Domino>)
    ensures |r| == |ts|
    ensures forall i :: 0 <= i < |ts| ==> r[i] == ts[i].domino
  {
    seq(|ts|, i requires 0 <= i < |ts| => ts[i].domino)
  }

  /** Whether every tile of the board lies inside the grid. */
  predicate BoardFits(b: RenderedBoard, w: int, h: int) {
    forall t :: t in Flatten(b) ==> Fits(t, w, h)
  }

  /** The final clamp: move a bent board whose extent fits the grid by the
      least amount on each axis that brings it inside. */
  function FinalClamp(b: RenderedBoard, w: int, h: int): (r: RenderedBoard)
    ensures SpanFits(Boxes(Flatten(b)), w, h) ==> BoardFits(r, w, h)
    ensures exists x: real, y: real :: r == ShiftRenderedBoard(b, x, y)
    ensures BoardFits(b, w, h) ==> r == b
  {
    if !HasTiles(b) then
      ShiftIdentityAndCompose(b, 0.0, 0.0, 0.0, 0.0);
      b
    else
      ClampedBoard(b, w, h);
      ShiftRenderedBoard(b, ClampShift(WestBoundary(b), EastBoundary(b), w),
                         ClampShift(NorthBoundary(b), SouthBoundary(b), h))
  }

  lemma ClampedBoard(b: RenderedBoard, w: int, h: int)
    requires HasTiles(b)
    ensures var x := ClampShift(WestBoundary(b), EastBoundary(b), w);
            var y := ClampShift(NorthBoundary(b), SouthBoundary(b), h);
            && (SpanFits(Boxes(Flatten(b)), w, h) ==> BoardFits(ShiftRenderedBoard(b, x, y), w, h))
            && (BoardFits(b, w, h) ==> x == 0.0 && y == 0.0 && ShiftRenderedBoard(b, x, y) == b)
  {
    var x := ClampShift(WestBoundary(b), EastBoundary(b), w);
    var y := ClampShift(NorthBoundary(b), SouthBoundary(b), h);
    if SpanFits(Boxes(Flatten(b)), w, h) {
      ClampedBoardFits(b, w, h, x, y);
    }
    if BoardFits(b, w, h) {
      FittingBoardIsNotClamped(b, w, h);
    }
  }

  lemma ClampedBoardFits(b: RenderedBoard, w: int, h: int, x: real, y: real)
    requires HasTiles(b) && SpanFits(Boxes(Flatten(b)), w, h)
    requires x == ClampShift(WestBoundary(b), EastBoundary(b), w)
    requires y == ClampShift(NorthBoundary(b), SouthBoundary(b), h)
    ensures BoardFits(ShiftRenderedBoard(b, x, y), w, h)
  {
    var r := ShiftRenderedBoard(b, x, y);
    var bs := Boxes(Flatten(b));
    BoxesOfShift(Flatten(b), x, y);
    ClampedBoxesFit(bs, w, h);
    assert Boxes(Flatten(r)) == TranslateAll(bs, x, y);
    TilesFitWhenBoxesFit(Flatten(r), w, h);
  }

  lemma TilesFitWhenBoxesFit(ts: seq<BoardDomino>, w: int, h: int)
    requires AllFit(Boxes(ts), w, h)
    ensures forall t :: t in ts ==> Fits(t, w, h)
  {
    forall t | t in ts
      ensures Fits(t, w, h)
    {
      var i :| 0 <= i < |ts| && ts[i] == t;
      assert Boxes(ts)[i] == t.box;
    }
  }

  lemma FittingBoardIsNotClamped(b: RenderedBoard, w: int, h: int)
    requires HasTiles(b) && BoardFits(b, w, h)
    ensures ClampShift(WestBoundary(b), EastBoundary(b), w) == 0.0
    ensures ClampShift(NorthBoundary(b), SouthBoundary(b), h) == 0.0
    ensures ShiftRenderedBoard(b, 0.0, 0.0) == b
  {
    var nt, et, st, wt := BoundaryTiles(b);
    assert Fits(nt, w, h) && Fits(et, w, h) && Fits(st, w, h) && Fits(wt, w, h);
    ShiftIdentityAndCompose(b, 0.0, 0.0, 0.0, 0.0);
  }

  /** The slow path's board: keep the tiles near the spinner inside the
      grid, then bend whatever still sticks out. */
  function KeepAndBend(centered: RenderedBoard, w: int, h: int, rule: DoubleRule): (r: Option<RenderedBoard>)
    ensures r.Some? ==> DominoesOf(Flatten(r.value)) == DominoesOf(Flatten(centered))
    ensures r.None? <==>
              BendDominoesOutsideOfGrid(MaintainDominoesCloseToSpinnerWithinGrid(centered, w, h), w, h, rule).None?
  {
    var maintained := MaintainDominoesCloseToSpinnerWithinGrid(centered, w, h);
    var mx, my :| maintained == ShiftRenderedBoard(centered, mx, my);
    ShiftedDominoes(centered, mx, my);
    var bent := BendDominoesOutsideOfGrid(maintained, w, h, rule);
    if bent.Some? then
      BentDominoes(maintained, bent.value, w, h);
      bent
    else bent
  }

  /** One pass of the loop on a `w` by `h` grid of squares of `size`
      pixels; `first` marks attempt 0, the only one with a fast path. */
  function AttemptOnGrid(base: RenderedBoard, w: int, h: int, size: real, first: bool, rule: DoubleRule): (r: Attempt<GridLayout>)
    ensures first && SpanFits(Boxes(Flatten(base)), w, h) ==>
              r == Placed(GridLayout(w, h, size, CenterRenderedBoardOnGrid(base, w, h)))
    ensures r.Placed? ==> r.layout.gridWidth == w && r.layout.gridHeight == h && r.layout.squareSize == size
    ensures r.Placed? ==> DominoesOf(Flatten(r.layout.board)) == DominoesOf(Flatten(base))
    ensures r.Placed? && !(first && SpanFits(Boxes(Flatten(base)), w, h)) ==> BoardFits(r.layout.board, w, h)
    ensures r.Crashed? ==> r.error == MissingPivot
    ensures r.Crashed? <==>
              (!(first && SpanFits(Boxes(Flatten(base)), w, h))
               && KeepAndBend(CenterRenderedBoardOnGrid(base, w, h), w, h, rule).None?)
  {
    var centered := CenterRenderedBoardOnGrid(base, w, h);
    var cx, cy :| centered == ShiftRenderedBoard(base, cx, cy);
    ShiftedDominoes(base, cx, cy);
    if first && SpanFits(Boxes(Flatten(base)), w, h) then
      Placed(GridLayout(w, h, size, centered))
    else
      var bent := KeepAndBend(centered, w, h, rule);
      if bent.None? then Crashed(MissingPivot)
      else if SpanFits(Boxes(Flatten(bent.value)), w, h) then
        var placed := FinalClamp(bent.value, w, h);
        var px, py :| placed == ShiftRenderedBoard(bent.value, px, py);
        ShiftedDominoes(bent.value, px, py);
        Placed(GridLayout(w, h, size, placed))
      else TooBig
  }

  /** Shifting never changes which dominoes a board shows. */
  lemma ShiftedDominoes(b: RenderedBoard, x: real, y: real)
    ensures DominoesOf(Flatten(ShiftRenderedBoard(b, x, y))) == DominoesOf(Flatten(b))
  {
  }

  /** Bending keeps every domino in its place in the board's sequence. */
  lemma BentDominoes(b: RenderedBoard, r: RenderedBoard, w: int, h: int)
    requires BendsOnlyOutside(Flatten(b), Flatten(r), w, h)
    ensures DominoesOf(Flatten(r)) == DominoesOf(Flatten(b))
  {
  }

  /** The grid of attempt `i`. */
  function GridWidth(pw: real, ph: real, i: nat): int
    requires Min(pw, ph) != 0.0
  {
    GridSquares(pw, SquareSize(pw, ph, i))
  }

  function GridHeight(pw: real, ph: real, i: nat): int
    requires Min(pw, ph) != 0.0
  {
    GridSquares(ph, SquareSize(pw, ph, i))
  }

  /** Attempt `i` of the loop: F = 1/(6i + 24) of the smaller side per
      square, each side's square count floored on its own. */
  function TryAttempt(base: RenderedBoard, pw: real, ph: real, i: nat, rule: DoubleRule): Attempt<GridLayout>
    requires Min(pw, ph) != 0.0
  {
    AttemptOnGrid(base, GridWidth(pw, ph, i), GridHeight(pw, ph, i), SquareSize(pw, ph, i), i == 0, rule)
  }

  /** The ten attempts the loop can make, i = 0 to 9. */
  function Attempts(base: RenderedBoard, pw: real, ph: real, rule: DoubleRule): (r: seq<Attempt<GridLayout>>)
    requires Min(pw, ph) != 0.0
    ensures |r| == 10
    ensures forall i :: 0 <= i < 10 ==> r[i] == TryAttempt(base, pw, ph, i, rule)
  {
    seq(10, i requires 0 <= i < 10 => TryAttempt(base, pw, ph, i, rule))
  }

  /** The loop's control flow from attempt `i` on: the first attempt that
      places the board or crashes ends the loop; when every attempt is too
      big the solver fails. */
  function Decide<L>(attempts: seq<Attempt<L>>, i: nat): (r: Result<L, LayoutError>)
    requires i <= |attempts|
    decreases |attempts| - i
    ensures (forall j :: i <= j < |attempts| ==> attempts[j].TooBig?) ==> r == Failure(Unresolved)
    ensures r.Failure? ==>
              || (forall j :: i <= j < |attempts| ==> attempts[j].TooBig?)
              || exists j :: i <= j < |attempts| && attempts[j] == Crashed(r.error) && AllTooBig(attempts, i, j)
    ensures r.Success? ==>
              exists j :: i <= j < |attempts| && attempts[j] == Placed(r.value) && AllTooBig(attempts, i, j)
  {
    if i == |attempts| then Failure(Unresolved)
    else
      match attempts[i]
      case Placed(layout) => Success(layout)
      case Crashed(e) => Failure(e)
      case TooBig => Decide(attempts, i + 1)
  }

  /** The loop places the board exactly when some attempt places it after
      a run of attempts that were all too big. */
  lemma {:induction false} DecidePlacesIff<L>(attempts: seq<Attempt<L>>, i: nat)
    requires i <= |attempts|
    decreases |attempts| - i
    ensures Decide(attempts, i).Success? <==>
              exists j :: i <= j < |attempts| && attempts[j].Placed? && AllTooBig(attempts, i, j)
  {
    if i < |attempts| && attempts[i].TooBig? {
      DecidePlacesIff(attempts, i + 1);
      if exists j :: i <= j < |attempts| && attempts[j].Placed? && AllTooBig(attempts, i, j) {
        var j :| i <= j < |attempts| && attempts[j].Placed? && AllTooBig(attempts, i, j);
        assert i + 1 <= j && AllTooBig(attempts, i + 1, j);
      }
      if Decide(attempts, i).Success? {
        var j :| i + 1 <= j < |attempts| && attempts[j].Placed? && AllTooBig(attempts, i + 1, j);
        assert AllTooBig(attempts, i, j);
      }
    } else if i < |attempts| && attempts[i].Placed? {
      assert AllTooBig(attempts, i, i);
    } else if i < |attempts| {
      forall j | i <= j < |attempts| && attempts[j].Placed?
        ensures !AllTooBig(attempts, i, j)
      {
        assert i < j && !attempts[i].TooBig?;
      }
    }
  }

  /** When no attempt crashes, the loop either places the board or runs
      out of attempts. */
  lemma UncrashedLoopFailsOnlyUnresolved<L>(attempts: seq<Attempt<L>>)
    requires forall j :: 0 <= j < |attempts| ==> !attempts[j].Crashed?
    ensures Decide(attempts, 0).Success? || Decide(attempts, 0) == Failure(Unresolved)
  {
  }

  /** Attempts `i` up to but not including `j` were all too big. */
  predicate AllTooBig<L>(attempts: seq<Attempt<L>>, i: nat, j: nat)
    requires j <= |attempts|
  {
    forall k :: i <= k < j ==> attempts[k].TooBig?
  }

  /** layoutDominoes for a board on a `pw` by `ph` pixel area: the layout
      of the first attempt that is not too big. */
  function LayoutDominoes(pw: real, ph: real, board: Board, rule: DoubleRule): (r: Result<GridLayout, LayoutError>)
    requires Min(pw, ph) != 0.0
    ensures r.Success? ==>
              exists i :: 0 <= i < 10 && PlacedOnGrid(r.value, GetRenderedRepresentation(board), pw, ph, i)
    ensures var attempts := Attempts(GetRenderedRepresentation(board), pw, ph, rule);
            r.Success? <==> exists i :: 0 <= i < 10 && attempts[i].Placed? && AllTooBig(attempts, 0, i)
    ensures var attempts := Attempts(GetRenderedRepresentation(board), pw, ph, rule);
            r == Failure(MissingPivot) ==> exists i :: 0 <= i < 10 && attempts[i].Crashed? && AllTooBig(attempts, 0, i)
  {
    var base := GetRenderedRepresentation(board);
    DecidedLayout(base, pw, ph, rule);
    Decide(Attempts(base, pw, ph, rule), 0)
  }

  /** A layout of attempt `i` on the board `base`: it lies on that
      attempt's grid, shows the board's dominoes in order and lies inside
      the grid, unless attempt 0 took it unchanged from centring. */
  predicate PlacedOnGrid(l: GridLayout, base: RenderedBoard, pw: real, ph: real, i: nat)
    requires Min(pw, ph) != 0.0
  {
    && l.gridWidth == GridWidth(pw, ph, i) && l.gridHeight == GridHeight(pw, ph, i)
    && l.squareSize == SquareSize(pw, ph, i)
    && DominoesOf(Flatten(l.board)) == DominoesOf(Flatten(base))
    && (|| BoardFits(l.board, l.gridWidth, l.gridHeight)
        || (i == 0 && l.board == CenterRenderedBoardOnGrid(base, l.gridWidth, l.gridHeight)))
  }

  /** The loop's decision over the ten attempts on a board `base`. */
  lemma DecidedLayout(base: RenderedBoard, pw: real, ph: real, rule: DoubleRule)
    requires Min(pw, ph) != 0.0
    ensures var attempts := Attempts(base, pw, ph, rule);
            var r := Decide(attempts, 0);
            && (r.Success? ==> exists i :: 0 <= i < 10 && PlacedOnGrid(r.value, base, pw, ph, i))
            && (r.Success? <==> exists i :: 0 <= i < 10 && attempts[i].Placed? && AllTooBig(attempts, 0, i))
            && (r == Failure(MissingPivot) ==> exists i :: 0 <= i < 10 && attempts[i].Crashed? && AllTooBig(attempts, 0, i))
  {
    PlacedAttempts(base, pw, ph, rule);
    DecideAmongPlacedGrids(Attempts(base, pw, ph, rule), base, pw, ph);
  }

  /** The decision over any ten attempts whose placed layouts lie on their
      own grids. */
  lemma DecideAmongPlacedGrids(attempts: seq<Attempt<GridLayout>>, base: RenderedBoard, pw: real, ph: real)
    requires Min(pw, ph) != 0.0 && |attempts| == 10
    requires forall i :: 0 <= i < 10 && attempts[i].Placed? ==> PlacedOnGrid(attempts[i].layout, base, pw, ph, i)
    ensures var r := Decide(attempts, 0);
            && (r.Success? ==> exists i :: 0 <= i < 10 && PlacedOnGrid(r.value, base, pw, ph, i))
            && (r.Success? <==> exists i :: 0 <= i < 10 && attempts[i].Placed? && AllTooBig(attempts, 0, i))
            && (r == Failure(MissingPivot) ==> exists i :: 0 <= i < 10 && attempts[i].Crashed? && AllTooBig(attempts, 0, i))
  {
    DecidePlacesIff(attempts, 0);
  }

  /** Every placed attempt places a layout on its own grid. */
  lemma PlacedAttempts(base: RenderedBoard, pw: real, ph: real, rule: DoubleRule)
    requires Min(pw, ph) != 0.0
    ensures var attempts := Attempts(base, pw, ph, rule);
            forall i :: 0 <= i < 10 && attempts[i].Placed? ==> PlacedOnGrid(attempts[i].layout, base, pw, ph, i)
  {
    var attempts := Attempts(base, pw, ph, rule);
    forall i | 0 <= i < 10 && attempts[i].Placed?
      ensures PlacedOnGrid(attempts[i].layout, base, pw, ph, i)
    {
      PlacedAttempt(base, pw, ph, i, rule, attempts[i]);
    }
  }

  /** What a placed attempt places. */
  lemma PlacedAttempt(base: RenderedBoard, pw: real, ph: real, i: nat, rule: DoubleRule, a: Attempt<GridLayout>)
    requires Min(pw, ph) != 0.0 && a == TryAttempt(base, pw, ph, i, rule) && a.Placed?
    ensures PlacedOnGrid(a.layout, base, pw, ph, i)
  {
  }

  /** BoardView renders nothing for a zero width or height. On a positive
      area the layout never meets a missing pivot; on a positive width and
      a negative height (the game view passes 70% of the window height
      less 40 pixels) every grid has a negative width, so no tile fits:
      a non-empty open row and a spinner with an arm crash for want of a
      pivot, a lone spinner is too big for every grid, and only an empty
      row is placed. */
  function BoardViewLayout(pw: real, ph: real, board: Board, rule: DoubleRule): (r: Option<Result<GridLayout, LayoutError>>)
    ensures r.None? <==> pw == 0.0 || ph == 0.0
    ensures pw > 0.0 && ph > 0.0 ==> r.Some? && (r.value.Success? || r.value == Failure(Unresolved))
    ensures pw > 0.0 && ph < 0.0 && board.Row? ==> r.Some? && (r.value.Success? <==> |board.dominoes| == 0)
    ensures pw > 0.0 && ph < 0.0 && board.Row? && |board.dominoes| > 0 ==> r == Some(Failure(MissingPivot))
    ensures pw > 0.0 && ph < 0.0 && board.Cross? ==>
              r == Some(Failure(if HasArmTiles(board) then MissingPivot else Unresolved))
  {
    if pw == 0.0 || ph == 0.0 then None
    else
      LayoutOutcome(pw, ph, board, rule);
      Some(LayoutDominoes(pw, ph, board, rule))
  }

  /** The layout's outcome on a positive area and on a short view. */
  lemma LayoutOutcome(pw: real, ph: real, board: Board, rule: DoubleRule)
    requires pw != 0.0 && ph != 0.0
    ensures var r := LayoutDominoes(pw, ph, board, rule);
            && (pw > 0.0 && ph > 0.0 ==> r.Success? || r == Failure(Unresolved))
            && (pw > 0.0 && ph < 0.0 && board.Row? ==> (r.Success? <==> |board.dominoes| == 0))
            && (pw > 0.0 && ph < 0.0 && board.Row? && |board.dominoes| > 0 ==> r == Failure(MissingPivot))
            && (pw > 0.0 && ph < 0.0 && board.Cross? ==>
                  r == Failure(if HasArmTiles(board) then MissingPivot else Unresolved))
  {
    if pw > 0.0 && ph > 0.0 {
      LayoutNeverCrashes(pw, ph, board, rule);
    } else if pw > 0.0 {
      ShortViewLayout(pw, ph, board, rule);
    }
  }

  // ---------------------------------------------------------------------
  // The solver never reaches a missing pivot

  lemma InBoxes(t: BoardDomino, ts: seq<BoardDomino>)
    requires t in ts
    ensures t.box in Boxes(ts)
  {
    var i :| 0 <= i < |ts| && ts[i] == t;
    assert Boxes(ts)[i] == t.box;
  }

  /** Wherever a built board has been moved, the first tile of each arm
      is close to the spinner: it sits right against it. */
  lemma FirstArmTileIsClose(board: Board, dir: Direction, x: real, y: real)
    requires board.Cross? && IsCardinal(dir) && |ArmOf(board, dir)| > 0
    ensures var b := ShiftRenderedBoard(GetRenderedRepresentation(board), x, y);
            |RenderedArm(b, dir)| > 0 && RenderedArm(b, dir)[0].box in CloseBoxes(b)
  {
    var b0 := GetRenderedRepresentation(board);
    var b := ShiftRenderedBoard(b0, x, y);
    var arm := ArmOf(board, dir);
    ArmsAreContiguous(board, dir);
    var first := BuildArm(dir, arm)[0];
    AbuttingBoxesAreClose(SpinnerBox, first.box, dir, CloseDistance);
    AreCloseProperties(SpinnerBox, first.box, CloseDistance, x, y);
    assert RenderedArm(b, dir) == ShiftTiles(BuildArm(dir, arm), x, y);
    var t := RenderedArm(b, dir)[0];
    assert t in Flatten(b);
    InBoxes(t, Flatten(b));
  }

  /** On a built spun board moved anywhere on a grid at least 22 by 24
      squares, keeping the close tiles inside leaves the first tile of
      every arm inside, so no arm lacks a tile to bend around. */
  lemma SpunBoardNeverCrashes(board: Board, x: real, y: real, w: int, h: int, rule: DoubleRule)
    requires board.Cross? && w >= 22 && h >= 24
    ensures KeepAndBend(ShiftRenderedBoard(GetRenderedRepresentation(board), x, y), w, h, rule).Some?
  {
    var b0 := GetRenderedRepresentation(board);
    var c := ShiftRenderedBoard(b0, x, y);
    var m := MaintainDominoesCloseToSpinnerWithinGrid(c, w, h);
    FirstArmTilesFitAfterMaintain(board, x, y, w, h, North);
    FirstArmTilesFitAfterMaintain(board, x, y, w, h, East);
    FirstArmTilesFitAfterMaintain(board, x, y, w, h, South);
    FirstArmTilesFitAfterMaintain(board, x, y, w, h, West);
    FirstTilesInsideBend(m, w, h, rule);
  }

  /** A spun board whose arms all start inside the grid bends. */
  lemma FirstTilesInsideBend(m: RenderedBoard, w: int, h: int, rule: DoubleRule)
    requires m.Spun?
    requires |RenderedArm(m, North)| > 0 ==> Fits(RenderedArm(m, North)[0], w, h)
    requires |RenderedArm(m, East)| > 0 ==> Fits(RenderedArm(m, East)[0], w, h)
    requires |RenderedArm(m, South)| > 0 ==> Fits(RenderedArm(m, South)[0], w, h)
    requires |RenderedArm(m, West)| > 0 ==> Fits(RenderedArm(m, West)[0], w, h)
    ensures BendDominoesOutsideOfGrid(m, w, h, rule).Some?
  {
    SpunBendFailure(m, w, h, rule);
  }

  /** Keeping the close tiles of a moved built board inside the grid is
      one more move of the built board, after which they all fit, the
      first tile of every arm among them. */
  lemma FirstArmTilesFitAfterMaintain(board: Board, x: real, y: real, w: int, h: int, dir: Direction)
    requires board.Cross? && w >= 22 && h >= 24 && IsCardinal(dir)
    ensures var m := MaintainDominoesCloseToSpinnerWithinGrid(
                       ShiftRenderedBoard(GetRenderedRepresentation(board), x, y), w, h);
            m.Spun? && (|RenderedArm(m, dir)| > 0 ==> Fits(RenderedArm(m, dir)[0], w, h))
  {
    var b0 := GetRenderedRepresentation(board);
    var c := ShiftRenderedBoard(b0, x, y);
    CloseSpanOfBuiltBoard(board, x, y, w, h);
    MaintainKeepsCloseTilesInGrid(c, w, h);
    var m := MaintainDominoesCloseToSpinnerWithinGrid(c, w, h);
    var mx, my := MaintainedIsMoved(b0, x, y, w, h);
    FirstArmTileFits(board, m, mx, my, w, h, dir);
  }

  /** Keeping the close tiles inside moves a moved board once more. */
  lemma MaintainedIsMoved(b0: RenderedBoard, x: real, y: real, w: int, h: int) returns (mx: real, my: real)
    ensures MaintainDominoesCloseToSpinnerWithinGrid(ShiftRenderedBoard(b0, x, y), w, h)
            == ShiftRenderedBoard(b0, mx, my)
  {
    var c := ShiftRenderedBoard(b0, x, y);
    var m := MaintainDominoesCloseToSpinnerWithinGrid(c, w, h);
    var dx, dy :| m == ShiftRenderedBoard(c, dx, dy);
    mx, my := x + dx, y + dy;
    MovedTwice(b0, m, x, y, dx, dy, mx, my);
  }

  lemma MovedTwice(b0: RenderedBoard, m: RenderedBoard, x: real, y: real, dx: real, dy: real, mx: real, my: real)
    requires m == ShiftRenderedBoard(ShiftRenderedBoard(b0, x, y), dx, dy)
    requires mx == x + dx && my == y + dy
    ensures m == ShiftRenderedBoard(b0, mx, my)
  {
    ShiftIdentityAndCompose(b0, x, y, dx, dy);
  }

  /** On a moved built board whose close tiles all fit, the first tile of
      every arm fits. */
  lemma FirstArmTileFits(board: Board, m: RenderedBoard, x: real, y: real, w: int, h: int, dir: Direction)
    requires board.Cross? && IsCardinal(dir)
    requires m == ShiftRenderedBoard(GetRenderedRepresentation(board), x, y)
    requires m.Spun? && AllFit(CloseBoxes(m), w, h)
    ensures |RenderedArm(m, dir)| > 0 ==> Fits(RenderedArm(m, dir)[0], w, h)
  {
    if |RenderedArm(m, dir)| > 0 {
      assert |ArmOf(board, dir)| > 0;
      FirstArmTileIsClose(board, dir, x, y);
      AllFitMember(CloseBoxes(m), RenderedArm(m, dir)[0].box, w, h);
    }
  }

  /** The boundaries of a built open row of `n` tiles: two squares tall
      around the middle line, from 0 to 4n across. */
  lemma OpenRowBoundaries(row: seq<Domino>)
    requires |row| > 0
    ensures var b := GetRenderedRepresentation(Row(row));
            && HasTiles(b)
            && NorthBoundary(b) == -1.0 && SouthBoundary(b) == 1.0
            && WestBoundary(b) == 0.0 && EastBoundary(b) == (4 * |row|) as real
  {
    var b := GetRenderedRepresentation(Row(row));
    OpenRowLayout(row);
    BoundariesAreExtremes(b);
    assert b.row[0] in Flatten(b) && b.row[|row| - 1] in Flatten(b);
  }

  /** Centring a built open row of `n` tiles moves it by floor(W/2) - 2n
      across and floor(H/2) down. */
  lemma CenteredOpenRow(row: seq<Domino>, w: int, h: int, x: real, y: real)
    requires |row| > 0 && x == (w / 2) as real - (2 * |row|) as real && y == (h / 2) as real
    ensures CenterRenderedBoardOnGrid(GetRenderedRepresentation(Row(row)), w, h)
            == ShiftRenderedBoard(GetRenderedRepresentation(Row(row)), x, y)
  {
    var b0 := GetRenderedRepresentation(Row(row));
    OpenRowBoundaries(row);
    CenteringIsAMove(b0, w, h, x, y);
  }

  /** A tile of a centred row of `n` tiles that lies inside a grid whose
      middle column is `m`. */
  lemma FittingRowIndex(n: int, m: int) returns (k: int)
    requires n >= 1 && m >= 12
    ensures 0 <= k < n && 0 <= 4 * k - 2 * n + m && 4 * k + 4 - 2 * n + m <= 2 * m
  {
    if 2 * n - m <= 0 {
      k := 0;
    } else {
      k := (2 * n - m + 3) / 4;
    }
  }

  /** Where tile `k` of a moved open row lies. */
  lemma ShiftedRowTile(row: seq<Domino>, x: real, y: real, k: nat)
    requires k < |row|
    ensures var c := ShiftRenderedBoard(GetRenderedRepresentation(Row(row)), x, y);
            c.Open? && |c.row| == |row| &&
            c.row[k].box == Box(y - 1.0, (4 * k + 4) as real + x, y + 1.0, (4 * k) as real + x)
  {
    var b0 := GetRenderedRepresentation(Row(row));
    assert b0.row[k] == RowTile(row, k);
  }

  /** Moved so that its middle sits on the middle column of a grid at
      least 24 squares each way, an open row keeps some tile inside. */
  lemma ShiftedRowHasFittingTile(row: seq<Domino>, w: int, h: int, x: real, y: real) returns (k: nat)
    requires |row| > 0 && w >= 24 && h >= 24
    requires x == (w / 2) as real - (2 * |row|) as real && y == (h / 2) as real
    ensures var c := ShiftRenderedBoard(GetRenderedRepresentation(Row(row)), x, y);
            c.Open? && k < |c.row| && Fits(c.row[k], w, h)
  {
    var n, m := |row|, w / 2;
    k := FittingRowIndex(n, m);
    ShiftedRowTile(row, x, y, k);
    RowTileInside(n, m, k, w, h, x, y);
  }

  /** The arithmetic behind it: tile `k` of such a row spans columns
      4k - 2n + m to 4k + 4 - 2n + m and rows floor(H/2) - 1 to floor(H/2) + 1. */
  lemma RowTileInside(n: int, m: int, k: nat, w: int, h: int, x: real, y: real)
    requires m == w / 2 && h >= 24 && 0 <= 4 * k - 2 * n + m && 4 * k + 4 - 2 * n + m <= 2 * m
    requires x == (w / 2) as real - (2 * n) as real && y == (h / 2) as real
    ensures FitsInGrid(Box(y - 1.0, (4 * k + 4) as real + x, y + 1.0, (4 * k) as real + x), w, h)
  {
    assert (4 * k) as real + x == (4 * k - 2 * n + m) as real;
    assert (4 * k + 4) as real + x == (4 * k + 4 - 2 * n + m) as real;
  }

  /** An open row with a tile inside the grid bends without crashing. */
  lemma RowWithFittingTileBends(c: RenderedBoard, k: nat, w: int, h: int, rule: DoubleRule)
    requires c.Open? && k < |c.row| && Fits(c.row[k], w, h)
    ensures KeepAndBend(c, w, h, rule).Some?
  {
    OpenRowBendFailure(c.row, w, h, rule);
  }

  /** Centred on a grid at least 24 squares each way, an open row always
      keeps some tile inside, so neither end lacks a tile to bend around. */
  lemma OpenRowNeverCrashes(row: seq<Domino>, w: int, h: int, rule: DoubleRule)
    requires w >= 24 && h >= 24
    ensures KeepAndBend(CenterRenderedBoardOnGrid(GetRenderedRepresentation(Row(row)), w, h), w, h, rule).Some?
  {
    if |row| > 0 {
      var x, y := (w / 2) as real - (2 * |row|) as real, (h / 2) as real;
      CenteredOpenRow(row, w, h, x, y);
      var k := ShiftedRowHasFittingTile(row, w, h, x, y);
      RowWithFittingTileBends(ShiftRenderedBoard(GetRenderedRepresentation(Row(row)), x, y), k, w, h, rule);
    } else {
      var c := CenterRenderedBoardOnGrid(GetRenderedRepresentation(Row(row)), w, h);
      assert BendDominoesOutsideOfGrid(c, w, h, rule).Some?;
    }
  }

  /** The solver never fails for want of a pivot: each attempt either
      places the board or finds it too big, so the only failure left is
      running out of attempts. */
  lemma LayoutNeverCrashes(pw: real, ph: real, board: Board, rule: DoubleRule)
    requires pw > 0.0 && ph > 0.0
    ensures LayoutDominoes(pw, ph, board, rule).Success? || LayoutDominoes(pw, ph, board, rule) == Failure(Unresolved)
  {
    var base := GetRenderedRepresentation(board);
    forall i | 0 <= i < 10
      ensures !TryAttempt(base, pw, ph, i, rule).Crashed?
    {
      var w, h := GridWidth(pw, ph, i), GridHeight(pw, ph, i);
      GridSquaresBounds(pw, ph, i);
      if board.Cross? {
        var c := CenterRenderedBoardOnGrid(base, w, h);
        var x, y :| c == ShiftRenderedBoard(base, x, y);
        SpunBoardNeverCrashes(board, x, y, w, h, rule);
      } else {
        OpenRowNeverCrashes(board.dominoes, w, h, rule);
      }
    }
    UncrashedLoopFailsOnlyUnresolved(Attempts(base, pw, ph, rule));
  }

  // ---------------------------------------------------------------------
  // A negative height

  /** Some arm of a spinner board holds a tile. */
  predicate HasArmTiles(board: Board)
    requires board.Cross?
  {
    |board.north| + |board.east| + |board.south| + |board.west| > 0
  }

  /** With a positive width and a negative height the square size is
      negative, so every grid is a negative number of squares wide and
      exactly `Squares(i)` squares tall. */
  lemma ShortViewGrid(pw: real, ph: real, i: nat)
    requires pw > 0.0 && ph < 0.0
    ensures GridWidth(pw, ph, i) < 0 && GridHeight(pw, ph, i) == Squares(i)
  {
    var s := SquareSize(pw, ph, i);
    assert s < 0.0 && s * Squares(i) as real == ph;
    assert ph / s == Squares(i) as real;
    assert pw / s < 0.0;
  }

  /** A span holding a box of positive width does not fit a grid of
      negative width. */
  lemma WideBoxSpanDoesNotFit(bs: seq<Box>, k: nat, w: int, h: int)
    requires k < |bs| && w < 0 && Width(bs[k]) > 0.0
    ensures !SpanFits(bs, w, h)
  {
    assert EastLimit(bs) >= bs[k].east && WestLimit(bs) <= bs[k].west;
  }

  /** On a grid of negative width a non-empty open row has a tile outside
      on the left or right and no tile inside, so its bend crashes. */
  lemma RowOnNegativeWidth(row: seq<Domino>, w: int, h: int, size: real, first: bool, rule: DoubleRule)
    requires |row| > 0 && w < 0
    ensures AttemptOnGrid(GetRenderedRepresentation(Row(row)), w, h, size, first, rule) == Crashed(MissingPivot)
  {
    var base := GetRenderedRepresentation(Row(row));
    OpenRowBoundaries(row);
    assert !SpanFits(Boxes(Flatten(base)), w, h);
    var x, y := (w / 2) as real - (2 * |row|) as real, (h / 2) as real;
    CenteredOpenRow(row, w, h, x, y);
    var c := ShiftRenderedBoard(base, x, y);
    forall k | 0 <= k < |c.row|
      ensures !Fits(c.row[k], w, h)
    {
      ShiftedRowTile(row, x, y, k);
    }
    ShiftedRowTile(row, x, y, 0);
    assert OutsideHorizontally(c.row[0], w);
    OpenRowBendFailure(c.row, w, h, rule);
  }

  /** On a grid of negative width no tile of a spinner board fits: with
      an arm the first arm tile sticks out and the bend crashes; without
      one the spinner alone is too wide. */
  lemma SpunOnNegativeWidth(board: Board, w: int, h: int, size: real, first: bool, rule: DoubleRule)
    requires board.Cross? && w < 0
    ensures AttemptOnGrid(GetRenderedRepresentation(board), w, h, size, first, rule)
            == if HasArmTiles(board) then Crashed(MissingPivot) else TooBig
  {
    var base := GetRenderedRepresentation(board);
    WideBoxSpanDoesNotFit(Boxes(Flatten(base)), 0, w, h);
    var c := CenterRenderedBoardOnGrid(base, w, h);
    var x, y :| c == ShiftRenderedBoard(base, x, y);
    var mx, my := MaintainedIsMoved(base, x, y, w, h);
    var m := MaintainDominoesCloseToSpinnerWithinGrid(c, w, h);
    if HasArmTiles(board) {
      ArmBendOnNegativeWidth(board, m, mx, my, w, h, rule);
    } else {
      LoneSpinnerBendOnNegativeWidth(board, m, mx, my, w, h, rule);
    }
  }

  /** With an arm, the bend of a moved built board crashes. */
  lemma ArmBendOnNegativeWidth(board: Board, m: RenderedBoard, x: real, y: real, w: int, h: int, rule: DoubleRule)
    requires board.Cross? && HasArmTiles(board) && w < 0
    requires m == ShiftRenderedBoard(GetRenderedRepresentation(board), x, y)
    ensures BendDominoesOutsideOfGrid(m, w, h, rule).None?
  {
    var dir := if |board.north| > 0 then North else if |board.east| > 0 then East
               else if |board.south| > 0 then South else West;
    FirstArmTileOutside(board, dir, x, y, w, h);
    SpunBendFailure(m, w, h, rule);
  }

  /** Without an arm, the bend of a moved built board keeps the spinner,
      which is too wide for the grid. */
  lemma LoneSpinnerBendOnNegativeWidth(board: Board, m: RenderedBoard, x: real, y: real, w: int, h: int, rule: DoubleRule)
    requires board.Cross? && !HasArmTiles(board) && w < 0
    requires m == ShiftRenderedBoard(GetRenderedRepresentation(board), x, y)
    ensures var bent := BendDominoesOutsideOfGrid(m, w, h, rule);
            bent.Some? && !SpanFits(Boxes(Flatten(bent.value)), w, h)
  {
    SpunBendFailure(m, w, h, rule);
    var bent := BendDominoesOutsideOfGrid(m, w, h, rule).value;
    assert bent.spinner == m.spinner;
    WideBoxSpanDoesNotFit(Boxes(Flatten(bent)), 0, w, h);
  }

  /** The first tile of a non-empty arm of a moved built board does not
      fit a grid of negative width. */
  lemma FirstArmTileOutside(board: Board, dir: Direction, x: real, y: real, w: int, h: int)
    requires board.Cross? && IsCardinal(dir) && |ArmOf(board, dir)| > 0 && w < 0
    ensures var m := ShiftRenderedBoard(GetRenderedRepresentation(board), x, y);
            m.Spun? && |RenderedArm(m, dir)| > 0 && !Fits(RenderedArm(m, dir)[0], w, h)
  {
    var arm := ArmOf(board, dir);
    PlacedArmTileBox(board, dir, 0, x, y);
    assert Width(PlacedArmTile(board, dir, 0, x, y).box) > 0.0;
  }

  /** The outcome on a positive width and a negative height: an empty row
      is placed at once, a row or a spinner with an arm crashes at the
      first attempt, and a lone spinner exhausts all ten attempts. */
  lemma ShortViewLayout(pw: real, ph: real, board: Board, rule: DoubleRule)
    requires pw > 0.0 && ph < 0.0
    ensures var r := LayoutDominoes(pw, ph, board, rule);
            && (board.Row? ==> (r.Success? <==> |board.dominoes| == 0))
            && (board.Row? && |board.dominoes| > 0 ==> r == Failure(MissingPivot))
            && (board.Cross? ==> r == Failure(if HasArmTiles(board) then MissingPivot else Unresolved))
  {
    if board.Row? && |board.dominoes| == 0 {
      EmptyRowShortView(pw, ph, board, rule);
    } else if board.Row? || HasArmTiles(board) {
      FirstAttemptCrashesShortView(pw, ph, board, rule);
    } else {
      LoneSpinnerShortView(pw, ph, board, rule);
    }
  }

  /** An empty row takes the fast path of attempt 0 on a short view. */
  lemma EmptyRowShortView(pw: real, ph: real, board: Board, rule: DoubleRule)
    requires pw > 0.0 && ph < 0.0 && board == Row([])
    ensures LayoutDominoes(pw, ph, board, rule).Success?
  {
    var attempts := Attempts(GetRenderedRepresentation(board), pw, ph, rule);
    assert attempts[0] == TryAttempt(GetRenderedRepresentation(board), pw, ph, 0, rule);
  }

  /** A non-empty row, or a spinner with an arm, crashes at attempt 0 of a
      short view. */
  lemma FirstAttemptCrashesShortView(pw: real, ph: real, board: Board, rule: DoubleRule)
    requires pw > 0.0 && ph < 0.0
    requires (board.Row? && |board.dominoes| > 0) || (board.Cross? && HasArmTiles(board))
    ensures LayoutDominoes(pw, ph, board, rule) == Failure(MissingPivot)
  {
    ShortViewGrid(pw, ph, 0);
    var base := GetRenderedRepresentation(board);
    var a := TryAttempt(base, pw, ph, 0, rule);
    if board.Row? {
      RowOnNegativeWidth(board.dominoes, GridWidth(pw, ph, 0), GridHeight(pw, ph, 0), SquareSize(pw, ph, 0), true, rule);
    } else {
      SpunOnNegativeWidth(board, GridWidth(pw, ph, 0), GridHeight(pw, ph, 0), SquareSize(pw, ph, 0), true, rule);
    }
    FirstAttemptDecides(pw, ph, board, rule, a);
  }

  /** An attempt 0 that is not too big decides the loop. */
  lemma FirstAttemptDecides(pw: real, ph: real, board: Board, rule: DoubleRule, a: Attempt<GridLayout>)
    requires Min(pw, ph) != 0.0 && a == TryAttempt(GetRenderedRepresentation(board), pw, ph, 0, rule) && a.Crashed?
    ensures LayoutDominoes(pw, ph, board, rule) == Failure(a.error)
  {
    var attempts := Attempts(GetRenderedRepresentation(board), pw, ph, rule);
    assert attempts[0] == a;
  }

  /** A lone spinner is too big for all ten grids of a short view. */
  lemma LoneSpinnerShortView(pw: real, ph: real, board: Board, rule: DoubleRule)
    requires pw > 0.0 && ph < 0.0 && board.Cross? && !HasArmTiles(board)
    ensures LayoutDominoes(pw, ph, board, rule) == Failure(Unresolved)
  {
    var attempts := Attempts(GetRenderedRepresentation(board), pw, ph, rule);
    forall i | 0 <= i < 10
      ensures attempts[i].TooBig?
    {
      ShortViewGrid(pw, ph, i);
      SpunOnNegativeWidth(board, GridWidth(pw, ph, i), GridHeight(pw, ph, i), SquareSize(pw, ph, i), i == 0, rule);
    }
  }
}
