# Domino board layout of games-frontend, in Dafny

This project models the part of the games-frontend dominoes client that lays
the board out on screen, along with the small game-state logic around it.

**Board layout.** Before a double is played, the board is an open row of
tiles. After it, the board is a spinner with four arms. The layout engine
turns this chain into one box and one drawing direction per tile on a grid
of squares, then fits the grid to the viewport:

- it centres the board;
- it shifts it so the tiles close to the spinner stay inside;
- it bends the tiles that still stick out around the last tile inside;
- if the bent board still does not fit, it tries a finer grid, up to ten
  times.

The model covers:

- **The current engine** (`RenderedBoard.ts` and the `layoutDominoes` loop
  of `view/game/BoardView.tsx`): modules `RenderedBoards` and `Layout`.
- **The older, array-based engine** (`view/BoardView.tsx` with
  `BoardViewModel.ts` and `BoardController.ts`). Its board is a list of
  tiles with grid coordinates and boxes, which the engine extends one tile
  at a time. Modules `LegacyBoard` and `LegacyView`.
- **Which tiles accept a dragged domino**, under both engines: modules
  `DropRules` and `LegacyView`.
- **The game state and its controllers**: the turn, scores, hands, the
  event queue and the seat-to-screen-position table. Modules `GameStates`,
  `Players` and `GameViewStates`.
- **Shared pieces**: `Geometry` (boxes, translation, the bend reflection,
  closeness), `Utils` (directions), `Dominoes` (faces) and `Wrappers`
  (`Option`, `Result`).

**Representation.**

- Everything is immutable datatypes and pure functions.
- Coordinates are `real`, because centring can produce half squares.
- Grid counts are exact floors of rationals.
- A place where the JavaScript would throw or dereference `null` returns
  `None` or `Failure`. Callers never have to avoid such inputs.
- JavaScript's `%`, whose result takes the dividend's sign, is written out
  as `GameStates.JsRemainder`.
- `null + 1 == 1` is modelled by reading a null index as 0.
- A MobX-State-Tree integer field that would receive `NaN` is modelled as
  the error `NotAnInteger`.
- The two bend rules for doubles are a parameter, `DoubleRule`; see
  Findings.

**How the engine picks pivots and keeps close tiles inside:**

- `getLastDominoInArmWithinGrid`
  (`src/games/dominoes/view/game/RenderedBoard.ts:383-405`) takes the tile
  just before the FIRST tile outside the grid. It returns null when every
  tile fits or when the first tile is already outside. Later tiles that
  fit again do not count. `RenderedBoards.LastDominoInArmWithinGrid` does
  the same.
- The open row picks its pivots with `find` over all fitting tiles, from
  each end. `RenderedBoards.FirstFitting` and `RenderedBoards.LastFitting`
  do the same.
- The comment at `RenderedBoard.ts:357-359` states that close tiles span at
  most 22 by 24 squares. The model proves only what the engine needs from
  that claim, and only for boards the engine builds: on a grid at least
  22 by 24, the close tiles of a built board fit after the shift
  (`RenderedBoards.CloseSpanOfBuiltBoard`).
- The game view passes a height of 70% of the window height less 40
  pixels, which is negative on a short window. The model follows the
  arithmetic there: the square size and every grid width are negative.
  `Layout.BoardViewLayout` states the outcome for each kind of board.

## Model

Source paths are relative to the repository root.

| member | source | states |
|---|---|---|
| Utils.RotateClockwise | src/games/dominoes/utils.ts:3-11 | the result is always one of the four cardinal directions, never NONE |
| Utils.RotationsAreInverse | src/utils/utils.ts:11-19 | on cardinal directions, clockwise and counter-clockwise rotation undo each other |
| Utils.RotateCounterClockwise | src/games/dominoes/view/game/RenderedBoard.ts:474 | cardinal directions map to a different cardinal direction that rotates clockwise back to them; NONE stays NONE |
| Utils.RotateClockwiseCycle | src/utils/utils.ts:11-19 | four clockwise turns are the identity on a cardinal direction, and the four intermediate results are exactly N, E, S, W |
| Utils.RotateClockwiseFallThrough | src/games/dominoes/utils.ts:10 | exactly the inputs other than N, E, S map to NORTH; WEST and NONE rotate to the same direction |
| Utils.IsNullOrUndefined | src/utils/utils.ts:3-5 | holds exactly for null and undefined, and fails for every defined value |
| Dominoes.HasFaceSwap | src/games/dominoes/viewmodel/DominoViewModel.ts:11-13 | ContainsNumber does not depend on which face is stored first |
| Dominoes.DoubleHasOneFace | src/games/dominoes/viewmodel/DominoViewModel.ts:7-13 | a double contains n iff its first face is n; a domino is a double iff swapping its faces leaves it unchanged |
| Dominoes.EqualsIsEquality | src/games/dominoes/view/game/BoardView.tsx:197 | the face-wise Equals the drop rules use is value equality of dominoes |
| Geometry.Translate | src/games/dominoes/view/BoardView.tsx:44-51 | a translation keeps width and height and moves the west and north edges by exactly x and y |
| Geometry.TranslateIdentityAndCompose | src/games/dominoes/view/game/RenderedBoard.ts:218-237 | translating by (0,0) is the identity, and two translations compose into one by the summed offsets |
| Geometry.FitsInGridIsContainment | src/games/dominoes/view/BoardView.tsx:73-84 | a box fits the grid iff the grid rectangle contains it; it fails to fit iff one of its four sides crosses the matching grid edge |
| Geometry.AreCloseProperties | src/games/dominoes/view/BoardView.tsx:53-71 | closeness is symmetric, a well-formed box is not close to itself, and translating both boxes alike does not change closeness |
| Geometry.BendAroundPoint | src/games/dominoes/view/BoardView.tsx:86-135 | a bent box has the original's width and height exchanged |
| Geometry.BendIsReflection | src/games/dominoes/view/game/RenderedBoard.ts:407-448 | without the double correction a bend is a reflection (bending twice about the same point restores the box); with it, the bend is that reflection followed by a fixed shift |
| Geometry.BendTurnsTranslation | src/games/dominoes/view/game/RenderedBoard.ts:407-448 | a box moved before bending lands moved by the offset turned a quarter |
| Geometry.ArmTilesAbut | src/games/dominoes/view/game/RenderedBoard.ts:25-38 | a tile placed at the far edge of the previous one along an arm shares that edge with it |
| Geometry.BendAroundPivotAbuts | src/games/dominoes/view/game/RenderedBoard.ts:450-461 | bending the tile after a pivot about the pivot's corner, keyed to the pivot's doubleness, puts it flush against the pivot a quarter turn clockwise from the arm |
| Geometry.BendAroundBentTileSeparates | src/games/dominoes/view/game/RenderedBoard.ts:463-483 | keyed to the bent tile instead, a double bent around a non-double lands two squares off its pivot, and a non-double bent around a double overlaps it |
| Geometry.NorthLimit | src/games/dominoes/view/BoardView.tsx:260-271 | the north limit is at most every box's north edge and equals one of them (EastLimit, SouthLimit and WestLimit are stated alike) |
| Geometry.LimitsOfTranslateAll | src/games/dominoes/view/BoardView.tsx:446-457 | translating all boxes moves each limit by the translation on its axis |
| Geometry.ClampShift | src/games/dominoes/view/game/BoardView.tsx:141-152 | when the span fits, the clamp shift brings both edges inside the grid; when the edges are already inside, the shift is zero |
| Geometry.ClampedBoxesFit | src/games/dominoes/view/game/BoardView.tsx:133-163 | a set of boxes whose span fits the grid lies entirely in the grid after the clamp shift on both axes |
| Geometry.SpanWithin | src/games/dominoes/view/game/RenderedBoard.ts:278-296 | boxes inside a region span no more than the region on either axis |
| Geometry.BendPreservesAbutting | src/games/dominoes/view/game/RenderedBoard.ts:485-501 | two tiles that share an edge along an arm still share one after both are bent about the same point |
| Geometry.AbuttingBoxesAreClose | src/games/dominoes/view/game/RenderedBoard.ts:278-296 | boxes that share an edge are close at any non-negative distance |
| RenderedBoards.SumWidths | src/games/dominoes/view/game/RenderedBoard.ts:25-38 | every tile adds at least two squares to an arm's length |
| RenderedBoards.LengthDisplacementStep | src/games/dominoes/view/game/RenderedBoard.ts:25-30 | the offset of tile i+1 along an arm is the offset of tile i plus tile i's width (2 for a double, 4 otherwise) |
| RenderedBoards.BuildArm | src/games/dominoes/view/game/RenderedBoard.ts:60-123 | a built arm has one tile per domino, each placed by the arm's rule |
| RenderedBoards.GetRenderedRepresentation | src/games/dominoes/view/game/RenderedBoard.ts:40-127 | a board without a spinner renders as an open row of the same length; with a spinner, the spinner tile sits in its fixed box facing SOUTH and each arm keeps its length |
| RenderedBoards.OpenRowLayout | src/games/dominoes/view/game/RenderedBoard.ts:41-57 | open-row tile i shows domino i facing EAST in the box from 4i to 4i+4 across and -1 to 1 down; consecutive tiles share an edge |
| RenderedBoards.ArmTileIsArmBox | src/games/dominoes/view/game/RenderedBoard.ts:60-123 | arm tile i shows domino i in the box that starts at the summed widths of the tiles before it |
| RenderedBoards.ArmsAreContiguous | src/games/dominoes/view/game/RenderedBoard.ts:25-123 | the first tile of each arm shares an edge with the spinner, and every later tile shares an edge with the one before it |
| RenderedBoards.ArmOrientation | src/games/dominoes/view/game/RenderedBoard.ts:72-123 | a non-double faces along its arm; a double lies across it, facing EAST in the north and south arms and SOUTH in the east and west arms |
| RenderedBoards.Flatten | src/games/dominoes/view/game/RenderedBoard.ts:265-276 | an open board flattens to its row; a spun board to its spinner first, then exactly the tiles of its arms |
| RenderedBoards.NorthBoundary | src/games/dominoes/view/game/RenderedBoard.ts:129-135 | no tile lies north of the north boundary, and some tile's north side is on it |
| RenderedBoards.EastBoundary | src/games/dominoes/view/game/RenderedBoard.ts:137-143 | no tile lies east of the east boundary, and some tile's east side is on it |
| RenderedBoards.SouthBoundary | src/games/dominoes/view/game/RenderedBoard.ts:145-151 | no tile lies south of the south boundary, and some tile's south side is on it |
| RenderedBoards.WestBoundary | src/games/dominoes/view/game/RenderedBoard.ts:153-159 | no tile lies west of the west boundary, and some tile's west side is on it |
| RenderedBoards.BoundariesAreExtremes | src/games/dominoes/view/game/RenderedBoard.ts:129-159 | each boundary bounds every tile on its side and is reached by some tile |
| RenderedBoards.BoundaryTiles | src/games/dominoes/view/game/RenderedBoard.ts:129-159 | for each side there is a tile of the board that touches that boundary |
| RenderedBoards.FurthestIsTheEnd | src/games/dominoes/view/game/RenderedBoard.ts:161-195 | a tile is furthest in an arm iff it shows the arm's last domino; in an open row, east and west ends are the row's last and first |
| RenderedBoards.IsFurthestNorthDomino | src/games/dominoes/view/game/RenderedBoard.ts:161-168 | on a spun board, true iff the north arm is not empty and its last tile shows the tile's domino; on an open row always true |
| RenderedBoards.IsFurthestEastDomino | src/games/dominoes/view/game/RenderedBoard.ts:170-177 | undefined (the source throws) exactly for an empty open row; otherwise whether the tile shows the domino of the east arm's last tile, or of the row's last tile |
| RenderedBoards.IsFurthestSouthDomino | src/games/dominoes/view/game/RenderedBoard.ts:179-186 | on a spun board, true iff the south arm is not empty and its last tile shows the tile's domino; on an open row always true |
| RenderedBoards.IsFurthestWestDomino | src/games/dominoes/view/game/RenderedBoard.ts:188-195 | undefined exactly for an empty open row; otherwise whether the tile shows the domino of the west arm's last tile, or of the row's first tile |
| RenderedBoards.ShiftRenderedBoard | src/games/dominoes/view/game/RenderedBoard.ts:197-237 | shifting keeps the phase and the arm lengths, and moves every tile by the same offset |
| RenderedBoards.ShiftIdentityAndCompose | src/games/dominoes/view/game/RenderedBoard.ts:197-237 | shifting by (0,0) is the identity, and two shifts compose additively |
| RenderedBoards.BoundariesOfShift | src/games/dominoes/view/game/RenderedBoard.ts:129-159 | after a shift each boundary moves by the shift on its axis |
| RenderedBoards.CenterRenderedBoardOnGrid | src/games/dominoes/view/game/RenderedBoard.ts:239-263 | centring is a shift; afterwards the board's midpoint is the grid's floored midpoint and its spans are unchanged; an empty board is left alone |
| RenderedBoards.CloseTo | src/games/dominoes/view/game/RenderedBoard.ts:311-330 | the close boxes are exactly the tile boxes within six squares of the spinner |
| RenderedBoards.CloseToShifted | src/games/dominoes/view/game/RenderedBoard.ts:311-330 | shifting the board shifts the set of close boxes and changes nothing else about it |
| RenderedBoards.MaintainDominoesCloseToSpinnerWithinGrid | src/games/dominoes/view/game/RenderedBoard.ts:311-381 | the result is a shift of the board; an open board, or one whose close tiles already fit, is returned unchanged |
| RenderedBoards.MaintainKeepsCloseTilesInGrid | src/games/dominoes/view/game/RenderedBoard.ts:331-381 | when the close tiles' span fits the grid, every close tile is inside the grid afterwards |
| RenderedBoards.CloseBoxesOfBuiltBoard | src/games/dominoes/view/game/RenderedBoard.ts:311-330 | every tile of a built board that is close to the spinner lies in a fixed region around it |
| RenderedBoards.CloseSpanOfBuiltBoard | src/games/dominoes/view/game/RenderedBoard.ts:331-346 | wherever a built board is moved, its close tiles span at most 22 by 24 squares, so they fit any grid of at least that size |
| RenderedBoards.BendDominoAroundDomino | src/games/dominoes/view/game/RenderedBoard.ts:463-483 | a bent tile keeps its domino, faces a quarter counter-clockwise from the bend direction, and has its width and height exchanged |
| RenderedBoards.FirstOutsideIndex | src/games/dominoes/view/game/RenderedBoard.ts:392-399 | -1 exactly when every tile fits; otherwise the index of the first tile outside the grid |
| RenderedBoards.LastDominoInArmWithinGrid | src/games/dominoes/view/game/RenderedBoard.ts:383-405 | null iff every tile fits or the first tile does not; otherwise the tile just before the first tile outside |
| RenderedBoards.BendsOnlyOutsideConcat | src/games/dominoes/view/game/RenderedBoard.ts:485-501 | bending piecewise over two parts of a list is bending over their concatenation |
| RenderedBoards.BendArmAroundDomino | src/games/dominoes/view/game/RenderedBoard.ts:485-501 | an arm bend fails iff some tile is outside and there is no pivot; otherwise fitting tiles stay, every domino stays in place, and each outside tile turns counter-clockwise from the arm |
| RenderedBoards.ArmBendFailsIffFirstTileOutside | src/games/dominoes/view/game/RenderedBoard.ts:383-405 | with the pivot the engine chooses, an arm bend fails exactly when the arm's first tile is outside the grid |
| RenderedBoards.FirstFitting | src/games/dominoes/view/game/RenderedBoard.ts:508-515 | the first tile of the row that fits, null iff none does |
| RenderedBoards.LastFitting | src/games/dominoes/view/game/RenderedBoard.ts:516-524 | the last tile of the row that fits, null iff none does |
| RenderedBoards.BendRowTile | src/games/dominoes/view/game/RenderedBoard.ts:526-544 | a row tile fails to bend iff it is off the west edge with no west pivot, or off the east edge with no east pivot; a tile inside horizontally is kept |
| RenderedBoards.BendRowTiles | src/games/dominoes/view/game/RenderedBoard.ts:526-544 | the row bends iff every tile bends, tile by tile and in order |
| RenderedBoards.BendDominoesOutsideOfGrid | src/games/dominoes/view/game/RenderedBoard.ts:503-600 | bending keeps the phase and the spinner, keeps every tile that fits, and keeps each domino at its place in the flattened board |
| RenderedBoards.BentArms | src/games/dominoes/view/game/RenderedBoard.ts:546-599 | each arm of a bent spun board is its own arm with only outside tiles changed |
| RenderedBoards.OpenRowBendFailure | src/games/dominoes/view/game/RenderedBoard.ts:507-544 | an open row crashes in bending iff some tile is outside horizontally and no tile fits |
| RenderedBoards.SpunBendFailure | src/games/dominoes/view/game/RenderedBoard.ts:546-599 | a spun board crashes in bending iff some arm's first tile is outside the grid |
| RenderedBoards.BendKeepsFittingBoard | src/games/dominoes/view/game/RenderedBoard.ts:503-600 | a board whose tiles all fit is returned unchanged |
| RenderedBoards.RowKeepsFittingTiles | src/games/dominoes/view/game/RenderedBoard.ts:507-544 | a row whose tiles all fit is returned unchanged |
| RenderedBoards.ArmKeepsFittingTiles | src/games/dominoes/view/game/RenderedBoard.ts:485-501 | an arm whose tiles all fit is returned unchanged |
| RenderedBoards.CanPlayVerticallyIsStable | src/games/dominoes/view/game/RenderedBoard.ts:602-607 | vertical play is allowed on the rendered board iff it is allowed on the logical board, and shifting or bending does not change the answer |
| RenderedBoards.CanPlayVertically | src/games/dominoes/view/game/RenderedBoard.ts:602-606 | on a logical board, the answer is the same as on its rendering |
| RenderedBoards.CanPlayVerticallyRendered | src/games/dominoes/view/game/RenderedBoard.ts:602-606 | true iff the board has a spinner and some tile is furthest east and some tile furthest west; then at least three tiles are down |
| RenderedBoards.PlacedNeighbours | src/games/dominoes/view/game/RenderedBoard.ts:25-123 | in a moved board, tile k of an arm starts at the far edge of tile k-1 |
| RenderedBoards.PivotRuleBendAbutsPivot | src/games/dominoes/view/game/RenderedBoard.ts:463-483 | with the double correction keyed to the pivot, the first bent tile sits flush against its pivot, for every arm, position, shift and mix of doubles |
| RenderedBoards.BentTileRuleLeavesGap | src/games/dominoes/view/game/RenderedBoard.ts:478-480 | as written (keyed to the bent tile), a double bent around a non-double in an east arm lands two squares below its pivot |
| Layout.SquareSize | src/games/dominoes/view/game/BoardView.tsx:71-77 | the square size splits the smaller side into exactly 6i+24 squares; it is never zero, and it is positive exactly when the smaller side is |
| Layout.GridSquaresBounds | src/games/dominoes/view/game/BoardView.tsx:78-83 | the smaller side holds exactly 6i+24 whole squares, and each side at least that many |
| Layout.DominoesOf | src/games/dominoes/view/game/BoardView.tsx:180-181 | the dominoes a list of tiles shows, in order |
| Layout.FinalClamp | src/games/dominoes/view/game/BoardView.tsx:133-163 | the final clamp is a shift; when the board's span fits, it puts every tile in the grid; a board already inside is not moved |
| Layout.ClampedBoard | src/games/dominoes/view/game/BoardView.tsx:141-152 | the clamp shifts computed from the boundaries place a fitting span inside the grid, and are zero for a board already inside |
| Layout.TilesFitWhenBoxesFit | src/games/dominoes/view/game/BoardView.tsx:133-139 | if every box fits, every tile fits |
| Layout.FittingBoardIsNotClamped | src/games/dominoes/view/game/BoardView.tsx:141-152 | a board inside the grid gets zero clamp shifts |
| Layout.KeepAndBend | src/games/dominoes/view/game/BoardView.tsx:108-122 | the slow path shows the same dominoes in the same order as the centred board, and crashes exactly when its bend crashes |
| Layout.AttemptOnGrid | src/games/dominoes/view/game/BoardView.tsx:70-166 | on the fast path of attempt 0 it returns exactly the centred board; a returned layout lies on its own grid and shows the board's dominoes; off the fast path, a returned board lies entirely inside the grid; it crashes only for a missing pivot, and exactly when the slow path's bend does |
| Layout.ShiftedDominoes | src/games/dominoes/view/game/RenderedBoard.ts:197-237 | shifting never changes which dominoes a board shows |
| Layout.BentDominoes | src/games/dominoes/view/game/RenderedBoard.ts:503-600 | bending never changes which dominoes a board shows |
| Layout.Attempts | src/games/dominoes/view/game/BoardView.tsx:70-71 | the loop makes exactly ten attempts, i = 0 to 9 |
| Layout.Decide | src/games/dominoes/view/game/BoardView.tsx:70-169 | the loop returns the first placed layout after attempts that were too big, stops at the first crash, and fails with the fatal error when every attempt is too big |
| Layout.DecidePlacesIff | src/games/dominoes/view/game/BoardView.tsx:70-169 | the loop succeeds iff some attempt places the board after only too-big attempts |
| Layout.UncrashedLoopFailsOnlyUnresolved | src/games/dominoes/view/game/BoardView.tsx:166-169 | without crashes the loop either succeeds or fails only with "Could not resolve grid layout" |
| Layout.LayoutDominoes | src/games/dominoes/view/game/BoardView.tsx:48-170 | a success is the layout of some attempt i < 10: on that attempt's grid and square size, showing the board's dominoes in order, and inside the grid unless it is attempt 0's centred board; the loop succeeds iff some attempt places the board after attempts that were all too big; a missing-pivot failure comes from an attempt that crashed |
| Layout.BoardViewLayout | src/games/dominoes/view/game/BoardView.tsx:44-176 | the view renders nothing exactly when the width or height is zero; on a positive area the layout never fails for a missing pivot; on a positive width and a negative height, a non-empty row or a spinner with an arm fails for a missing pivot, a lone spinner fails with the fatal error, and only an empty row is placed |
| Layout.ShortViewGrid | src/games/dominoes/view/game/BoardView.tsx:71-83 | with a positive width and a negative height, every grid is a negative number of squares wide and exactly 6i+24 squares tall |
| Layout.RowOnNegativeWidth | src/games/dominoes/view/game/RenderedBoard.ts:503-544 | on a grid of negative width, an attempt on a non-empty open row crashes for a missing pivot |
| Layout.SpunOnNegativeWidth | src/games/dominoes/view/game/RenderedBoard.ts:546-599 | on a grid of negative width, an attempt on a spinner board crashes for a missing pivot when some arm holds a tile, and is too big otherwise |
| Layout.ShortViewLayout | src/games/dominoes/view/game/GameView.tsx:55-58 | for the negative heights the game view can pass: an empty row is placed, a non-empty row or a spinner with an arm fails for a missing pivot, and a lone spinner fails with the fatal error |
| Layout.FirstAttemptCrashesShortView | src/games/dominoes/view/game/BoardView.tsx:70-122 | on a short view a non-empty row or a spinner with an arm crashes at attempt 0, which ends the loop with a missing pivot |
| Layout.LoneSpinnerShortView | src/games/dominoes/view/game/BoardView.tsx:70-169 | on a short view a lone spinner is too big for all ten grids, so the loop throws the fatal error |
| Layout.FirstArmTileIsClose | src/games/dominoes/view/game/RenderedBoard.ts:311-330 | the first tile of each non-empty arm is close to the spinner |
| Layout.SpunBoardNeverCrashes | src/games/dominoes/view/game/BoardView.tsx:108-122 | on any grid of at least 22 by 24 squares, the slow path never crashes for a spun board |
| Layout.FirstTilesInsideBend | src/games/dominoes/view/game/RenderedBoard.ts:546-599 | if every arm's first tile fits, the bend does not crash |
| Layout.FirstArmTilesFitAfterMaintain | src/games/dominoes/view/game/RenderedBoard.ts:311-381 | after the close-tile shift, every arm's first tile is inside the grid |
| Layout.MaintainedIsMoved | src/games/dominoes/view/game/RenderedBoard.ts:311-381 | the close-tile shift of a shifted board is one shift of the original board |
| Layout.OpenRowBoundaries | src/games/dominoes/view/game/RenderedBoard.ts:41-57 | a built open row spans -1 to 1 vertically and 0 to 4n horizontally |
| Layout.CenteredOpenRow | src/games/dominoes/view/game/RenderedBoard.ts:239-263 | centring an open row of n tiles shifts it by half the grid width minus 2n across and half the grid height down |
| Layout.FittingRowIndex | src/games/dominoes/view/game/RenderedBoard.ts:239-263 | for n tiles centred on a half-width m of at least 12, some tile k spans from 4k-2n+m to 4k+4-2n+m, inside 0 to 2m |
| Layout.ShiftedRowHasFittingTile | src/games/dominoes/view/game/BoardView.tsx:85-89 | a centred open row always has a tile inside a grid of at least 24 by 24 |
| Layout.RowWithFittingTileBends | src/games/dominoes/view/game/RenderedBoard.ts:507-544 | an open row with a fitting tile never crashes in the slow path |
| Layout.OpenRowNeverCrashes | src/games/dominoes/view/game/BoardView.tsx:85-122 | the slow path never crashes for an open row on a grid of at least 24 by 24 |
| Layout.LayoutNeverCrashes | src/games/dominoes/view/game/BoardView.tsx:52-169 | for every board and positive viewport, the loop either places the board or fails with the fatal error; the bend's missing pivot is never reached |
| LegacyBoard.MaxOf | src/games/dominoes/viewmodel/BoardViewModel.ts:36-38 | Math.max over a non-empty list bounds every element and is one of them (MinOf alike) |
| LegacyBoard.FirstIndexOf | src/games/dominoes/viewmodel/BoardViewModel.ts:32-60 | the first position holding a value, none iff the value is absent |
| LegacyBoard.Spinner | src/games/dominoes/viewmodel/BoardViewModel.ts:16-22 | the spinner is the tile at the spinner index, and is null when the index is null |
| LegacyBoard.NorthEdge | src/games/dominoes/viewmodel/BoardViewModel.ts:32-46 | null iff there is no spinner; otherwise the first tile with the greatest y if some tile is north of the centre, else the spinner |
| LegacyBoard.SouthEdge | src/games/dominoes/viewmodel/BoardViewModel.ts:47-61 | null iff there is no spinner; otherwise the first tile with the least y if some tile is south of the centre, else the spinner |
| LegacyBoard.EastEdge | src/games/dominoes/viewmodel/BoardViewModel.ts:62-69 | null iff the board is empty; otherwise the first tile with the greatest x |
| LegacyBoard.WestEdge | src/games/dominoes/viewmodel/BoardViewModel.ts:70-77 | null iff the board is empty; otherwise the first tile with the least x |
| LegacyBoard.Edge | src/games/dominoes/view/BoardView.tsx:536-555 | the edge on a side is the edge getter of that side |
| LegacyBoard.CanPlayVerticallyMeans | src/games/dominoes/viewmodel/BoardViewModel.ts:24-30 | vertical play needs a spinner with a tile strictly west of it and one strictly east of it |
| LegacyBoard.CanPlayVertically | src/games/dominoes/viewmodel/BoardViewModel.ts:24-30 | when vertical play is allowed, the spinner, the west edge and the east edge are three distinct tiles |
| LegacyBoard.IsEmpty | src/games/dominoes/viewmodel/BoardViewModel.ts:12-14 | an empty board has no spinner |
| LegacyBoard.RenderedBoundary | src/games/dominoes/viewmodel/BoardViewModel.ts:78-112 | null iff the board is empty; otherwise the extreme box side on that side, reached by some tile |
| LegacyBoard.ExposedFaceOf | src/games/dominoes/viewmodel/BoardViewModel.ts:114-156 | the exposed face is a face of the edge domino; for a non-double it is the first face exactly when the tile points back toward the centre |
| LegacyBoard.ExposedFace | src/games/dominoes/viewmodel/BoardViewModel.ts:114-156 | an exposed face exists iff the side has an edge tile, and it is a face of that tile |
| LegacyBoard.DominoAt | src/games/dominoes/viewmodel/BoardViewModel.ts:158-162 | the first tile at the location, null iff none is there |
| LegacyBoard.CalculateBoundingBox | src/games/dominoes/viewmodel/BoardViewModel.ts:164-262 | the computation throws exactly when it needs a missing edge: north or south of a board without a spinner, east or west of an empty board |
| LegacyBoard.FirstTileIsCentred | src/games/dominoes/viewmodel/BoardViewModel.ts:244-260 | the first tile is centred on the origin, 2 squares long for a double and 4 otherwise, and lies across the row |
| LegacyBoard.EastSidePlacement | src/games/dominoes/viewmodel/BoardViewModel.ts:212-227 | a tile added east starts at the edge tile's east side, on its centre line, with its row length; when the edge tile lies along the row and the two are not both doubles, the new tile has the row breadth and shares the edge tile's side |
| LegacyBoard.WestSidePlacement | src/games/dominoes/viewmodel/BoardViewModel.ts:228-243 | a tile added west ends at the edge tile's west side, on its centre line, with its row length; when the edge tile lies along the row and the two are not both doubles, the new tile has the row breadth and shares the edge tile's side |
| LegacyBoard.NorthSidePlacement | src/games/dominoes/viewmodel/BoardViewModel.ts:168-189 | a tile added north sits on the north edge tile's north side, centred on it, with its column length; when the edge tile lies along the column and the two are not both doubles, they share that side |
| LegacyBoard.SouthSidePlacement | src/games/dominoes/viewmodel/BoardViewModel.ts:190-211 | a tile added south hangs from the south edge tile's south side, centred on it, with its column length; when the edge tile lies along the column and the two are not both doubles, they share that side |
| LegacyBoard.AddDomino | src/controller/BoardController.ts:12-29 | adding appends exactly one tile holding the computed box and keeps the earlier ones; the first double becomes the spinner and later tiles never change it |
| LegacyBoard.ClearBoard | src/controller/BoardController.ts:31-34 | a cleared board is empty with no spinner |
| LegacyBoard.AddDominoKeepsSpinnerFirstDouble | src/controller/BoardController.ts:26-28 | clearing and adding keep the invariant "the spinner is the first double on the board, if any" |
| LegacyBoard.SpinnerNullIffIndexNull | src/games/dominoes/viewmodel/BoardViewModel.ts:16-22 | under that invariant the spinner is null iff its index is, and is always a double |
| LegacyView.TranslateAllCompose | src/games/dominoes/view/BoardView.tsx:44-51 | translating every box by (0,0) is the identity, and two translations compose |
| LegacyView.CentredBoxes | src/games/dominoes/view/BoardView.tsx:174-199 | after centring, the boxes' midpoint is the grid's floored midpoint and the spans are unchanged |
| LegacyView.SequentialShift | src/games/dominoes/view/BoardView.tsx:275-319 | the one-side-after-another shift equals the clamp shift when the span fits, and is zero when the edges are inside |
| LegacyView.ClampSequentially | src/games/dominoes/view/BoardView.tsx:275-319 | the four one-sided translations add up to a single translation by the sequential shifts |
| LegacyView.SequentialPasses | src/games/dominoes/view/BoardView.tsx:470-512 | four translations in a row compose into one by the summed offsets |
| LegacyView.Neighbours | src/games/dominoes/view/BoardView.tsx:238-246 | the boxes kept are exactly those within six squares of the spinner |
| LegacyView.NeighboursOfTranslated | src/games/dominoes/view/BoardView.tsx:238-246 | translating everything translates the set of close boxes |
| LegacyView.KeepNeighboursInside | src/games/dominoes/view/BoardView.tsx:232-319 | boxes are left alone without a spinner or when the close boxes already fit |
| LegacyView.KeptNeighboursFit | src/games/dominoes/view/BoardView.tsx:256-319 | when the close boxes' span fits, they are all inside the grid afterwards |
| LegacyView.BendSide | src/games/dominoes/view/BoardView.tsx:387-431 | a box outside the grid crosses some side, so the side tests pick a cardinal direction and the throw is unreachable; the tests are tried N, E, S, W in order |
| LegacyView.FittingBoxes | src/games/dominoes/view/BoardView.tsx:329-332 | the boxes kept are exactly the ones that fit, and none are kept iff no box fits |
| LegacyView.LimitValue | src/games/dominoes/view/BoardView.tsx:333-380 | the limit on a side is reached by some box and bounds all of them |
| LegacyView.LimitTile | src/games/dominoes/view/BoardView.tsx:333-380 | the limit tile on a side is the first fitting tile reaching the fitting tiles' extreme; none iff no tile fits |
| LegacyView.BendBox | src/games/dominoes/view/BoardView.tsx:383-431 | a fitting box is kept; an outside box is bent with its extents exchanged; the bend crashes iff the box is outside and no box fits |
| LegacyView.BendFromBendsEachBox | src/games/dominoes/view/BoardView.tsx:383-431 | bending from position k succeeds iff each box bends, and then yields the boxes' bends in order |
| LegacyView.BendOutside | src/games/dominoes/view/BoardView.tsx:383-431 | the bend crashes iff the board is non-empty and no box fits; otherwise fitting boxes stay and outside boxes have their extents exchanged |
| LegacyView.BentDirections | src/games/dominoes/view/BoardView.tsx:435-443 | fitting tiles keep their direction; outside tiles turn clockwise |
| LegacyView.BoxesAndDirectionsTurnTogether | src/games/dominoes/view/BoardView.tsx:383-443 | each tile either keeps both box and direction, or is bent and turned clockwise to a cardinal direction |
| LegacyView.FinalShift | src/games/dominoes/view/BoardView.tsx:462-512 | the final clamp keeps the number of boxes and leaves boxes already in the grid alone |
| LegacyView.FitsAreNotMoved | src/games/dominoes/view/BoardView.tsx:470-512 | boxes already inside the grid are not moved by the four one-sided clamps |
| LegacyView.FinalShiftFits | src/games/dominoes/view/BoardView.tsx:462-512 | when the bent span fits, the final clamp puts every box in the grid |
| LegacyView.AttemptOnGrid | src/games/dominoes/view/BoardView.tsx:157-519 | on the fast path the attempt returns the centred boxes with the original directions; otherwise a returned layout lies entirely inside the grid; a crash is always a missing pivot |
| LegacyView.LayoutDominoes | src/games/dominoes/view/BoardView.tsx:137-523 | a success is the layout of some attempt i < 10, on that attempt's grid with one box and one direction per tile, and inside the grid unless attempt 0 took the fast path because the board's span fits; the loop succeeds iff some attempt places the board after attempts that were all too big; failures are the fatal error or a missing pivot |
| LegacyView.PlacedAttempt | src/games/dominoes/view/BoardView.tsx:157-519 | a placed attempt lies on its own grid, inside it unless it is attempt 0's fast path, and a crashed one crashed for a missing pivot |
| LegacyView.DroppableMeans | src/games/dominoes/view/BoardView.tsx:536-555 | a tile accepts the dragged domino iff it is the edge on some side and the domino contains that side's exposed face |
| LegacyView.IsDroppable | src/games/dominoes/view/BoardView.tsx:536-561 | a droppable tile needs a dragged domino, is on the board, and is the edge tile on some side |
| LegacyView.OpensToMeans | src/games/dominoes/view/BoardView.tsx:536-555 | one side accepts iff the tile is that side's edge and the domino contains its exposed face |
| LegacyView.DropDirection | src/games/dominoes/view/BoardView.tsx:557-567 | the drop direction is a side whose edge is the tile, tried NORTH and SOUTH (only with vertical play), then EAST, then WEST; null iff no side applies |
| LegacyView.DroppableHasDirection | src/games/dominoes/view/BoardView.tsx:536-567 | a droppable tile gets a drop direction iff vertical play is allowed or it is the east or west edge |
| DropRules.IsDroppable | src/games/dominoes/view/game/BoardView.tsx:183-266 | nothing is droppable without a dragged domino or a board tile; a droppable tile is the spinner, an arm's furthest tile or a row end |
| DropRules.IsFurthestInArm | src/games/dominoes/view/game/BoardView.tsx:211-243 | only a cardinal direction has a furthest tile; the answer agrees with IsFurthestNorthDomino, IsFurthestEastDomino, IsFurthestSouthDomino and IsFurthestWestDomino on their directions |
| DropRules.IsEastEndOfRow | src/games/dominoes/view/game/BoardView.tsx:248-256 | the east end of an open row is exactly where IsFurthestEastDomino answers true, and an empty row has none |
| DropRules.IsWestEndOfRow | src/games/dominoes/view/game/BoardView.tsx:257-265 | the west end of an open row is exactly where IsFurthestWestDomino answers true, and an empty row has none |
| DropRules.PlayableArms | src/games/dominoes/view/game/BoardView.tsx:196-243 | east and west are always playable; north and south only with vertical play |
| DropRules.SpinnerDropRule | src/games/dominoes/view/game/BoardView.tsx:196-210 | the spinner accepts iff the domino has the spinner's face and some playable arm is still empty |
| DropRules.ArmEndDropRule | src/games/dominoes/view/game/BoardView.tsx:211-244 | another tile accepts iff it is the furthest tile of a playable arm and the domino has that arm's last tail face |
| DropRules.RowEndDropRule | src/games/dominoes/view/game/BoardView.tsx:246-266 | in an open row only the last tile (by tail face) and the first tile (by head face) accept |
| DropRules.DropNeedsSharedFace | src/games/dominoes/view/game/BoardView.tsx:183-266 | whenever a drop is allowed, the domino shares a face with the target tile |
| DropRules.SameDropViewSameTargets | src/games/dominoes/view/game/BoardView.tsx:183-266 | boards with the same spinner, arm lengths and arm ends accept exactly the same drops |
| DropRules.DroppableUnderShift | src/games/dominoes/view/game/RenderedBoard.ts:197-237 | shifting a board does not change which drops it accepts |
| DropRules.DroppableUnderBend | src/games/dominoes/view/game/RenderedBoard.ts:503-600 | bending a board does not change which drops it accepts |
| Players.SetHand | src/controller/PlayerController.ts:8-10 | the hand is replaced wholesale and nothing else changes |
| Players.SetPlayableDominoes | src/controller/PlayerController.ts:12-14 | the playable list is replaced and nothing else changes |
| Players.AddDomino | src/controller/PlayerController.ts:16-18 | the domino is appended after the old hand, adding exactly one copy |
| Players.Without | src/controller/PlayerController.ts:24-30 | every copy of the domino goes and every other domino keeps its count |
| Players.WithoutDistributes | src/controller/PlayerController.ts:24-30 | filtering a concatenation filters each part, so the order of what remains is kept |
| Players.RemoveDomino | src/controller/PlayerController.ts:20-31 | without an argument the first tile goes (an empty hand stays empty); with one, every copy of it goes and nothing else |
| Players.AddThenRemove | src/controller/PlayerController.ts:16-31 | adding a domino and then removing it leaves the hand as removing it alone would |
| Players.RemoveIsIdempotent | src/controller/PlayerController.ts:20-31 | removing an absent domino changes nothing, and removing twice is removing once |
| Players.SetScore | src/controller/PlayerController.ts:33-35 | the score is set and nothing else changes |
| GameStates.JsRemainder | src/games/dominoes/controller/GameStateController.ts:37-38 | JavaScript's remainder for every sign: it takes the dividend's sign, its magnitude is the magnitudes' remainder, and it is Euclidean for non-negative operands |
| GameStates.JsRemainderIsTruncatedDivision | src/games/dominoes/controller/GameStateController.ts:37-38 | the dividend is the quotient truncated towards zero times the divisor's magnitude, plus the remainder |
| GameStates.JsRemainderSigns | src/viewmodel/GameStateViewModel.ts:46-53 | the divisor's sign does not matter, and negating the dividend negates the remainder, as for a negative seat number |
| GameStates.PlayerAtSeat | src/viewmodel/GameStateViewModel.ts:25-29 | the first player in that seat; none iff nobody sits there |
| GameStates.Me | src/viewmodel/GameStateViewModel.ts:9-11 | the first player marked as the local one; none iff nobody is |
| GameStates.Opponents | src/viewmodel/GameStateViewModel.ts:13-15 | exactly the players who are not the local one |
| GameStates.OpponentsOfAppend | src/viewmodel/GameStateViewModel.ts:13-15 | the filter keeps the seat list's order |
| GameStates.NoMeAllOpponents | src/viewmodel/GameStateViewModel.ts:13-15 | without a local player every player is an opponent |
| GameStates.CurrentEvent | src/viewmodel/GameStateViewModel.ts:21-23 | the head of the event queue, null iff it is empty |
| GameStates.CurrentPlayer | src/viewmodel/GameStateViewModel.ts:17-19 | a player iff the current index is set and in range, and then one of the players |
| GameStates.PositionMap | src/viewmodel/GameStateViewModel.ts:44-54 | my seat is always in the table, and for player counts other than 2, 3, 4 it is the only entry |
| GameStates.PositionMapIsBijection | src/viewmodel/GameStateViewModel.ts:44-54 | with 2 to 4 players the table maps seats 0..n-1 one-to-one onto positions 0..n-1, sends my seat to 0, and seat+1, seat+2, seat+3 to 2, 1, 3 (to 1 with two players) |
| GameStates.SeatTable | src/viewmodel/GameStateViewModel.ts:44-54 | a table with those entries and inverses is a seat table |
| GameStates.SeatToPositionMapping | src/viewmodel/GameStateViewModel.ts:37-57 | fails iff there is no local player; otherwise puts my seat at 0 and, for 2 to 4 players, is a seat table |
| GameStates.NextPlayerIndex | src/games/dominoes/controller/GameStateController.ts:37-38 | the next index wraps from the last seat to 0 and reads null as 0; it fails with NaN iff there are no seats |
| GameStates.ProcessTurn | src/games/dominoes/controller/GameStateController.ts:28-39 | a turn succeeds iff there are seats and the tile, if any, goes on the board; the board changes only by that tile, the turn always passes on, and nothing else changes |
| GameStates.PassesRotateTurn | src/games/dominoes/controller/GameStateController.ts:28-39 | k passes in a row move the turn k seats on, wrapping around |
| GameStates.PassOnce | src/games/dominoes/controller/GameStateController.ts:28-39 | a pass moves the turn one seat on and changes nothing else |
| GameStates.FullRoundOfPasses | src/games/dominoes/controller/GameStateController.ts:28-39 | a full round of passes returns the state unchanged |
| GameStates.TurnGoesToASeatedPlayer | src/games/dominoes/controller/GameStateController.ts:37-38 | with one seat per player, the turn always passes to a player who is there: the next one, or the first after the last |
| GameStates.TotalScoreUpdate | src/games/dominoes/controller/GameStateController.ts:41-46 | replacing one player changes the total score by the difference |
| GameStates.ProcessScore | src/games/dominoes/controller/GameStateController.ts:41-46 | fails iff nobody sits in the seat; otherwise only the first player there gains the score, the total rises by it, and nothing else changes |
| GameStates.SetQueryType | src/games/dominoes/controller/GameStateController.ts:48-54 | succeeds iff the query is MOVE, records it and changes nothing else; otherwise an invalid query type error |
| GameStates.AddPlayer | src/games/dominoes/controller/GameStateController.ts:15-17 | the player joins the end of the seat list |
| GameStates.AddPlayerExtendsOpponents | src/games/dominoes/controller/GameStateController.ts:15-17 | a joining player is appended to the opponents unless they are the local player |
| GameStates.AddPlayerKeepsMe | src/games/dominoes/controller/GameStateController.ts:15-17 | joining never changes the local player once there is one; before that, a joining local player becomes Me |
| GameStates.Start | src/games/dominoes/controller/GameStateController.ts:19-21 | the game is started and nothing else changes |
| GameStates.SetCurrentPlayerIndex | src/games/dominoes/controller/GameStateController.ts:56-58 | the index is set and nothing else changes |
| GameStates.Finish | src/games/dominoes/controller/GameStateController.ts:23-26 | the game is over with the winner recorded, and nothing else changes |
| GameStates.HiddenHand | src/games/dominoes/controller/GameStateController.ts:63-68 | a hidden hand has as many tiles as _.range gives (the size's magnitude), all (-1,-1) |
| GameStates.Deal | src/games/dominoes/controller/GameStateController.ts:61-70 | every opponent gets the hand and the local player is untouched |
| GameStates.InitializeOpponentHands | src/games/dominoes/controller/GameStateController.ts:60-71 | every opponent's hand becomes the hidden hand, the local player and everything else unchanged |
| GameStates.DealtOpponents | src/games/dominoes/controller/GameStateController.ts:60-71 | dealing keeps the opponents in order and gives each the hand |
| GameStates.OpponentsHoldHiddenHands | src/games/dominoes/controller/GameStateController.ts:60-71 | afterwards every opponent, in the same seat, holds exactly hand-size hidden tiles |
| GameStates.ClearBoard | src/games/dominoes/controller/GameStateController.ts:73-75 | the board is empty with no spinner and nothing else changes |
| GameStates.AddLog | src/games/dominoes/controller/GameStateController.ts:77-79 | the line is appended to the log and nothing else changes |
| GameStates.AddEvent | src/games/dominoes/controller/GameStateController.ts:81-83 | the event joins the end of the queue and nothing else changes |
| GameStates.ClearEvent | src/games/dominoes/controller/GameStateController.ts:85-89 | the front event goes, an empty queue is a no-op, and nothing else changes |
| GameStates.EventQueueIsFifo | src/games/dominoes/controller/GameStateController.ts:81-89 | adding does not change the current event of a non-empty queue, and adding commutes with clearing |
| GameStates.ClearingWalksTheQueue | src/games/dominoes/controller/GameStateController.ts:85-89 | clearing k times drops the first k events, and the current event is then the k-th |
| GameViewStates.NewViewState | src/games/dominoes/view/GameViewState.ts:26-36 | a new view state has the given game state, no winner, no query, and empty logs and events |
| GameViewStates.IndexToViewPosition | src/games/dominoes/view/GameViewState.ts:62-85 | null iff there is no game state; otherwise my index is at position 0 |
| GameViewStates.ViewPositionsMatchSeatPositions | src/games/dominoes/view/GameViewState.ts:73-82 | the view's table is the game state's seat table for the same seat and player count, so with 2 to 4 players it is one-to-one |
| GameViewStates.AddLog | src/games/dominoes/view/GameViewState.ts:111-113 | the line is appended to the log and nothing else changes |
| GameViewStates.AddEvent | src/games/dominoes/view/GameViewState.ts:115-116 | the event joins the end of the queue and nothing else changes |
| GameViewStates.WithoutId | src/games/dominoes/view/GameViewState.ts:119 | the events kept are exactly those with another id |
| GameViewStates.ExpireEvent | src/games/dominoes/view/GameViewState.ts:117-122 | the expiry removes every event with the id, wherever it is in the queue, and nothing else changes |
| GameViewStates.AddThenExpire | src/games/dominoes/view/GameViewState.ts:115-123 | an event added under a fresh id and then expired leaves the view as it was |
| GameViewStates.ClearEventAsWritten | src/games/dominoes/view/GameViewState.ts:125-127 | as written, clearing drops the first log line and leaves the events alone |
| GameViewStates.ClearEventAsWrittenKeepsTheEvent | src/games/dominoes/view/GameViewState.ts:125-127 | with one event and one log line, clearing as written leaves the event and empties the log |
| GameViewStates.ClearEvent | src/games/dominoes/view/GameViewState.ts:125-127 | corrected: the front event goes, an empty queue is a no-op, and the log is kept |
| GameViewStates.ClearEventAgreesWithController | src/games/dominoes/controller/GameStateController.ts:85-89 | the corrected view clearing removes the same event the controller's ClearEvent removes |
| GameViewStates.LogAndQueueAgreeWithGameState | src/games/dominoes/view/GameViewState.ts:111-127 | from the same log and queue, the view's AddLog, AddEvent and corrected ClearEvent give the game state's log and queue |
| GameViewStates.SetQueryType | src/games/dominoes/view/GameViewState.ts:129-131 | the query type is recorded and nothing else changes |
| GameViewStates.UpdateGameState | src/games/dominoes/view/GameViewState.ts:133-135 | the masked game state is replaced and nothing else changes |

## Left out

- JSX rendering, CSS-grid offsets, pip drawing, drag-and-drop hooks, socket listeners and all network I/O: presentation and I/O.
- The expiry timer of `GameViewState.AddEvent`: its delay is a clock. The callback it schedules is modelled as `GameViewStates.ExpireEvent`.
- Pixel sizes are exact reals rather than IEEE doubles, so float rounding in `gridSquarePixelSize` and in the floors is not modelled.
- `generateId` and other randomness: the source of ids is a parameter.
- `PlayableDominoesForPlayer` (src/viewmodel/GameStateViewModel.ts:31-35) returns null or falls off its end, so it never yields a value, and there is nothing to state.
- The `BoardDominoViewModel` accessors (`Face1`, `Face2`, `X`, `Y`, `IsDouble`, `ContainsNumber`): they are the datatype fields `domino.head`, `domino.tail`, `location.x`, `location.y` and the predicates `IsDouble` and `HasFace` themselves.
- `MaskedGameState` keeps only the local seat index and the seat count, the two fields the modelled code reads.
- MobX-State-Tree does not roll back a failed action. A failed action in the model produces no state at all, so partial updates before a throw are not modelled.
- `QueryType` is `Move` or any other named value. `GameEventType` is kept as a string.
- Games-common `Domino`, `Board`, `IsDouble`, `HasFace` and `Equals` are not part of this model. They are modelled from their uses: faces (head, tail), equality of both fields, and doubles as equal faces. `rotateDirectionCounterClockwise` is modelled as the inverse of the clockwise rotation, with NONE mapped to NONE.
- `LegacyView.AttemptOnGrid`: the model does not prove that the older engine's bend never meets a missing pivot. Its crash is kept as a possible `MissingPivot` outcome instead.
- `RenderedBoards.CloseSpanOfBuiltBoard`: the 22-by-24 bound is proved for boards built by `GetRenderedRepresentation`, not for arbitrary rendered boards.
- `Layout.BoardViewLayout`: for a negative width, which neither game view passes (both pass 70% of the window width), the outcome is not stated. Only the general contract of `Layout.LayoutDominoes` applies to it.
- `LegacyView.LayoutDominoes`: for the negative heights the game view can pass, the older engine's outcome is not worked out. Its contract holds there, but it states no more than it does for a positive area.
- DropRules.IsFurthestInArm, DropRules.IsEastEndOfRow, DropRules.IsWestEndOfRow: `IsFurthestDominoInArm` and `IsFurthestDominoInInitialRow` are imported by src/games/dominoes/view/game/BoardView.tsx:16-17, but their bodies are not part of this model. They are read by position: the last tile of a non-empty arm, and the last or first tile of a non-empty row. That is the only reading under which the callers' `_.last(...).domino` never dereferences an empty list.
- RenderedBoards.IsFurthestNorthDomino, RenderedBoards.IsFurthestEastDomino, RenderedBoards.IsFurthestSouthDomino, RenderedBoards.IsFurthestWestDomino: on a spun board with an empty arm the source calls `Equals(d, undefined)`. The games-common `Equals` is not part of this model, and that comparison is assumed to return false rather than throw.
- `GameStates.NextPlayerIndex`: a non-integer current index (which the integer field refuses) is not modelled.

## Findings

| source | as written | input that shows it | evidently intended | confidence | as-written member | corrected member |
|---|---|---|---|---|---|---|
| src/games/dominoes/view/game/RenderedBoard.ts:478-480 | the double correction of a bend is keyed to the tile being bent (`IsDouble(dominoToBend.domino)`) | spinner (6,6) with east arm (6,1),(1,1): the bent double lands two squares below its pivot, leaving a gap | keyed to the tile bent around, as the comment at src/games/dominoes/view/BoardView.tsx:93 says and as the older engine does at src/games/dominoes/view/BoardView.tsx:395-396; then the first bent tile always abuts its pivot | medium; not executed | RenderedBoards.BentTileRuleLeavesGap | RenderedBoards.PivotRuleBendAbutsPivot |
| src/games/dominoes/view/GameViewState.ts:125-127 | `ClearEvent` shifts the log array, not the event queue | one event and one log line: the event stays on screen and the log line is lost | remove the front event, as GameStateController.ClearEvent does at src/games/dominoes/controller/GameStateController.ts:85-89 | high; not executed | GameViewStates.ClearEventAsWritten, GameViewStates.ClearEventAsWrittenKeepsTheEvent | GameViewStates.ClearEvent |
