# Candy crush clone: the match-and-gravity engine

This project models the engine of the `App` component in `src/App.js`. The engine
works on an 8×8 board held as one flat array of 64 cells. Each cell holds one of six
candy colours or the `blank` image. A score counter sits beside the board.

- **Checks.** `checkForColumn(n, last)` and `checkForRow(n)` scan the start cells in
  ascending order. At the first start whose run of `n` cells all equal the start cell,
  a check blanks that run, adds `n` (column) or `10 * n` (row) to the score and
  returns true.
- **Gravity.** `moveIntoSquareBelow` is one pass over the starts 0..54. It refills a
  blank top-row cell with a random colour. It then moves the cell's token down when the
  cell below is blank.
- **Turn.** `dragEnd` swaps two cells and runs the six tier checks in a fixed order. It
  keeps the result when the target is not cell 0, is one step away by index arithmetic,
  and some check matched. Otherwise it writes the two pre-swap tokens back.
- **Tick.** One firing of the interval timer runs the six checks, then one gravity pass.
- **Setup.** `createBoard` fills the 64 cells from the palette.

The modules follow that structure:

- `Grid` (`grid.dfy`) defines tokens, the board size and out-of-range reads.
- `Matching` (`matching.dfy`) states the checks as functions of the board.
- `Gravity` (`gravity.dfy`) states the gravity pass as a fold of its loop body.
- `Session` (`session.dfy`) states the six checks, the turn and the tick.
- `App` (`app.dfy`) holds the class `Game`. Its fields are the board as an
  `array<Token>`, the score and the notification. Its methods do the in-place work
  and are proved equal to the functions above.

The code is modelled as written, in these places in particular:

- A run of blank cells matches like any other run, because nothing tests for `blank`.
- The extra row exclusions for runs of four and five are pushed as one nested array
  each. `includes` never finds a number in a nested array, so they have no effect.
  Runs of four and five can therefore wrap from one row into the next.
- A read past cell 63 yields `undefined`, which equals no token.
- Adjacency is `r ∈ {d-1, d-8, d+1, d+8}` with no row-edge test, so cells 7 and 8 count
  as neighbours.
- Cell 0 is never accepted as a target, because the id 0 is falsy.
- A rejected turn restores only the two swapped cells. The blanks and points produced
  by the six checks stay.

A turn and a tick therefore behave as follows:

- Adjacency wraps across rows.
- A non-adjacent swap still runs all six checks, and their blanks and points stay
  after the two cells are restored.
- One tick runs one round of checks and one gravity pass. Matching does not repeat
  until the board is stable; later ticks pick up what is left.
- The column checks run before the row checks of the same length, and the checks of
  five before those of four and three. A board on which a swap forms both a column of
  five and a longer row therefore clears the column first.

Randomness is a parameter. `Math.random` becomes a caller-supplied colour:

- for each top-row cell in a gravity pass (`refill`);
- for each cell when the board is created (`colours`).

## Model

| member | source | states |
|---|---|---|
| Matching.FirstColumnFrom | src/App.js:29-43 | The result is the smallest start in `[i, last]` whose column run of `n` cells all read the start cell's token; `None` means no start in that range qualifies. |
| Grid.CellAt | src/App.js:38 | Reading cell `k` yields a token exactly when `k` is in `[0, 64)`, and then the cell's token. Past either end it yields nothing, as JavaScript's `undefined`, which equals no token. |
| Matching.ColumnQualifies | src/App.js:31-38 | A qualifying column run of `n` cells from `i` lies wholly on the board, and each of its squares `i + 8y` holds the token of cell `i`. |
| Matching.ClearColumn | src/App.js:40 | Clearing keeps the length and blanks every on-board square `s + 8y`, `y < n`. Every cell that changes becomes blank and is one of those squares. |
| Matching.ColumnRunIsColumnSquares | src/App.js:34-36 | The cells a column clear blanks are exactly the squares `i + 8y` for `y < n` that the source pushes. |
| Matching.NotValidIndexes | src/App.js:47-49 | The list holds the sixteen base indices in order, then one extra element for `n >= 4` and one more for `n == 5`, each a nested array rather than an index. |
| Matching.RowQualifies | src/App.js:52-60 | A qualifying row start is not a base exclusion. Its run of `n` cells `i + y` lies wholly on the board, and each cell holds the token of cell `i`. |
| Matching.ClearRow | src/App.js:62 | Clearing keeps the length and blanks every on-board square `s + y`, `y < n`. Every cell that changes becomes blank and is one of those squares. |
| Matching.RowRunIsRowSquares | src/App.js:55-57 | The cells a row clear blanks are exactly the squares `i + y` for `y < n` that the source pushes. |
| Matching.ColumnWrappersStayOnBoard | src/App.js:68-70 | For the wrappers `(3, 47)`, `(4, 39)` and `(5, 31)`, every cell of a scanned column run is below 64. One start further would reach past the board. |
| Matching.FirstRowFrom | src/App.js:46-65 | The result is the smallest start in `[i, 64)` that is not excluded and whose row run of `n` cells all read the start cell's token; `None` means none qualifies. |
| Matching.NestedExclusionsIgnored | src/App.js:47-49 | For every `n`, `includes(i)` on the built list holds exactly for the sixteen base indices; the pushed nested arrays never match. |
| Matching.BaseExclusionsAreRowEnds | src/App.js:47 | The base list is exactly the last two columns of rows 0-6, plus 63 and 64. |
| Matching.RowOfThreeStaysInRow | src/App.js:47-60 | A qualifying row run of three never crosses a row edge. |
| Matching.LongerRowsWrap | src/App.js:48-60 | On a uniform board, a row of four qualifies at start 5 and rows of five at starts 4 and 13. Each of these runs wraps into the next row. |
| Matching.TierCheck | src/App.js:29-66 | A check adds the tier's weight (`n` for a column, `10n` for a row) exactly when it reports a match. When it reports none, the board is unchanged. |
| Matching.TierCheckFirstMatch | src/App.js:30-63 | When `s` is the smallest qualifying start, the check blanks exactly the run at `s`, leaves every other cell alone, adds the weight and returns true. |
| Matching.TierCheckNoMatch | src/App.js:30-65 | A check reports false exactly when no start qualifies, and then leaves board and score unchanged. |
| Matching.BlankRunsMatch | src/App.js:31-60 | Three blank cells at the top of column 0 are matched, cleared and scored (3) by the column-of-three check. Three at the start of row 0 are matched, cleared and scored (30) by the row-of-three check. |
| Matching.LongerRunHasRunOfThree | src/App.js:34-60 | A qualifying run of four or five contains a qualifying run of three at the same start. |
| Gravity.DropStep | src/App.js:78-88 | One loop iteration keeps the length and writes no cell other than `i` and `i + 8`. |
| Gravity.GravityPass | src/App.js:75-90 | One pass over starts 0..54 keeps the length. On a board without blanks it changes nothing. |
| Gravity.DropStepWrites | src/App.js:78-88 | Step `i` fills `i + 8` only if that cell was blank, with the token `i` held. Cell `i` ends blank, or holds the drawn colour only if it is a blank top-row cell. |
| Gravity.DropStepTokens | src/App.js:80-88 | A step keeps the multiset of tokens. The exception is a refill, which turns one blank into the drawn colour. |
| Gravity.NewTokensDrawn | src/App.js:76-83 | A pass draws at most one colour per top-row start, taken from the first eight refill colours, and never a blank. |
| Gravity.GravityConservesTokens | src/App.js:76-89 | After `k` steps, the board's tokens plus one blank per draw equal the old tokens plus the drawn colours. |
| Gravity.GravityNeverAddsBlanks | src/App.js:75-90 | A pass never increases the number of blank cells. |
| Gravity.GravityIdle | src/App.js:80-88 | On a board without blanks a pass changes nothing. |
| Gravity.UntouchedBetween | src/App.js:76-87 | The steps from `k1` to `k2 - 1` leave cell `j` alone when none of them starts at `j` or writes into it from above. |
| Gravity.BottomRowOnlyFillsBlanks | src/App.js:76-87 | A bottom-row cell changes in a pass only if it was blank. Cell 63 never changes, because the loop stops at 54. |
| Gravity.TokenFallsTwoRows | src/App.js:76-87 | Take a token with two blanks below it when its start is visited. Eight steps later it has fallen two rows and its old cell is blank. |
| Session.Swapped | src/App.js:100-101 | The swap puts the old token of `r` in `d` and that of `d` in `r`. Every other cell is kept. |
| Session.SwapKeepsTokens | src/App.js:100-101 | A swap keeps the multiset of tokens on the board. |
| Session.Adjacent | src/App.js:103-107 | Two ids are adjacent exactly when they differ by 1 or by 8, in either direction, with no row-edge test. |
| Session.SixChecks | src/App.js:109-114 | The six checks in the order col5, row5, col4, row4, col3, row3. The score rises exactly when some check matched and never falls. When none matched, the board is unchanged. |
| Session.NoLongerRunWithoutRunOfThree | src/App.js:68-73 | On a board with no run of three, no tier scan finds a run. |
| Session.SixChecksIdle | src/App.js:109-114 | On a board with no run of three, the six checks change nothing and all report false. |
| Session.Turn | src/App.js:100-127 | An accepted turn has target not 0 and adjacent to the dragged cell. The score never falls. |
| Session.RejectedTurnKeepsChecks | src/App.js:109-127 | The score is what the checks made it. A rejected turn restores cells `d` and `r` only and keeps the notification. Every other cell is as the checks left it. |
| Session.TurnVerdict | src/App.js:116-122 | A turn is accepted iff the target is not 0, is adjacent, and the checks raised the score. The notification is "Good job!" iff the turn was accepted with a five matched, or it was "Good job!" before. |
| Session.RestoringUndoesSwap | src/App.js:100-126 | Writing the two pre-swap tokens back undoes the swap. |
| Session.RowEdgeSwapAccepted | src/App.js:103-117 | Cells 7 and 8 lie on different rows, yet a swap from 7 to 8 that lets a check match is accepted. |
| Session.SwapWithoutRunReverts | src/App.js:100-127 | A swap that makes no run of three is rejected and leaves board, score and notification as before. |
| Session.Tick | src/App.js:147-153 | A tick never lowers the score. |
| Session.SettledTickIsIdle | src/App.js:147-153 | A tick on a board with no blank and no run of three changes neither board nor score. |
| App.CreateBoard | src/App.js:131-138 | It builds 64 cells, cell `i` holding the `i`-th drawn colour, none of them blank. |
| App.Game.constructor | src/App.js:23-27 | The game starts with the created board, score 0 and notification "Start!". |
| App.Game.EveryInColumn | src/App.js:34-38 | The result is true iff the column run at `i` qualifies. |
| App.Game.EveryInRow | src/App.js:55-60 | The result is true iff every cell of the row run at `i` reads the start cell's token. |
| App.Game.BlankColumn | src/App.js:40 | The board becomes the old board with the column run blanked. |
| App.Game.BlankRow | src/App.js:62 | The board becomes the old board with the row run blanked. |
| App.Game.CheckForColumn | src/App.js:29-44 | The loop leaves board, score and result equal to `TierCheck` of the column tier on the old board and score. |
| App.Game.CheckForRow | src/App.js:46-66 | The loop leaves board, score and result equal to `TierCheck` of the row tier on the old board and score. |
| App.Game.CheckAllTiers | src/App.js:109-114 | Board, score and the six results equal `SixChecks` of the old board and score. |
| App.Game.MoveIntoSquareBelow | src/App.js:75-90 | The in-place loop leaves the board equal to `GravityPass` of the old board. |
| App.Game.DragEnd | src/App.js:96-129 | Board, score, notification and verdict equal `Turn` of the old state. |
| App.Game.Conclude | src/App.js:116-127 | The turn is accepted exactly when `r` is not 0, the move is valid and some check matched. "Good job!" is set exactly when accepted with a five matched. A rejected turn writes the two pre-swap tokens back and nothing else; an accepted one leaves the board alone. |
| App.Game.SwapCells | src/App.js:100-101 | The returned tokens are the old tokens of `d` and `r`, and the board becomes `Swapped` of the old board. |
| App.Game.PutBack | src/App.js:125-126 | The replaced token is written back into `r`, then the dragged token into `d`. |
| App.Game.Tick | src/App.js:146-154 | Board and score equal `Session.Tick` of the old state, and the score does not fall. |

## Left out

- React rendering, JSX, the `ScoreBoard` component and the image imports are left out. They are display only; a token is an enum value.
- The `useState`, `useCallback` and `useEffect` plumbing is left out. So is the copy `setCurrentColorArrangement([...])` makes for re-rendering, which has the same contents. Score updates are queued functional updates that nothing reads during a turn or tick, so the model adds them directly.
- The 100 ms `setInterval` cadence is left out. A tick is a method the caller invokes.
- The `setTimeout` that clears the notification after 2000 ms is left out. This applies both at mount and after "Good job!". It is timer behaviour.
- Drag event handling, the DOM `getAttribute`/`parseInt` reads and the `NaN` or null-target paths are left out. `d` and `r` are required to be in `[0, 64)`. The swapped values are taken to be the pre-swap board cells.
- Clearing the drag state (`setSquareBeingDragged(null)`) on an accepted turn is left out. It is UI state.
- `Math.random` is left out. It is replaced by caller-chosen palette colours.
- The empty board before `createBoard` runs is left out. The board is required to have 64 cells.
- The `console.log` on click is left out.
