# Line-claiming colouring game: a Dafny model

This project models the core of a grid colouring game. Teams paint the cells of a board of catalogue items. Each painted cell can claim "winning lines": straight runs of three same-coloured cells. A team whose colour holds three lines wins.

The model covers five parts:

- **Board generator** (`BoardGenerator`). `createBoard` deals a shuffled, doubled item catalogue onto a rows × cols grid in row-major order. It pads with an empty placeholder item once the pool runs out.
- **Line detector** (`LineDetector`, `LineProperties`, `LineExamples`). `checkWinningLines` takes a just-coloured cell and scans four directions in order: right, down, down-right and down-left. In each direction it walks back at most 10 steps to the start of the same-coloured run, then forward over at most 10 cells. It tests every window of `minLength` consecutive cells, in ascending order, against the lines claimed so far. A window is refused when it meets an earlier line of the same colour and direction in more than one cell, or in one cell that is not a tip-to-tip junction.
  - The procedure is a method with four loops. It is proved equal to recursive specification functions, and the lemmas are stated about those functions.
- **Session** (`GamePage`). The page's state is the board, the teams, whose turn it is, the claimed lines, the winner and the win dialog flag.
  - `handleCellUpdate` writes one cell. When a colour is given, it recomputes the lines with minLength 3, counts lines per colour, lets every colour with at least 3 lines and a team overwrite the winner, and rotates the turn unless a winner was already set.
  - `resetGame` deals a new board, keeps the teams, and clears the lines, the winner, the turn and the dialog.
- **Board component** (`GameBoard`). A cell is locked when a claimed line contains it. Clicks toggle the selection, except that clicks on locked cells are ignored. The colour and reset actions hand the selected cell to the page and close the menu.
- **Wiring** (`GameWiring`). This connects the two. Locked cells cannot be selected, so every cell of every claimed line keeps its line's colour for as long as the line stands.

Main results:

- The detector only appends.
- Every appended line is a straight window of minLength on-board cells of the colour.
- Lines of one colour and direction overlap only tip to tip. The test's filter-and-count rule is proved equivalent to that statement.
- Re-running the detector adds nothing.
- One call adds at most 4 · (11 − minLength) lines.
- On boards of at most 10 × 10, the run scanned in each direction contains the clicked cell.
- A five-cell worked example is computed in full.
- The colour count is correct.
- The winner is the team of the last qualifying colour.

Every qualifying colour calls `setWinner` in turn, so the last one in the count's key order wins (page.tsx:68-77).

## Model

| member | source | states |
|---|---|---|
| `BoardGenerator.CreateBoard` | src/utils/gameLogic.ts:7-26 | The result has `rows` rows of `cols` cells each. Cell (i, j) holds pool item i·cols+j, or the placeholder past the pool's end. Every cell has no colour and is unlocked. |
| `BoardGenerator.BoardSupply` | src/utils/gameLogic.ts:10-22 | When the pool is a permutation of items ++ items, cells past index 2·\|items\| hold the placeholder. No item lands on more cells than twice its multiplicity in the catalogue, and exactly that many when the board is large enough. |
| `BoardGenerator.RowMajorIsDeal` | src/utils/gameLogic.ts:13-18 | Reading the dealt board row by row gives the pool followed by placeholders. |
| `LineDetector.CheckWinningLines` | src/utils/gameLogic.ts:28-146 | The four-direction loop returns exactly `WinningLines`, the specification function that the lemmas below are about. |
| `LineDetector.WalkBack` | src/utils/gameLogic.ts:47-61 | The backward walk's loop ends at `RunStart`: at most 10 steps against the direction, through on-board cells of the colour. |
| `LineDetector.WalkForward` | src/utils/gameLogic.ts:63-80 | The forward walk's loop collects exactly `RunFrom`: the cells of the colour along the direction, at most 10. |
| `LineDetector.TestWindows` | src/utils/gameLogic.ts:84-142 | The window loop appends exactly what `AcceptWindows` appends. Each window is examined in ascending order against the growing list. |
| `LineDetector.RunFrom` | src/utils/gameLogic.ts:67-80 | The collected run never has more cells than the step budget (10). |
| `LineDetector.Compatible` | src/utils/gameLogic.ts:90-136 | The `every` callback refuses a window only next to a line of the same colour whose sign direction is the scan direction's and which shares a cell with the window. When it accepts such a line, they share at most one cell. |
| `LineDetector.Common` | src/utils/gameLogic.ts:108-112 | The filter keeps exactly the window's cells that lie on the existing line, and is no longer than the window. |
| `LineDetector.Window` | src/utils/gameLogic.ts:86 | `slice(i, i + minLength)` has minLength cells, and cell t is run cell i + t. |
| `LineDetector.AcceptWindows` | src/utils/gameLogic.ts:85-141 | The window loop only appends to its list. It adds at most one line per window, and keeps every line of the colour non-empty. |
| `LineDetector.ScanDirections` | src/utils/gameLogic.ts:43-145 | Scanning the directions only appends to the list. |
| `LineDetector.Sign` | src/utils/gameLogic.ts:99-103 | `Math.sign`: 0, 1 or −1 exactly as the argument is zero, positive or negative. |
| `LineProperties.RunFromShape` | src/utils/gameLogic.ts:64-80 | The forward walk yields a run that starts at the walk's start. Consecutive cells are one step apart along the direction, and every cell is on the board with the colour. |
| `LineProperties.RunDistinct` | src/utils/gameLogic.ts:36-41 | Along any of the four directions a run never repeats a cell. |
| `LineProperties.RunSignDir` | src/utils/gameLogic.ts:97-103 | For a run of two or more cells, the sign direction from its first to its last cell is the scan direction's sign. |
| `LineProperties.CompatibleIff` | src/utils/gameLogic.ts:90-136 | For a window and a line of its colour pointing the same way, the callback accepts exactly when they share no cell, or exactly one cell that is the window's first and the line's last, or the window's last and the line's first. |
| `LineProperties.AcceptWindowsShape` | src/utils/gameLogic.ts:85-86 | Every line the window loop appends is one of the run's windows, in the scanned colour. |
| `LineProperties.AcceptWindowsChecked` | src/utils/gameLogic.ts:90-141 | Every appended line passed the test against every line before it in the list, including lines appended earlier in the same call. |
| `LineProperties.WindowOfRun` | src/utils/gameLogic.ts:86 | A window of a run is a run along the same direction, made of the run's cells. |
| `LineProperties.ScanDirectionSound` | src/utils/gameLogic.ts:45-142 | Every line one direction appends is a sound claim: it has the colour and minLength on-board cells of the colour, lies along the direction, and passed the test. |
| `LineProperties.ScanDirectionsSound` | src/utils/gameLogic.ts:45-143 | The same holds for every line appended by the remaining directions. |
| `LineProperties.WinningLinesSound` | src/utils/gameLogic.ts:28-146 | The existing lines are an unchanged prefix of the result. Every appended line has the colour and exactly minLength cells, all on the board and of that colour, consecutive one direction-step apart. It passed the test against all lines before it. |
| `LineProperties.ClaimedChains` | src/utils/gameLogic.ts:90-136 | A claimed window of two or more cells overlaps any earlier line of its colour and sign direction only tip to tip. |
| `LineProperties.ChainPreserved` | src/utils/gameLogic.ts:28-146 | With minLength ≥ 2: if the given lines of each colour and direction overlap only tip to tip, so do the returned lines. |
| `LineProperties.SelfBlocks` | src/utils/gameLogic.ts:108-122 | A window of two or more cells is refused next to the line made of itself. |
| `LineProperties.ClashGrows` | src/utils/gameLogic.ts:90 | A window refused by some line is still refused once more lines are appended. |
| `LineProperties.AcceptWindowsBlocks` | src/utils/gameLogic.ts:85-141 | After the window loop, every window it examined clashes with some line of the result. |
| `LineProperties.AcceptWindowsStable` | src/utils/gameLogic.ts:85-141 | When every remaining window clashes, the window loop appends nothing. |
| `LineProperties.ScanDirectionsBlocks` | src/utils/gameLogic.ts:45-143 | After the scan, every window of every scanned run clashes with the result. |
| `LineProperties.ScanDirectionsStable` | src/utils/gameLogic.ts:45-143 | When every window of every run clashes, the scan appends nothing. |
| `LineProperties.WinningLinesIdempotent` | src/utils/gameLogic.ts:28-146 | With minLength ≥ 2, running the detector again on its own result, for the same board and cell, returns that result unchanged. |
| `LineProperties.ScanDirectionBound` | src/utils/gameLogic.ts:67-85 | One direction appends at most 11 − minLength lines (none if minLength > 10). |
| `LineProperties.ScanDirectionsBound` | src/utils/gameLogic.ts:45-143 | The remaining directions append at most that many lines each. |
| `LineProperties.WinningLinesBound` | src/utils/gameLogic.ts:36-143 | One call appends at most 4 · (11 − minLength) lines, and none when minLength exceeds 10. |
| `LineProperties.RunStartWalk` | src/utils/gameLogic.ts:47-61 | The backward walk stops at a cell from which `BackSteps` forward steps through enterable cells lead back to the clicked cell. |
| `LineProperties.WalkInRun` | src/utils/gameLogic.ts:64-80 | The forward walk passes every enterable cell that fewer steps than its budget reach. |
| `LineProperties.ClickedOnRun` | src/utils/gameLogic.ts:47-80 | On a board of at most 10 rows and 10 columns, a clicked cell that has the colour lies on the run scanned along each direction. |
| `LineExamples.FiveRunHorizontal` | src/utils/gameLogic.ts:47-80 | A row of five red cells clicked in the middle: the horizontal run is all five cells, from the left end. |
| `LineExamples.MiddleRefused` | src/utils/gameLogic.ts:119-122 | The window starting at 1 shares two cells with the window at 0, so it is refused. |
| `LineExamples.LastAccepted` | src/utils/gameLogic.ts:124-135 | The window at 2 shares only its first cell, which is the last cell of the window at 0, so it is accepted. |
| `LineExamples.FiveInARow` | src/utils/gameLogic.ts:28-146 | Five red cells in a row with minLength 3 and no lines: the result is exactly the windows at 0 and 2. |
| `GamePage.Truthy` | src/app/page.tsx:56 | `if (color)` and `if (!winner)` on an optional string: truthy exactly when the string is given and non-empty. |
| `GamePage.Paint` | src/app/page.tsx:48-53 | Only cell (row, col) changes. It takes the given colour (none when clearing) and keeps its item and lock flag. |
| `GamePage.Bump` | src/app/page.tsx:63 | One step of the `reduce` counts one more line in all. The colour is a key afterwards, and at most one key is added. |
| `GamePage.CountColors` | src/app/page.tsx:62-65 | The `reduce`'s counts add up to the number of lines, and there are no more keys than lines. |
| `GamePage.BumpKeys` | src/app/page.tsx:63 | `counts[c] = (counts[c] \|\| 0) + 1` keeps the keys when c is already one, and otherwise adds c last. |
| `GamePage.BumpCounts` | src/app/page.tsx:63 | With distinct keys, that step increments exactly the entry of c, or adds it with count 1. |
| `GamePage.CountColorsCorrect` | src/app/page.tsx:62-65 | The `reduce` count's keys are the lines' colours, each once, in order of first appearance. Each key's count is the number of lines of that colour. |
| `GamePage.FindTeam` | src/app/page.tsx:71 | `teams.find`: none exactly when no team has the colour; otherwise the first team that has it. |
| `GamePage.DeclaredWinner` | src/app/page.tsx:68-77 | After the forEach, the winner is the one before it or the name of the first team with the colour of some qualifying entry. |
| `GamePage.SelectWinner` | src/app/page.tsx:68-77 | The forEach loop leaves the winner `DeclaredWinner` leaves. It opens the dialog exactly when some entry reaches 3 and some team has its colour. |
| `GamePage.WinnerUnchanged` | src/app/page.tsx:68-77 | With no qualifying entry, the winner is unchanged. |
| `GamePage.WinnerIsLastQualifying` | src/app/page.tsx:68-77 | Otherwise the winner is the name of the first team with the colour of the last qualifying entry. |
| `GamePage.WinnerAnnouncedIff` | src/app/page.tsx:62-76 | A move announces a winner exactly when some colour has at least 3 lines and some team has that colour. |
| `GamePage.NextTurn` | src/app/page.tsx:81 | `(currentTeam + 1) % teams.length` is the next index, wrapping to 0 after the last. |
| `GamePage.ScoreMove` | src/app/page.tsx:56-77 | Recomputing with minLength 3 returns `WinningLines` of the previous lines, which it extends. The result keeps three-cell lines overlapping only tip to tip. The winner and the dialog flag are those of the colour count. |
| `GamePage.LinesKeepLength` | src/app/page.tsx:57 | After recomputation with minLength 3, every line still has three cells. |
| `GamePage.Session.constructor` | src/app/page.tsx:31-45 | Mounting gives the three default teams, turn 0, no lines, no winner, and a board dealt by createBoard with 8 rows and 10 columns. |
| `GamePage.Session.HandleCellUpdate` | src/app/page.tsx:47-83 | The board is painted at (row, col). With a truthy colour, the lines become `WinningLines` with minLength 3 of the previous lines, and the winner and dialog follow the colour count; otherwise lines and winner are unchanged. Lines only grow. The turn rotates exactly when the pre-move winner is unset or empty. The session invariant is kept. |
| `GamePage.Session.ResetGame` | src/app/page.tsx:85-92 | A freshly dealt 8 × 10 board, no lines, no winner, turn 0, dialog closed, teams kept. |
| `GamePage.Session.SetTeams` | src/app/page.tsx:100 | The team editor's update replaces the teams, with the same count, and leaves the rest of the state unchanged. |
| `GameBoard.InCells` | src/components/GameBoard.tsx:93 | `cells.some(...)` is true exactly when the coordinate is one of the cells. |
| `GameBoard.IsCellInWinningLine` | src/components/GameBoard.tsx:91-95 | A cell is locked exactly when some claimed line contains it. |
| `GameBoard.LocksPersist` | src/components/GameBoard.tsx:91-95 | Appending lines never unlocks a cell. |
| `GameBoard.Selection.constructor` | src/components/GameBoard.tsx:21 | Nothing is selected at first. |
| `GameBoard.Selection.HandleCellClick` | src/components/GameBoard.tsx:44-70 | A locked cell leaves the selection unchanged. Clicking the selected cell clears it. Clicking any other cell selects it. |
| `GameBoard.Selection.HandleColorSelect` | src/components/GameBoard.tsx:72-77 | With a selection, it hands over the update (row, col, colour) and clears the selection; without one, it does nothing. |
| `GameBoard.Selection.HandleReset` | src/components/GameBoard.tsx:79-84 | With a selection, it hands over the update (row, col, undefined) and clears the selection; without one, it does nothing. |
| `GameBoard.Selection.HandleMenuClose` | src/components/GameBoard.tsx:86-89 | The selection is cleared. |
| `GameWiring.PaintKeepsLines` | src/components/GameBoard.tsx:46 | Writing an unlocked cell leaves every claimed line's cells in the line's colour. |
| `GameWiring.NewLinesPainted` | src/app/page.tsx:57 | Lines the recomputation appends are painted in their colour on the board it scanned. |
| `GameWiring.Game.constructor` | src/app/page.tsx:31-45 | The combined state starts valid. The session is mounted as `Session.constructor` gives it: a board dealt 8 × 10 from the pool, the default teams, turn 0, no lines, no winner, dialog closed. Nothing is selected. |
| `GameWiring.Game.ClickCell` | src/components/GameBoard.tsx:44-70 | A click on a board cell keeps the invariant. A locked cell leaves the selection unchanged. Otherwise the click clears the selection when the cell was selected, and selects the cell when it was not. |
| `GameWiring.Game.ChooseColor` | src/components/GameBoard.tsx:72-77 | Picking a colour keeps every claimed line painted and clears the selection. Without a selection the session is unchanged. With one, the session changes as `handleCellUpdate` with that colour changes it: the cell is painted, and for a non-empty colour the lines become `WinningLines` with minLength 3 of the previous lines, with the winner and dialog following the colour count. The turn rotates unless a winner was already set, and the teams are kept. |
| `GameWiring.Game.ClearCell` | src/components/GameBoard.tsx:79-84 | Clearing keeps the invariant and clears the selection. Without a selection the session is unchanged. With one, the cell loses its colour, and lines, winner, dialog and teams are unchanged. The turn rotates unless a winner was already set, as `handleCellUpdate` does with no colour. |
| `GameWiring.Game.CloseMenu` | src/components/GameBoard.tsx:86-89 | Closing the menu clears the selection and keeps the invariant. |
| `GameWiring.Game.Restart` | src/app/page.tsx:85-92 | Starting over keeps the invariant. It gives a board freshly dealt 8 × 10 from the pool, no lines, no winner, turn 0 and the dialog closed, and keeps the teams. |

## Left out

- **The shuffle.** `Math.random` in the shuffle comparator is not modelled. The shuffled pool is a parameter, required to be some permutation of the catalogue written twice.
- **View code.** Rendering is not modelled: the JSX, the menu position and DOM geometry, the resize handler, and `calculateBoardSize`. The same goes for `console.log`, the team editor, the board setup dialog and the translations. Their only effect on the core is `setTeams`, which is modelled as `Session.SetTeams` with the team count kept, since the editor only renames and recolours.
- **The win dialog's buttons.** These are page.tsx:110-126. They are not modelled, except that its "play again" path is `Game.Restart`.
- **React batching.** Each handler is modelled as one atomic update from the state of the render it was created in. This is why the turn rotation reads the pre-move winner.
- **Object key order.** `Object.entries` lists integer-like keys first, and a plain object also inherits keys such as `constructor`. The model treats the count as insertion-ordered, distinct ordinary keys, which is what hex colour strings give.
- `LineDetector.CheckWinningLines`: requires minLength ≥ 1 and non-empty existing lines of the scanned colour. Otherwise a window of the scanned colour can be compared with an empty line of that colour. `existingLine.cells[0]` is then undefined, and reading `lastCell.row` throws a TypeError (gameLogic.ts:97-99). This happens only when such a window is reached and no earlier line in the list has already refused it, because `every` stops at the first refusal. That error path is not modelled. It also requires the clicked row to be a row of the board.
- `GamePage.Session.HandleCellUpdate`: requires (row, col) to be a cell of the board, which is the only kind of cell the board component passes. With an out-of-range row the source throws, and with an out-of-range column it grows the row with a hole. Neither is modelled.
- `LineProperties.ClickedOnRun`: is stated only for boards of at most 10 × 10, such as the page's 8 × 10. On a larger board the back walk can use up its 10 steps, and the forward walk then stops short of the clicked cell.
- `LineProperties.WinningLinesIdempotent`: is stated for minLength ≥ 2. With minLength 1, a window never clashes with the single-cell line made of itself.
- `GameWiring.Game.ClickCell`: only board cells are clicked, because the buttons exist only for cells of the board.
