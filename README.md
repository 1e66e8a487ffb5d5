# Five-in-a-row on a 7×7 board, modelled in Dafny

This project models the game engine of `game.js`. Two players, 'X' and 'O',
place marks on a 7×7 grid, and the first to get five in a row along a
horizontal, vertical or diagonal line wins. 'X' always moves first. In
single-player mode, 'O' is played by a scripted opponent that tries five
finders in a fixed order:

1. a cell that wins at once;
2. a cell that blocks the other side;
3. the centre or a spot next to it;
4. a cell that makes four in a row;
5. any empty cell, in row-major order.

The engine keeps four pieces of state, all updated in place:

- the board;
- the player to move, `currentPlayer`;
- the list of moves played, `moveHistory`;
- the flag `gameOver`.

The model has two layers.

- **Pure specification.**
  - `Board`: cells, positions, and the 7×7 grid as a value.
  - `Lines`: the run counting behind `checkWin` and `countInARow`, as functions, with lemmas about them.
  - `Rules`: the game state as a `Snapshot` value.
    - `Play`, `PlaceAI`, `Undo` and `Restart` are the state transitions.
    - `Recorded` is the invariant tying the board to `moveHistory`: every recorded move sits on its own cell, holding its player, and every occupied cell is the cell of a recorded move.
  - `Policy`: the opponent's finders as pure functions.
    - `Scan` is the row-major search shared by the probing finders.
    - `AiChoice` is the cascade that tries the finders in turn.
- **Imperative engine** (`Engine.Game`).
  - A class whose fields are the source's globals: the board is an `array2`.
  - Every source function is a method with the source's loops and early exits.
  - Each method is proved against the pure layer. The ghost field `cells` holds the array's contents, and the class invariant `Valid()` is `Recorded` over `cells` and `moveHistory`.

The main results:

- **Undo.**
  - `undoMove` after a move that did not win restores the board, the history and the player to move.
  - Replaying the move that `undoMove` took back rebuilds the board and the history. When that move did not win and had handed the turn on, it also gives back the player to move.
- **Invariant.** `makeMove`, `undoMove`, `restartGame` and `makeAIMove` (when its cell is empty) keep the board/history invariant. Under that invariant, the board is exactly the replay of `moveHistory`.
- **`countInARow`** returns a value from 1 to 9: the best count over the four axes.
- **`checkWin`** is true exactly when `countInARow` for the player to move reaches 5. The line it builds:
  - starts at the probed cell;
  - has 5 to 9 cells, all on the first axis in the source's order whose count reaches 5;
  - holds the player to move in every other cell.

  The line's length is that axis's count. When another axis has a longer run, the line can be shorter than `countInARow`.
- **Finders.**
  - The probing finders leave the board as they found it.
  - Each returns the first empty cell, in row-major order, that passes its test.
  - Every finder returns an empty cell or null.
  - The opponent places nothing exactly when the board is full.

Two behaviours of the source are kept as written:

- **`checkWin` never reads the probed cell, and always judges for `currentPlayer`.**
  - The cell itself counts as 1 whatever it holds (`game.js:230`).
  - Neighbours are compared against the global `currentPlayer` (`game.js:237`, `game.js:249`), not against the mark just written.
  - So `findWinningMove(p)` gives the same answer for every `p`, and the blocking step of `aiMove` never finds a cell the winning step missed. `Policy.ScanIgnoresMark` and `Policy.BlockingNeverFires` prove this.
- **There is no draw detection.**
  - On a full board `aiMove` places nothing and reports `Rejected`.
  - `makeMove` refuses every cell but never declares a draw.
  - The code has no draw outcome, and neither does the model.

Two more interface choices:

- `makeMove` does not bounds-check its arguments, so the model requires `0 <= row, col < 7`.
- `makeMove` returns a flag, `scheduleAi`. It is true exactly when the source would call `setTimeout(aiMove, 500)`; the caller then invokes `AiMove`.

## Model

| member | source | states |
|---|---|---|
| Board.Other | game.js:36 | the turn toggle always hands the turn to the other player |
| Board.EmptyGrid | game.js:2 | the fresh board is 7×7 and every cell is empty |
| Board.Put | game.js:27 | writing a cell changes exactly that cell and keeps the board 7×7 |
| Board.PutBack | game.js:121-126 | writing a mark on a cell and then writing back the old contents restores the board exactly |
| Lines.AtOffset | game.js:234-236 | the cell reached after i unit steps along a direction is (row + i*y, col + i*x), the coordinates the scan computes |
| Lines.Run | game.js:180-186 | one scan loop counts at most 4 cells and never goes negative |
| Lines.RunHolds | game.js:180-186 | every cell the scan counted holds the player, and the first cell after the run (within 4 steps) does not |
| Lines.AxisCount | game.js:176-194 | the count for one axis is between 1 and 9 |
| Lines.MaxPrefixIsMax | game.js:195 | the running `maxCount` is at least every count seen so far and equals one of them |
| Lines.Count | game.js:165-198 | countInARow returns a value between 1 and 9 |
| Lines.CountIsMax | game.js:165-198 | countInARow is no less than the count of any axis, and equals the count of some axis |
| Lines.FirstWin | game.js:229-262 | the axis checkWin stops at has count at least 5, and every earlier axis has count below 5 |
| Lines.WinCheck | game.js:218-264 | checkWin yields a line exactly when some axis reaches 5 |
| Lines.WinsIffCount | game.js:218-264 | checkWin is true if and only if countInARow for the same player is at least 5 |
| Lines.StepLeaves | game.js:234-236 | one or more steps along a unit direction (each of the four axes and their reverses) never land back on the probed cell |
| Lines.AxisLineShape | game.js:229-256 | one axis's line has the axis's count as its length, starts at the probed cell, holds the player in every other cell, and lies on that axis |
| Lines.WinLineShape | game.js:218-264 | a winning line has 5 to 9 cells, starts at the probed cell, holds the player elsewhere, and lies on the first axis in the source's order whose count reaches 5 |
| Lines.RunIgnoresOrigin | game.js:230 | a scan loop's count does not depend on what the probed cell holds |
| Lines.AxisIgnoresOrigin | game.js:229-256 | both scans of one axis, and its count, do not depend on what the probed cell holds |
| Lines.CountsIgnoreOrigin | game.js:176-194 | none of the four axis counts depends on what the probed cell holds |
| Lines.ProbeIgnoresOrigin | game.js:218-264 | checkWin's answer and line, and countInARow, are the same whatever is written on the probed cell |
| Rules.Judge | game.js:30-34 | checking the win after a placement never reports a rejected move |
| Rules.Replay | game.js:27-28 | replaying a move list on the empty board gives a 7×7 board |
| Rules.Play | game.js:25-44 | an occupied cell or a finished game leaves the whole state unchanged; otherwise exactly the cell gets the mover's mark, the move is appended, gameOver becomes the win check for the mover, and the turn toggles only when there is no win |
| Rules.PlayOutcome | game.js:25-44 | a move is rejected exactly when the guard fails, and won exactly when the move ends the game, with checkWin's line |
| Rules.PlaceAI | game.js:105-115 | 'O' is written on exactly the chosen cell and recorded; on a win the game ends and currentPlayer is kept, otherwise the turn goes to 'X' and gameOver is left as it was |
| Rules.PlaceOutcome | game.js:105-115 | the opponent's placement is never rejected, and is won exactly when checkWin for currentPlayer holds, with its line |
| Rules.Undo | game.js:200-207 | with an empty history or a finished game nothing changes; otherwise exactly the last move's cell is cleared, that move is dropped, and the turn goes to its player |
| Rules.Restart | game.js:209-216 | the state after restart has an empty board, 'X' to move, no history and no game over, and satisfies the board/history invariant |
| Rules.PlaceKeepsRecorded | game.js:27-28 | writing a mark on an empty cell and appending the move keeps the board/history invariant |
| Rules.DropLastKeepsRecorded | game.js:202-203 | clearing the last move's cell and popping it keeps the board/history invariant |
| Rules.PlayKeepsValid | game.js:25-44 | makeMove keeps the board/history invariant |
| Rules.PlaceAIKeepsValid | game.js:105-107 | makeAIMove on an empty cell keeps the board/history invariant |
| Rules.UndoKeepsValid | game.js:200-207 | undoMove keeps the board/history invariant |
| Rules.UndoAfterPlay | game.js:200-207 | undoMove after a move that did not win restores the board, history, currentPlayer and gameOver exactly |
| Rules.RedoAfterUndo | game.js:200-207 | replaying the move undoMove took back rebuilds the board and the history; the game then ends exactly when that move wins for its player, and otherwise the turn passes to the other player |
| Rules.RedoRestoresState | game.js:200-207 | when the last move did not win and handed the turn to the other player, undoMove followed by replaying that move gives back the whole state, current player included |
| Rules.PlaceBack | game.js:27-28 | a move accepted on an empty cell writes the mover's mark there and appends the move |
| Rules.ReplayReproduces | game.js:25-28 | under the invariant, the board is exactly what replaying moveHistory on an empty board produces |
| Policy.Scan | game.js:117-131 | a row-major scan returns null or an on-board cell |
| Policy.ScanFinds | game.js:117-131 | the scan returns the first empty cell in row-major order that passes the probe; no cell it passed over does |
| Policy.ScanVacant | game.js:117-147 | a probing finder returns only an empty cell, and null on a full board |
| Policy.FirstVacant | game.js:96-100 | the first listed spot that is on the board and empty: every earlier spot is taken or off the board, and null exactly when all are |
| Policy.CenterChoice | game.js:82-103 | the result is always an empty cell: the centre when it is empty, otherwise a spot next to it with every spot before it in the order up, down, left, right taken; null exactly when the centre and all four spots are taken |
| Policy.NearCenterOnBoard | game.js:89-94 | the centre and the four spots next to it lie on the board |
| Policy.CenterChoiceSound | game.js:82-103 | findCenterMove returns an empty cell, and null exactly when the centre and its four neighbours are all taken |
| Policy.StrategicChoiceSound | game.js:149-163 | findStrategicMove returns an empty cell, and null exactly when the board is full |
| Policy.AiChoiceSound | game.js:46-80 | the cascade chooses an empty cell, and chooses nothing exactly when the board is full |
| Policy.PassesIgnoresMark | game.js:121-122 | the winning probe passes or fails the same whichever mark it writes |
| Policy.ScanIgnoresMark | game.js:117-131 | findWinningMove returns the same cell whichever player it is asked about |
| Policy.BlockingNeverFires | game.js:54-59 | when the winning step finds nothing, neither does the blocking step, so the cascade equals one without the blocking step |
| Engine.Game.constructor | game.js:1-6 | the game starts with an empty 7×7 board, 'X' to move, no history, not over, and satisfies the class invariant |
| Engine.Game.SetCell | game.js:27 | the array cell is written and the mirrored board changes in exactly that cell |
| Engine.Game.MakeMove | game.js:25-44 | the new state is Play of the old, the outcome is PlayOutcome, the invariant is kept, and the opponent is scheduled exactly when the move did not win, the mode is single-player and 'O' is to move |
| Engine.Game.Walk | game.js:234-243 | the loop counts exactly the run of the player's marks from the first step on, and collects those cells nearest first |
| Engine.Game.CheckWin | game.js:218-264 | the answer is true exactly when some axis reaches 5 for currentPlayer, with the line of the first such axis, and the empty line otherwise |
| Engine.Game.CountInARow | game.js:165-198 | the loop returns exactly the best axis count, Count |
| Engine.Game.UndoMove | game.js:200-207 | the new state is Undo of the old, and the invariant is kept |
| Engine.Game.RestartGame | game.js:209-216 | a fresh board; the new state is Restart, and the invariant holds |
| Engine.Game.TryWinning | game.js:121-126 | writing the mark, asking checkWin and clearing the cell leaves the board as it was and answers the winning probe |
| Engine.Game.FindWinningMove | game.js:117-131 | the board is left as it was, and the answer is the row-major scan for the winning probe |
| Engine.Game.TryOffensive | game.js:137-142 | writing 'O', asking countInARow and clearing the cell leaves the board as it was and returns the count with 'O' on that cell |
| Engine.Game.FindBestOffensiveMove | game.js:133-147 | the board is left as it was, and the answer is the row-major scan for a count of at least 4 for 'O' |
| Engine.Game.FindCenterMove | game.js:82-103 | the loop returns CenterChoice of the board |
| Engine.Game.FindStrategicMove | game.js:149-163 | the loop returns the centre if empty, else the first empty cell in row-major order |
| Engine.Game.MakeAIMove | game.js:105-115 | the new state is PlaceAI of the old, the outcome is PlaceOutcome, and the invariant is kept when the cell was empty |
| Engine.Game.ChooseMove | game.js:47-79 | the finders in turn leave the board as it was and return AiChoice of the board |
| Engine.Game.AiMove | game.js:46-80 | 'O' goes on the cascade's cell through makeAIMove, and the invariant is kept; when nothing is chosen the state is unchanged |

## Left out

- renderBoard and highlightWinningLine (game.js:8-22, 267-281): DOM building, CSS classes and console output. CheckWin returns the line instead.
- The `message` element (game.js:31, 109, 214) and the page-load hook: display only.
- Reading `gameMode` from localStorage (game.js:5): browser storage. It is the constant field `aiMode`, fixed when the game is constructed.
- `setTimeout(aiMove, 500)` (game.js:41): timer scheduling. MakeMove returns `scheduleAi`, and the caller invokes AiMove. The human clicks the source accepts during the half-second delay are a matter of timing and are not modelled.
- Engine.Game.MakeMove: indexing outside the board is excluded by a precondition. The source has no bounds check, and JavaScript would fail on a missing row or read `undefined`.
- Engine.Game.MakeAIMove: the source does not check that the cell is empty. The model writes over any cell, as the source does, but keeps the board/history invariant only when the cell was empty. The only caller, AiMove, always passes an empty cell.
- Draw detection: the source has none, so the model has none either. A full board makes AiMove choose nothing.
