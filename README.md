# Tic-tac-toe game engine in Dafny

This project models the game logic of a browser tic-tac-toe game (`script.js`) and proves properties about it. The game state has these parts:

- a board of nine cells, each empty, `X` or `O`;
- the player to move, who starts as `X`;
- the mode: player-versus-player or player-versus-computer;
- whether the game is still active;
- three score counters: X wins, O wins and ties.

A move places the current player's mark. The game then ends on a won line or a full board; otherwise the turn passes to the other player. The computer plays `O` with a fixed priority: win, block, centre, a random free corner, a random free cell.

Four modules:

- `Board` (`board.dfy`) covers the cells, the eight winning lines and the win evaluator `checkWin`. It also holds the threat finder `findWinningMove` and the row/column/diagonal labels that `highlightWinner` computes. All of these are pure functions over the board's contents, a `Grid` of nine cells.
- `Engine` (`engine.dfy`) gives the game state as a value (`State`). It defines the transition `processMove` makes, with the score part of `endGame`, and the reset `initGame` makes. It also defines the invariant that play keeps and states the lemmas about them.
- `Strategy` (`strategy.dfy`) defines the set of cells `computerMove` may pick on a board. It proves that this set follows the priority order.
- `TicTacToe` (`game.dfy`) holds the class `GameState`. The class has the source's fields: an `array` board, the current player, the mode, the active flag and the scores. Its methods update these fields in place, as the source's functions do.
  - Each mutating method is proved to produce the `Engine` value of the old state.
  - `checkWin` and `findWinningMove` are loops over the lines. Each loop is proved equal to its pure counterpart in `Board`.

The random corner and cell picks are a nondeterministic choice (`:|`). What is proved about them is that the pick is in the candidate set.

## Model

| member | source | states |
|---|---|---|
| `Board.CheckWin` | script.js:167-183 | The result is absent exactly when no line has three equal non-empty cells. Otherwise it names the lowest-indexed winning line, and the winner is that line's first cell. |
| `Board.CheckWinSymmetric` | script.js:167-183 | Swapping X and O on the board swaps the reported winner and keeps the reported line. |
| `Board.FindWinningMove` | script.js:148-165 | The result is -1 exactly when no line holds two of the player's marks and one empty cell. Otherwise it is an empty cell of the board. |
| `Board.FindWinningMoveCompletes` | script.js:148-165 | A cell other than -1 lies on the first line, in scan order, that holds two of the player's marks and one empty cell. Placing the player's mark there wins that line. |
| `Board.WinTypeOf` | script.js:213-220 | The label `highlightWinner` gives a line has a number in 0..2 (0..1 for a diagonal). Reading the label back (row `n` is line `n`, column `n` is line `n+3`, diagonal `n` is line `n+6`) gives the line index again, so no two lines share a label. |
| `Board.WinTypeMatchesGeometry` | script.js:213-220 | Lines 0-2 are labelled row `i`, 3-5 column `i-3`, 6-7 diagonal `i-6`. Each label covers exactly the cells of that row (`k/3`), column (`k%3`) or diagonal. |
| `Engine.Tally` | script.js:185-202 | Exactly one counter goes up by one: the winner's on a win, the ties counter on a draw. No counter decreases. |
| `Engine.AfterMove` | script.js:76-96 | A move sets only the chosen cell, to the current player's mark. The mode is kept and no score decreases. |
| `Engine.Reset` | script.js:33-37 | After a reset the board is all empty, X is to move and the game is active. The mode and the three counters are unchanged, and the invariant holds. |
| `Engine.NewWinIsMovers` | script.js:85-88 | On a board with no won line, a line won by the next move passes through the cell just played and is won by the mover. |
| `Engine.MoveOutcome` | script.js:85-95 | From a reachable active state a legal move has exactly one result. (1) A line wins: the game ends and only the mover's counter goes up. (2) The board is full: the game ends and only ties goes up. (3) Otherwise the turn passes and the scores are kept. |
| `Engine.MovePreservesInv` | script.js:76-96 | A legal move keeps the invariant. X's marks minus O's marks stays 0 or 1. While the game is active it is the turn of the player with fewer marks, no line is won and a cell is free. Once the game is over, a line is won or the board is full. |
| `Engine.TopRowScenario` | script.js:76-96 | On `[X,X,_,O,O,_,_,_,_]`, X playing cell 2 wins on line 0, labelled row 0. The game ends and X's counter goes up by one. |
| `Engine.DrawScenario` | script.js:89-90 | On `[X,O,X,X,O,O,O,X,_]`, X playing cell 8 completes no line. The game ends and the ties counter goes up by one. |
| `Strategy.EmptyAmong` | script.js:129-140 | Returns exactly the listed indices whose cell is empty. This is the filter over the corners and over all cells. |
| `Strategy.Candidates` | script.js:106-145 | The set of cells `computerMove` may play. Every member is a free cell of the board, so the computer never plays on a taken cell. The priority order is stated by the three lemmas below. |
| `Strategy.CandidatesExistIffFreeCell` | script.js:137-145 | The computer has a cell to pick exactly when the board has a free cell. |
| `Strategy.TakesWinningMove` | script.js:108-113 | When O can complete a line, the only pick is the cell that completes one. |
| `Strategy.BlocksThreat` | script.js:115-120 | When O cannot win but X can complete a line, the only pick is the cell X needs. |
| `Strategy.FallsBackToCentreCornerAny` | script.js:122-145 | With nothing to win or block, the pick is the centre if it is free. Otherwise any free corner may be picked. Otherwise any free cell may be picked. |
| `Strategy.ReplyToCentreOpening` | script.js:122-135 | After X opens in the centre, the computer picks one of the four corners. |
| `TicTacToe.GameState.constructor` | script.js:3-18 | The initial state: empty board, X to move, player-versus-player, game active, all counters 0. |
| `TicTacToe.GameState.InitGame` | script.js:33-37 | Installs a fresh empty board, sets the game active and X to move. The mode and the counters are unchanged. |
| `TicTacToe.GameState.SwitchMode` | script.js:245-262 | Sets the mode, then resets as `InitGame` does. The three counters are unchanged. |
| `TicTacToe.GameState.CheckWin` | script.js:167-183 | The loop over the lines returns the first winning line, as `Board.CheckWin` does. |
| `TicTacToe.GameState.FindWinningMove` | script.js:148-165 | The loop over the lines returns the cell `Board.FindWinningMove` gives, or -1. |
| `TicTacToe.GameState.ChooseMove` | script.js:98-146 | Returns -1 exactly when the board is full. Otherwise it returns a member of `Strategy.Candidates`. |
| `TicTacToe.GameState.EndGame` | script.js:185-207 | Clears the active flag and applies `Tally`. The board, the player and the mode are kept. A win yields the line's highlight label. |
| `TicTacToe.GameState.ProcessMove` | script.js:76-96 | The new state is `AfterMove` of the old one, and the invariant is kept. |
| `TicTacToe.GameState.HandleCellClick` | script.js:58-74 | A click on an index outside 0..8, on a taken cell or on a finished game changes nothing. Any other click is a move. The computer's reply becomes due when the mode is player-versus-computer, the game is active and O is to move. |
| `TicTacToe.GameState.ComputerMove` | script.js:98-146 | Plays a cell from the candidate set. The new state is `AfterMove` of the old one at that cell. |

## Notes on the game's behaviour

- The click guard (script.js:62-65) checks only that the cell is free and that the game is active. It does not check whose turn it is. In player-versus-computer mode, a click during the computer's delay therefore places an `O` for the human. The model's `HandleCellClick` does the same.
- Switching mode (script.js:245-262) never resets the three counters. On screen, the O counter's caption and icon change, and so does which mode button is marked active.
- An index outside 0..8 reads `undefined` from the board, which is not the empty string, so the guard at script.js:63 ignores the click. The model's `HandleCellClick` treats such an index as a no-op in the same way.

## Left out

- All page work is left out: the cell text and CSS classes, the status line (`updateStatus`), the score labels ("Player O" and "Computer"), and the event-listener registration in `initGame`. The model keeps only the state that this work displays.
- `restartGame` (script.js:241-243) only calls `initGame`, so it is modelled by `InitGame`.
- The 600 ms `setTimeout` before the computer's reply is a timer and is left out. The reply is a separate step, `ComputerMove`.
- ComputerMove: requires the game to be active. The source's `computerMove` has no guard. Its only caller schedules it while the game is active, but a restart or a human click during the delay can change the state before it runs. That race is timer behaviour and is not modelled.
- `Math.random` is replaced by a nondeterministic choice among the free corners or free cells. The model does not capture that the choice is uniform.
- `highlightWinner` builds class names such as `row-0`. The model gives the label as a `WinType` value (`Row(0)`) instead of a string.
