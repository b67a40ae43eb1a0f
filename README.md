# Local rule engines of the game-room boards

This project models the three local rule engines inside the board widgets of
the multiplayer game-room web application. Each engine is a small, sequential,
deterministic state machine over a fixed-size board. The dice value and the
chosen cell, column or token are inputs.

- **Ludo** (`ludo.dfy`, module `Ludo`). The track is a 28-square loop with
  eight star (safe) squares. There are two or four players with four tokens
  each. The module covers:
  - `createInitialPlayers` and `computePos`;
  - the legality rule `canMoveToken`;
  - the token move of `handleTokenClick`: leaving home, moving along the
    track, finishing, and capture off the star squares;
  - the winner check;
  - `endTurn`: a 6 rolls again, otherwise play passes round-robin;
  - the automatic pass when no token can move;
  - the per-cycle rolled flags set by `handleRoll` and cleared by their effect;
  - `resetGame`.

  The widget's state is the class `Ludo.Game`. The player list is a sequence
  field that each move replaces. The move itself works on a copied array of
  players that the capture loops update in place (`Ludo.CapturePass`).
- **Connect Four** (`connect_four.dfy`, module `ConnectFour`). The board has
  7 columns of 6 cells, stored column-major as cell `col * 6 + row`. The
  module covers:
  - `dropDisc`: a copy of the board plus a loop that fills the lowest empty
    row;
  - `computeLocalWinner`: nested scans over columns, rows, four directions
    and up to four steps;
  - `findWinningLine` and the `winningCells` memo that uses it;
  - the local reset.

  Both scanners are proved against one declarative rule: the first run of
  four in scan order. That rule shows they agree.
- **Tic-Tac-Toe** (`tic_tac_toe.dfy`, module `TicTacToe`). The module covers
  `computeWinner` over the eight fixed lines, the local `makeMove`, the
  `winningLine` memo and the local reset. The class invariant shows that
  local play keeps the number of X marks equal to, or one more than, the
  number of O marks.

`options.dfy` holds the `Option` datatype that stands for the source's
`null`.

Behaviours of the code that the model keeps as written:

- `resetGame` (src/components/LudoBoard.tsx:313-321) does not clear
  `rolledFlags`, so `Ludo.Game.ResetGame` keeps them. It does not return the
  game fully to its starting configuration.
- `endTurn` is the callback of the render in which the token was clicked, so it
  reads the winner as it was before the move, which is none. After a winning
  move the turn therefore still passes on, or stays with the mover on a 6,
  while the winner is set. `Ludo.Game.ApplyMove` does exactly this.
- The local Tic-Tac-Toe and Connect Four moves do not check whose turn it is.
  On a single device the mover is always `next`.
- The local Connect Four drop computes the new state before it notifies the
  server.

## Model

| member | source | states |
|---|---|---|
| TicTacToe.ComputeWinner | client/src/components/TicTacToeBoard.tsx:177-195 | The result is the mark of the first of the eight lines, in table order, whose three cells hold the same mark. With no such line it is a draw exactly when all nine cells are filled, and no result otherwise. |
| TicTacToe.ResultUnique | client/src/components/TicTacToeBoard.tsx:188-194 | At most one outcome fits a board. A win therefore excludes a draw, and the winner is unique. |
| TicTacToe.WinningLine | client/src/components/TicTacToeBoard.tsx:79-101 | With no winning mark there is no line. A returned triple is the first line of the table, in table order, whose three cells all hold the winner. None is returned only if the winner has no line. When the winner is the one computeWinner assigns, the triple is exactly the line that decided the game. |
| TicTacToe.CountUpdate | client/src/components/TicTacToeBoard.tsx:60-62 | Writing a mark into an empty cell adds one to that mark's count and leaves the other mark's count unchanged. |
| TicTacToe.CountEmpty | client/src/components/TicTacToeBoard.tsx:19 | The empty board holds no mark of either kind. |
| TicTacToe.Game.constructor | client/src/components/TicTacToeBoard.tsx:22-26 | Start: nine empty cells, X to move, no winner, and the class invariant holds. |
| TicTacToe.Game.MakeMove | client/src/components/TicTacToeBoard.tsx:50-69 | A finished game, an occupied cell or a missing next mark leaves the state unchanged. Otherwise the mover's mark goes into exactly the chosen cell, the winner is the board's outcome, and next flips X/O or becomes none once there is a result. The invariant is kept: the outcome is correct, and count(X) - count(O) is 0 when X moves and 1 when O moves. |
| TicTacToe.Game.Reset | client/src/components/TicTacToeBoard.tsx:71-77 | Back to nine empty cells, X to move and no winner. |
| ConnectFour.ComputeLocalWinner | client/src/components/ConnectFourBoard.tsx:230-264 | The result is the colour of the first occupied cell, in scan order (column, row, direction), that starts four equal cells, where reads off the board are empty. With no run it is a draw exactly when all 42 cells are filled, and no result otherwise. |
| ConnectFour.LocalWinnerUnique | client/src/components/ConnectFourBoard.tsx:243-263 | At most one outcome fits a board. A win takes precedence over a draw, and the winning colour is unique. |
| ConnectFour.CollectRun | client/src/components/ConnectFourBoard.tsx:213-222 | The step loop returns the four board indices of the cells from (x, y) in direction d when all four hold the colour, and the empty list otherwise. |
| ConnectFour.FindWinningLine | client/src/components/ConnectFourBoard.tsx:196-228 | Null exactly when no run of the colour exists. Otherwise the result is the indices of the first run of that colour in scan order, and they form a line of that colour. |
| ConnectFour.RunCellsHoldColour | client/src/components/ConnectFourBoard.tsx:213-223 | The cells of a run are four in-bounds indices, all holding the colour, each one unit step (1, 5, 6 or 7) after the previous. |
| ConnectFour.WinningCells | client/src/components/ConnectFourBoard.tsx:94-97 | A board without a winning colour has no highlight. For a winning colour the highlight is missing exactly when that colour has no run; otherwise it is that colour's first run in scan order and forms a line of the colour. When the winner is the one computeLocalWinner assigns, the highlight is never missing and is exactly the run that decided the game. |
| ConnectFour.GravityAfterDrop | client/src/components/ConnectFourBoard.tsx:53-62 | Filling the lowest empty row of a column keeps the filled cells of every column a bottom prefix. |
| ConnectFour.DropIntoColumn | client/src/components/ConnectFourBoard.tsx:53-63 | On a copy of the board, the disc goes into the lowest empty row of the column and no other cell changes. No row is found exactly when the column is full, and then the board is unchanged. |
| ConnectFour.Game.constructor | client/src/components/ConnectFourBoard.tsx:19-24 | Start: 42 empty cells, Red to move, no winner, and the invariant (gravity, correct outcome) holds. |
| ConnectFour.Game.DropDisc | client/src/components/ConnectFourBoard.tsx:48-71 | A finished game, an out-of-range column or a full column changes nothing. Otherwise the mover's disc is written into the lowest empty row of that column and nowhere else, the winner is the board's outcome, and next flips R/Y or becomes none once there is a result. Gravity is kept. |
| ConnectFour.Game.Reset | client/src/components/ConnectFourBoard.tsx:78-84 | Back to the empty board, Red to move and no winner. |
| Ludo.Rem | src/components/LudoBoard.tsx:142 | JavaScript's `%`: for a non-negative dividend the result lies in 0..n-1, for a negative one in -(n-1)..0, and it always differs from the dividend by a multiple of n. |
| Ludo.ComputePos | src/components/LudoBoard.tsx:141-143 | The square lies in 0..27 for a non-negative start plus steps, and is congruent to start plus steps modulo 28. |
| Ludo.StartIndex | src/components/LudoBoard.tsx:127 | Player i of n starts on square i * (28 / n), so the start squares are evenly spaced and on the loop. |
| Ludo.MoveLegality | src/components/LudoBoard.tsx:145-158 | canMoveToken on a well-formed token: a done token never moves, a home token moves exactly on a 6, and a track token moves exactly for dice 1..28-steps, so a 1 always moves it. |
| Ludo.Advance | src/components/LudoBoard.tsx:248-264 | For a token that may move (canMoveToken, lines 145-158), leaving home puts it on its start square with 0 steps. A track move adds exactly the dice and is done exactly at 28 steps. The moved token is never at home and stays well-formed: a track token is short of 28 steps on the square its steps give. |
| Ludo.MoveOutcome | src/components/LudoBoard.tsx:239-290 | After a move the players keep their identity, start and token count. The chosen token advances and the mover's other tokens are untouched. An opponent's token goes home exactly when it is on the track at the landing square and that square is not a star. |
| Ludo.MovePlayers | src/components/LudoBoard.tsx:239-279 | The copied, updated player array equals MoveOutcome. |
| Ludo.CapturePass | src/components/LudoBoard.tsx:266-279 | The in-place capture loops send home every track token of every other player on the landing square, and change nothing else. |
| Ludo.MoveKeepsPlayersValid | src/components/LudoBoard.tsx:248-279 | A move keeps every player numbered by position, on its start square, with four well-formed tokens. |
| Ludo.NextPlayer | src/components/LudoBoard.tsx:218-232 | A 6 keeps the player. Any other roll passes to the next player and wraps to player 0. |
| Ludo.AfterRollsRoundRobin | src/components/LudoBoard.tsx:221-227 | After any sequence of completed turns, the player to move is the first player advanced once for each roll that was not a 6, modulo the player count. |
| Ludo.MarkRolled | src/components/LudoBoard.tsx:202-211 | The flags have one entry per player, and the current player's is set. Every other entry is kept if the old list had the right length, and cleared otherwise. |
| Ludo.CreateInitialPlayers | src/components/LudoBoard.tsx:117-139 | Players 0..n-1 are named and coloured Red, Green, Yellow, Blue in order. Each starts on square i * (28 / n) with four tokens at home (steps 0, pos -1). |
| Ludo.Game.TurnExclusive | src/components/LudoBoard.tsx:173-181 | isMyTurn: a spectator is never on turn, and two participants on turn are the same one. |
| Ludo.Game.StuckIffNoClickAccepted | src/components/LudoBoard.tsx:307-311 | currentCanMove: rolled with no winner, the player to move is stuck exactly when no click of theirs on any of the four tokens would be accepted. A 6 with a token at home is never stuck. |
| Ludo.Game.constructor | src/components/LudoBoard.tsx:161-170 | Fresh players (Red, Green, Yellow, Blue in order, each with four tokens at home), player 0 to roll, no dice, idle, no winner and all flags clear. The invariant holds. |
| Ludo.Game.Roll | src/components/LudoBoard.tsx:183-211 | Only the player to move, while idle and with no winner, may roll. The dice is then recorded, the phase becomes rolled and the player is marked as having rolled. Any other roll changes nothing. |
| Ludo.Game.EndTurn | src/components/LudoBoard.tsx:218-232 | With a winner nothing changes. Otherwise the next player is chosen as NextPlayer says, the phase is idle, the dice is cleared and nothing else changes. |
| Ludo.Game.ClickToken | src/components/LudoBoard.tsx:234-291 | A click outside the rolled phase, after a winner, by someone not on turn, or on a token that cannot move changes nothing. Otherwise the players become MoveOutcome, the mover wins exactly when all its tokens are done, and the turn ends as NextPlayer says, with the winning move included. The invariant is kept. |
| Ludo.Game.ApplyMove | src/components/LudoBoard.tsx:239-290 | For an accepted move the players become MoveOutcome, the winner is the mover exactly when all its tokens are done, and the turn passes as NextPlayer says. The phase is idle, the dice is cleared and the flags are unchanged. |
| Ludo.Game.AutoPass | src/components/LudoBoard.tsx:323-330 | Rolled with no winner and no token able to use the dice (currentCanMove, lines 307-311): the turn ends as NextPlayer says. In every other case nothing changes. |
| Ludo.Game.ResetRolledFlags | src/components/LudoBoard.tsx:335-341 | Once every player has rolled in the cycle, all flags are cleared. Otherwise they are kept. Nothing else changes. |
| Ludo.Game.ResetGame | src/components/LudoBoard.tsx:313-321 | Fresh players (names, colours and all tokens at home as at the start), player 0 to roll, no dice, idle and no winner. The rolled flags are left as they were. |

## Left out

- Network play: every `socket.emit`/`socket.on` exchange, the networked branches of `makeMove`, `dropDisc` and the resets, the Ludo snapshot broadcast and its echo suppression. These relay to a server that is not part of this model.
- Dice randomness and the roll animation (`Math.random`, the interval timer, `isRolling`, the displayed dice face). The dice value 1..6 is a parameter of `Ludo.Game.Roll`.
- `isMyTurn` depends on the widget's `playerIndex` property. It is a parameter of type `Option<int>`, where `None` is a spectator.
- React update timing. A token click is one atomic transition. The source's `canMoveToken` check in the updater reads the latest players, which in the model are the state at the click.
- Ludo.Game.ClickToken: `next.find(p => p.id === currentPlayer)` is modelled as indexing by the current player, because player ids equal their positions (an invariant of the model).
- Ludo.Game.ClickToken: the token index must be 0..3, because the widget only offers those buttons. The source would fail on any other index.
- TicTacToe.Game.MakeMove: the cell index must be 0..8, because the board has only those buttons.
- Ludo.MovePlayers: the overshoot branch of the token update (`return prev`) is not written. `canMoveToken` excludes it, and the model proves that.
- Ludo.ComputePos: only non-negative start plus steps is shown to land in 0..27. The source never passes a negative sum. `Ludo.Rem` models JavaScript's sign-of-dividend `%` for the other case.
- Rendering data: the Ludo track and home coordinates, the `trackOccupants` map, the status texts and the winner messages.
- The Chess, Carrom and LudoJs widgets and the pages. These wrap external libraries, hold static images or markup, or are presentation only.
