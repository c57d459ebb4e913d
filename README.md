# Tic-tac-toe for the Nintendo 64: a Dafny model of the game logic

The program in `src/main.c` is a two-player tic-tac-toe game. It keeps a 3x3
board of marks (`EMPTY` 0, `PLAYER_X` 1, `PLAYER_O` 2) and the globals
`current_player`, `winner`, `turns`, `row` and `col`. Once per displayed
frame, `update_cursor_position` reads the controller and does three things in
order:

1. Start, pressed after the game has ended, resets the board.
2. A, pressed while the game is on, places the current player's mark in the
   empty cell under the cursor. It then re-evaluates `check_winner` and hands
   the turn to the other player. A move that does not win is counted; the 9th
   one ends the game in a tie (`winner` = 3).
3. The analog stick moves the cursor one cell, wrapping around at the edges,
   once it is past a threshold of 30.

The model has four modules:

- `Rules` (rules.dfy) is the board as a flat row-major sequence of nine cells.
  `Winner` is the value `check_winner` returns. It scans the eight lines in the
  code's order: row 0, column 0, row 1, column 1, row 2, column 2, then the
  main and anti diagonals. `HasLine` is an independent definition of "v owns a
  full row, column or diagonal".
- `Play` (play.dfy) is the game state as a value.
  - `Next` is one frame and `Run` is a sequence of frames.
  - `Inv` is what holds between frames: marks only, X at most one move ahead
    of O, `winner` and `turns` consistent with the board, and a winner that
    is the only player owning a full line.
  - The lemmas state what a frame does.
- `TicTacToe` (game.dfy) is the program as written: a class whose fields are
  the globals, with `board` as an `array2`. `Reset` is `reset_board` with its
  nested loops. `CheckWinner` is `check_winner` with its loop and early
  returns. `Step` is one frame of `update_cursor_position`, and `RunFrames` is
  the frame loop of `main`. Each method is proved to change the state exactly
  as the `Play` functions say.
- `Scenarios` (scenarios.dfy) holds two complete games evaluated through
  `Run`: X winning on the top row, then a restart, and a nine-move draw.

The controller is a parameter of every frame: Start and A pressed this frame,
and the stick's x and y.

## Model

| member | source | states |
|---|---|---|
| Rules.FirstCompleteZero | src/main.c:81-94 | A scan over any list of lines returns 0 exactly when none of the lines is complete |
| Rules.FirstCompleteOwned | src/main.c:81-94 | A nonzero result of a scan is the common value of some complete line |
| Rules.WinnerIsFirstComplete | src/main.c:83-92 | `check_winner` returns the value of the first complete line in its scan order |
| Rules.WinnerIsRow | src/main.c:83-85 | Row i wins when it is complete and no row or column with a smaller index is, and the result is that row's value |
| Rules.WinnerIsColumn | src/main.c:86-87 | Column i wins when it is complete, row i is not, and no earlier row or column is |
| Rules.WinnerAfterRowsAndColumns | src/main.c:89-93 | With no complete row or column, the main diagonal is checked first, then the anti diagonal, else the result is 0 |
| Rules.ScanOrderIsImmaterial | src/main.c:83-92 | Scanning all rows first, then columns, then diagonals, gives the same result as the interleaved order of the code |
| Rules.LineOwnedIffHasLine | src/main.c:81-94 | A value owns a complete line of the scan exactly when it owns a full row, column or diagonal |
| Rules.WinnerHasLine | src/main.c:81-94 | A nonzero result is a value that owns a full row, column or diagonal (soundness) |
| Rules.WinnerZeroIffNoLine | src/main.c:81-94 | The result is 0 exactly when no value owns a full line |
| Rules.WinnerIsSoleOwner | src/main.c:81-94 | When exactly one value owns a full line, the result is that value |
| Rules.WinnerIsCellValue | src/main.c:81-94 | On a board of marks, the result is EMPTY, X or O |
| Rules.WinnerAfterMove | src/main.c:123-125 | A mark p written into a board with no winner leaves no winner or makes p the winner, and p wins exactly when p then owns a full line |
| Rules.WriteAddsOnlyOwnLines | src/main.c:124 | Writing p into one cell only adds lines owned by p: any other value that owns a line afterwards already owned it |
| Rules.EmptyGridHasNoWinner | src/main.c:81-94 | The empty board has no winner |
| Rules.NoCompleteLineNoWinner | src/main.c:81-94 | If none of the eight lines is complete, the result is 0 |
| Play.MoveRow | src/main.c:135-139 | The stick's y moves a row that is on the board to a row that is on the board |
| Play.MoveCol | src/main.c:140-144 | The stick's x moves a column that is on the board to a column that is on the board |
| Play.Next | src/main.c:110-144 | A frame keeps the cursor on the board |
| Play.Run | src/main.c:152-157 | Any number of frames keep the cursor on the board |
| Play.MarkBalance | src/main.c:120-129 | Between frames, X has as many marks as O or one more, the marks fill at most nine cells, and `turns` is between 1 and 10 |
| Play.ResetEstablishesInv | src/main.c:96-105 | After `reset_board` the invariant holds and no cell is filled |
| Play.InitialInv | src/main.c:147-150 | The state after the program's start-up call to `reset_board` satisfies the invariant |
| Play.PlacementOutcome | src/main.c:123-128 | A placement writes the mover's mark into the cursor cell and nowhere else, so one more cell is filled. The turn passes to the other player. The game ends with the mover as winner exactly when the mover owns a line, in a tie exactly when the board is then full without one, and otherwise goes on. `turns` counts every move except a winning one |
| Play.PlaceKeepsInv | src/main.c:123-128 | A placement keeps the invariant. In particular, `turns` stays one more than the filled cells while the game is on, and a winning mover is the only player who owns a full line |
| Play.NextKeepsInv | src/main.c:110-144 | Every frame keeps the invariant |
| Play.RunKeepsInv | src/main.c:152-157 | Any sequence of frames keeps the invariant |
| Play.RunConcat | src/main.c:152-157 | Running two sequences of frames one after the other is running their concatenation |
| Play.PressAIgnored | src/main.c:120-123 | In a frame without Start, once the game has ended or on an occupied cell, A changes nothing: the frame is the same frame without A |
| Play.StartIgnoredWhilePlaying | src/main.c:115-118 | While the game is on, Start changes nothing |
| Play.FirstMoveWinsNothing | src/main.c:123-125 | A single X on an empty board is never a win |
| Play.StartRestarts | src/main.c:115-125 | Start after the game ended empties the board and sets no winner, X to move and `turns` 1. An A in the same frame then places X at the cursor, which leaves O to move with `turns` 2 |
| Play.PlaceBeforeMove | src/main.c:120-144 | The mark goes into the cell under the cursor as it was before the stick moves it in the same frame |
| Play.CursorAlwaysMoves | src/main.c:132-144 | The stick moves the cursor in every frame, whether or not the game has ended |
| Play.MoveRowWraps | src/main.c:135-139 | Up past the threshold is row - 1 modulo 3, down past it is row + 1 modulo 3, and otherwise the row stays |
| Play.MoveColWraps | src/main.c:140-144 | Right past the threshold is column + 1 modulo 3, left past it is column - 1 modulo 3, and otherwise the column stays |
| Play.StatusLineDescribesBoard | src/main.c:160-169 | The title shows exactly when nobody has a line and the board is not full. "It's a tie!" shows exactly when the board is full and nobody has a line. "Player p wins!" names X or O, and p is the only player who owns a full line |
| TicTacToe.Game.constructor | src/main.c:14-15 | The globals before start-up: an all-EMPTY 3x3 board and every integer 0 |
| TicTacToe.Game.Reset | src/main.c:96-105 | The nested loops leave every cell EMPTY. X is to move, there is no winner, `turns` is 1 and the cursor is unchanged. With the cursor on the board the invariant holds |
| TicTacToe.Game.CheckWinner | src/main.c:81-94 | The loop with early returns computes `Winner` of the current board |
| TicTacToe.Game.PressStart | src/main.c:115-118 | The Start block changes the state as `Play.PressStart` and keeps the invariant |
| TicTacToe.Game.PressA | src/main.c:120-131 | The A block changes the state as `Play.PressA` and keeps the invariant |
| TicTacToe.Game.Place | src/main.c:123-128 | The placement in place: mark, `check_winner`, toggle, and the `turns++` / tie update, exactly as `Play.Place` |
| TicTacToe.Game.MoveCursor | src/main.c:132-144 | The stick updates `row` and `col` as `Play.MoveRow` and `Play.MoveCol` and touches nothing else |
| TicTacToe.Game.Step | src/main.c:110-144 | One frame of `update_cursor_position` changes the globals exactly as `Play.Next` and keeps the invariant |
| TicTacToe.Boot | src/main.c:147-150 | Start-up followed by `reset_board` gives `Play.Initial()`, which satisfies the invariant |
| TicTacToe.RunFrames | src/main.c:152-157 | A finite run of the frame loop changes the globals exactly as `Play.Run` and keeps the invariant |
| Scenarios.XWinsTopRow | src/main.c:110-131 | X at (0,0), O at (1,0), X at (0,1), O at (1,1) and X at (0,2) end the game with X as winner and O to move. `turns` stays 5 and the status line reads "Player 1 wins!" |
| Scenarios.StartAfterWin | src/main.c:115-118 | Start after that win gives the empty board, X to move and `turns` 1, with the cursor left where it was |
| Scenarios.NineMovesDraw | src/main.c:120-131 | Nine placements with no line end the game as a tie on the ninth, with `turns` 10 and the status line "It's a tie!" |

## Left out

- Drawing is not modelled: the board, the marks, the cursor, the screen and
  the fonts (`src/main.c:17-79`, `148`, `153-156`, `158-159`, `166-171`). It
  reads the state and never changes it.
- The status text is modelled as the `Banner` value `Play.StatusLine` and not
  as the characters `sprintf` writes.
- Controller I/O is not modelled: `controller_scan`, `get_keys_down` and
  `get_keys_held`. Each frame's pressed buttons and stick position are
  parameters. `keys_pressed` (held buttons) is read but never used.
- The endless `while (1)` loop is modelled as a finite sequence of frames
  (`Run`, `RunFrames`).
- Frames in which `display_get` returns no buffer skip
  `update_cursor_position`, so they are simply absent from the sequence.
- The stick values are `signed char` in the controller data and are modelled
  as unbounded integers. Only their comparison with ±30 matters.
- C `int` overflow cannot occur: every global stays between 0 and 10.
- `CONTROL_STICK_DEADZONE` is defined but never used, so it is not modelled.
- Play.MoveRow and Play.MoveCol have no precondition because the C code has
  none. Their range guarantee applies only to a cursor that starts on the
  board, which is always the case after start-up.
- The move counter is not incremented on every placement. The code's
  `if(!winner && turns++==9)` increments `turns` only when the move did not
  win, and the model follows the code.
- The scan order of `check_winner` is interleaved (row i, then column i), not
  rows first. The model follows the code, and Rules.ScanOrderIsImmaterial
  shows that the result is the same either way.
