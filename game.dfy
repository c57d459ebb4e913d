/**
 * The game as the C program keeps it: a 3x3 array and five global integers,
 * updated in place once per frame. Each method is proved to change the state
 * exactly as the functions of module Play say.
 */
module TicTacToe {
  import opened Rules
  import Play

  class Game {
    /** `board[3][3]`: `board[r, c]` is the cell at row r, column c. */
    var board: array2<int>
    var currentPlayer: int
    /** 0 while playing, the winner's mark, or `Play.Tie`. */
    var winner: int
    /** One more than the number of moves counted so far. */
    var turns: int
    /** The cursor. */
    var row: int
    var col: int

    ghost predicate Shaped()
      reads this`board
    {
      board.Length0 == 3 && board.Length1 == 3
    }

    /** The cells of the board, row by row. */
    ghost function Cells(): Grid
      reads this`board, board
      requires Shaped()
    {
      [board[0, 0], board[0, 1], board[0, 2],
       board[1, 0], board[1, 1], board[1, 2],
       board[2, 0], board[2, 1], board[2, 2]]
    }

    ghost function State(): Play.State
      reads this, board
      requires Shaped()
    {
      Play.State(Cells(), currentPlayer, winner, turns, row, col)
    }

    ghost predicate Valid()
      reads this, board
    {
      Shaped() && Play.Inv(State())
    }

    /** Element 3 * r + c of `Cells()` is `board[r, c]`. */
    lemma CellAt(r: int, c: int)
      requires Shaped() && 0 <= r < 3 && 0 <= c < 3
      ensures Cells()[3 * r + c] == board[r, c]
    {
      assert (3 * r + c) / 3 == r && (3 * r + c) % 3 == c;
    }

    /** The globals as the program starts, before `reset_board` runs: all zero. */
    constructor ()
      ensures Shaped() && fresh(board)
      ensures Cells() == EmptyGrid
      ensures currentPlayer == 0 && winner == 0 && turns == 0 && row == 0 && col == 0
    {
      board := new int[3, 3]((_, _) => Empty);
      currentPlayer, winner, turns, row, col := 0, 0, 0, 0, 0;
      new;
    }

    /**
     * `reset_board`: every cell EMPTY, X to move, no winner, `turns` = 1; the
     * cursor stays where it is.
     */
    method Reset()
      requires Shaped()
      modifies this, board
      ensures Shaped() && board == old(board)
      ensures forall r, c :: 0 <= r < 3 && 0 <= c < 3 ==> board[r, c] == Empty
      ensures currentPlayer == PlayerX && winner == 0 && turns == 1
      ensures row == old(row) && col == old(col)
      ensures State() == Play.Reset(old(State()))
      ensures 0 <= row < 3 && 0 <= col < 3 ==> Valid()
    {
      ghost var s := State();
      currentPlayer := PlayerX;
      winner := 0;
      turns := 1;
      for i := 0 to 3
        modifies board
        invariant forall r, c :: 0 <= r < i && 0 <= c < 3 ==> board[r, c] == Empty
      {
        for j := 0 to 3
          modifies board
          invariant forall r, c :: 0 <= r < 3 && 0 <= c < 3 && (r < i || (r == i && c < j)) ==> board[r, c] == Empty
        {
          board[i, j] := Empty;
        }
      }
      if 0 <= row < 3 && 0 <= col < 3 {
        Play.ResetEstablishesInv(s);
      }
    }

    /**
     * `check_winner`: scans row i and column i for i = 0, 1, 2, then the two
     * diagonals, and returns the value of the first line whose three cells are
     * equal and not EMPTY, or 0.
     */
    method CheckWinner() returns (w: int)
      requires Shaped()
      ensures w == Winner(Cells())
    {
      ghost var g := Cells();
      for i := 0 to 3
        invariant forall j :: 0 <= j < i ==> !Complete(g, RowLine(j)) && !Complete(g, ColumnLine(j))
      {
        CellAt(i, 0); CellAt(i, 1); CellAt(i, 2);
        CellAt(0, i); CellAt(1, i); CellAt(2, i);
        if board[i, 0] == board[i, 1] && board[i, 1] == board[i, 2] && board[i, 0] != Empty {
          WinnerIsRow(g, i);
          return board[i, 0];
        }
        if board[0, i] == board[1, i] && board[1, i] == board[2, i] && board[0, i] != Empty {
          WinnerIsColumn(g, i);
          return board[0, i];
        }
      }
      CellAt(0, 0); CellAt(1, 1); CellAt(2, 2);
      CellAt(0, 2); CellAt(2, 0);
      WinnerAfterRowsAndColumns(g);
      if board[0, 0] == board[1, 1] && board[1, 1] == board[2, 2] && board[0, 0] != Empty {
        return board[0, 0];
      }
      if board[0, 2] == board[1, 1] && board[1, 1] == board[2, 0] && board[0, 2] != Empty {
        return board[0, 2];
      }
      return 0;
    }

    /** Start pressed after the game has ended resets it (`reset_board`, then `winner = 0`). */
    method PressStart(startDown: bool)
      requires Valid()
      modifies this, board
      ensures Valid() && board == old(board)
      ensures State() == Play.PressStart(old(State()), startDown)
    {
      if startDown && winner != 0 {
        Reset();
        winner := 0;
      }
    }

    /**
     * A pressed while the game is on and the cursor cell is EMPTY: the mark of
     * `currentPlayer` goes into the cell, `winner` is re-evaluated, the turn
     * passes to the other player, and a move that does not win is counted,
     * the 9th one ending the game in a tie.
     */
    method PressA(aDown: bool)
      requires Valid()
      modifies this, board
      ensures Valid() && board == old(board)
      ensures State() == Play.PressA(old(State()), aDown)
    {
      ghost var u := State();
      if winner == 0 {
        if aDown {
          if board[row, col] == Empty {
            Place();
            Play.PlaceKeepsInv(u);
          }
        }
      }
    }

    /** The body of the A branch: one mark at the cursor, then the bookkeeping. */
    method Place()
      requires Shaped() && 0 <= row < 3 && 0 <= col < 3
      modifies this, board
      ensures board == old(board)
      ensures State() == Play.Place(old(State()))
    {
      ghost var u := State();
      ghost var g := u.cells[3 * row + col := u.player];
      ghost var w := Winner(g);
      Play.PlaceFields(u, w);
      board[row, col] := currentPlayer;
      assert Cells() == g;
      winner := CheckWinner();
      currentPlayer := if currentPlayer == PlayerX then PlayerO else PlayerX;
      if winner == 0 {
        var t := turns;
        turns := turns + 1;
        if t == 9 {
          winner := Play.Tie;
        }
      }
      assert currentPlayer == Play.Toggle(u.player);
      assert winner == if w != 0 then w else if u.turns == 9 then Play.Tie else 0;
      assert turns == if w != 0 then u.turns else u.turns + 1;
      assert row == u.row && col == u.col;
      assert State() == Play.State(g, Play.Toggle(u.player),
        if w != 0 then w else if u.turns == 9 then Play.Tie else 0,
        if w != 0 then u.turns else u.turns + 1, u.row, u.col);
    }

    /** The stick moves the cursor one cell, wrapping around, once past the threshold. */
    method MoveCursor(stickX: int, stickY: int)
      modifies this`row, this`col
      ensures row == Play.MoveRow(old(row), stickY) && col == Play.MoveCol(old(col), stickX)
    {
      if stickY > Play.StickThreshold {
        row := if row == 0 then 2 else row - 1;
      } else if stickY < -Play.StickThreshold {
        row := if row == 2 then 0 else row + 1;
      }
      if stickX > Play.StickThreshold {
        col := if col == 2 then 0 else col + 1;
      } else if stickX < -Play.StickThreshold {
        col := if col == 0 then 2 else col - 1;
      }
    }

    /**
     * One frame of `update_cursor_position`, with the controller's report as
     * parameters: Start (pressed this frame), A (pressed this frame) and the
     * stick position. Start is handled first, then A at the cursor as it was
     * when the frame began, then the stick.
     */
    method Step(startDown: bool, aDown: bool, stickX: int, stickY: int)
      requires Valid()
      modifies this, board
      ensures Valid() && board == old(board)
      ensures State() == Play.Next(old(State()), Play.Input(startDown, aDown, stickX, stickY))
    {
      PressStart(startDown);
      PressA(aDown);
      ghost var u := State();
      MoveCursor(stickX, stickY);
      assert State() == u.(row := row, col := col);
      Play.CursorMoveKeepsInv(u, row, col);
    }
  }

  /** Program start: the globals as the loader leaves them, then `reset_board`. */
  method Boot() returns (g: Game)
    ensures fresh(g) && fresh(g.board)
    ensures g.Valid() && g.State() == Play.Initial()
  {
    g := new Game();
    g.Reset();
  }

  /**
   * The frame loop of `main`, for a finite run of frames: one `Step` per
   * controller report, which is exactly `Play.Run`.
   */
  method RunFrames(g: Game, inputs: seq<Play.Input>)
    requires g.Valid()
    modifies g, g.board
    ensures g.Valid() && g.board == old(g.board)
    ensures g.State() == Play.Run(old(g.State()), inputs)
  {
    ghost var s0 := g.State();
    for i := 0 to |inputs|
      invariant g.Valid() && g.board == old(g.board)
      invariant g.State() == Play.Run(s0, inputs[..i])
    {
      var input := inputs[i];
      g.Step(input.start, input.a, input.stickX, input.stickY);
      Play.RunConcat(s0, inputs[..i], [input]);
      assert inputs[..i + 1] == inputs[..i] + [input];
    }
    assert inputs[..|inputs|] == inputs;
  }
}
