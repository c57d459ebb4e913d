/**
 * Two complete games played frame by frame from the start of the program.
 * In every frame A is pressed, so a mark goes into the cursor cell, and the
 * stick (at ±100, well past the threshold, or at 0) then moves the cursor to
 * the cell wanted next. Each frame is its own lemma; the games chain them.
 */
module Scenarios {
  import opened Rules
  import opened Play

  /** A in this frame, then the stick at (x, y). */
  function Press(x: int, y: int): Input
  {
    Input(false, true, x, y)
  }

  // ---------------------------------------------------------------------------
  // X completes the top row

  /**
   * X plays (0, 0), (0, 1), (0, 2) while O answers at (1, 0) and (1, 1).
   */
  const TopRowGame: seq<Input> :=
    [Press(0, -100), Press(100, 100), Press(0, -100), Press(100, 100), Press(0, 0)]

  /** The board at the end of that game. */
  const TopRowBoard: Grid := [PlayerX, PlayerX, PlayerX, PlayerO, PlayerO, Empty, Empty, Empty, Empty]

  /** X at (0, 0); the stick goes down to (1, 0). */
  lemma TopRow1()
    ensures Next(State(EmptyGrid, PlayerX, 0, 1, 0, 0), TopRowGame[0]) == State([1, 0, 0, 0, 0, 0, 0, 0, 0], PlayerO, 0, 2, 1, 0)
  {
    var g := EmptyGrid[0 := PlayerX];
    assert g == [1, 0, 0, 0, 0, 0, 0, 0, 0];
    NoCompleteLineNoWinner(g);
  }

  /** O at (1, 0); up and right to (0, 1). */
  lemma TopRow2()
    ensures Next(State([1, 0, 0, 0, 0, 0, 0, 0, 0], PlayerO, 0, 2, 1, 0), TopRowGame[1])
      == State([1, 0, 0, 2, 0, 0, 0, 0, 0], PlayerX, 0, 3, 0, 1)
  {
    var g := [1, 0, 0, 0, 0, 0, 0, 0, 0][3 := PlayerO];
    assert g == [1, 0, 0, 2, 0, 0, 0, 0, 0];
    NoCompleteLineNoWinner(g);
  }

  /** X at (0, 1); down to (1, 1). */
  lemma TopRow3()
    ensures Next(State([1, 0, 0, 2, 0, 0, 0, 0, 0], PlayerX, 0, 3, 0, 1), TopRowGame[2])
      == State([1, 1, 0, 2, 0, 0, 0, 0, 0], PlayerO, 0, 4, 1, 1)
  {
    var g := [1, 0, 0, 2, 0, 0, 0, 0, 0][1 := PlayerX];
    assert g == [1, 1, 0, 2, 0, 0, 0, 0, 0];
    NoCompleteLineNoWinner(g);
  }

  /** O at (1, 1); up and right to (0, 2). */
  lemma TopRow4()
    ensures Next(State([1, 1, 0, 2, 0, 0, 0, 0, 0], PlayerO, 0, 4, 1, 1), TopRowGame[3])
      == State([1, 1, 0, 2, 2, 0, 0, 0, 0], PlayerX, 0, 5, 0, 2)
  {
    var g := [1, 1, 0, 2, 0, 0, 0, 0, 0][4 := PlayerO];
    assert g == [1, 1, 0, 2, 2, 0, 0, 0, 0];
    NoCompleteLineNoWinner(g);
  }

  /** X at (0, 2) completes the top row: X wins, the move is not counted, O would be next. */
  lemma TopRow5()
    ensures Next(State([1, 1, 0, 2, 2, 0, 0, 0, 0], PlayerX, 0, 5, 0, 2), TopRowGame[4])
      == State([1, 1, 1, 2, 2, 0, 0, 0, 0], PlayerO, PlayerX, 5, 0, 2)
  {
    var g := [1, 1, 0, 2, 2, 0, 0, 0, 0][2 := PlayerX];
    assert g == [1, 1, 1, 2, 2, 0, 0, 0, 0];
    WinnerIsRow(g, 0);
  }

  /**
   * The whole game: X wins on its third mark and the status line says so.
   *
   * The game is passed in as g, equal to the constant, so that the frames
   * are taken one at a time from the frame lemmas above rather than the
   * verifier unfolding `Run` over the literal all at once.
   */
  lemma {:induction false} XWinsTopRow(g: seq<Input>)
    requires g == TopRowGame
    ensures Run(Initial(), g) == State(TopRowBoard, PlayerO, PlayerX, 5, 0, 2)
    ensures StatusLine(Run(Initial(), g).winner) == Wins(PlayerX)
  {
    TopRow1(); TopRow2(); TopRow3(); TopRow4(); TopRow5();
    assert g[1..][0] == g[1] && g[2..][0] == g[2] && g[3..][0] == g[3] && g[4..][0] == g[4];
    assert g[1..][1..] == g[2..] && g[2..][1..] == g[3..] && g[3..][1..] == g[4..] && g[4..][1..] == [];
    calc {
      Run(Initial(), g);
      Run(State([1, 0, 0, 0, 0, 0, 0, 0, 0], PlayerO, 0, 2, 1, 0), g[1..]);
      Run(State([1, 0, 0, 2, 0, 0, 0, 0, 0], PlayerX, 0, 3, 0, 1), g[2..]);
      Run(State([1, 1, 0, 2, 0, 0, 0, 0, 0], PlayerO, 0, 4, 1, 1), g[3..]);
      Run(State([1, 1, 0, 2, 2, 0, 0, 0, 0], PlayerX, 0, 5, 0, 2), g[4..]);
      Run(State([1, 1, 1, 2, 2, 0, 0, 0, 0], PlayerO, PlayerX, 5, 0, 2), []);
    }
  }

  /** Start after the win empties the board; X is to play again and the cursor stays. */
  lemma TopRowRestart()
    ensures Next(State([1, 1, 1, 2, 2, 0, 0, 0, 0], PlayerO, PlayerX, 5, 0, 2), Input(true, false, 0, 0))
      == State(EmptyGrid, PlayerX, 0, 1, 0, 2)
  {
  }

  /**
   * The game above followed by a frame with Start: a fresh game. The game
   * is passed in as g for the same reason as in `XWinsTopRow`.
   */
  lemma {:induction false} StartAfterWin(g: seq<Input>)
    requires g == TopRowGame
    ensures Run(Run(Initial(), g), [Input(true, false, 0, 0)]) == State(EmptyGrid, PlayerX, 0, 1, 0, 2)
  {
    XWinsTopRow(g);
    TopRowRestart();
    assert [Input(true, false, 0, 0)][1..] == [];
  }

  // ---------------------------------------------------------------------------
  // A draw

  /**
   * Nine marks and no line; X ends on
   *   X O X
   *   X O O
   *   O X X
   */
  const DrawGame: seq<Input> :=
    [Press(100, 0), Press(100, 0), Press(-100, -100), Press(-100, 0), Press(-100, 0),
     Press(-100, -100), Press(-100, 0), Press(-100, 0), Press(0, 0)]

  /** The board at the end of that game. */
  const DrawBoard: Grid := [PlayerX, PlayerO, PlayerX, PlayerX, PlayerO, PlayerO, PlayerO, PlayerX, PlayerX]

  /** X at (0, 0); right to (0, 1). */
  lemma Draw1()
    ensures Next(State(EmptyGrid, PlayerX, 0, 1, 0, 0), DrawGame[0]) == State([1, 0, 0, 0, 0, 0, 0, 0, 0], PlayerO, 0, 2, 0, 1)
  {
    var g := EmptyGrid[0 := PlayerX];
    assert g == [1, 0, 0, 0, 0, 0, 0, 0, 0];
    NoCompleteLineNoWinner(g);
  }

  /** O at (0, 1); right to (0, 2). */
  lemma Draw2()
    ensures Next(State([1, 0, 0, 0, 0, 0, 0, 0, 0], PlayerO, 0, 2, 0, 1), DrawGame[1])
      == State([1, 2, 0, 0, 0, 0, 0, 0, 0], PlayerX, 0, 3, 0, 2)
  {
    var g := [1, 0, 0, 0, 0, 0, 0, 0, 0][1 := PlayerO];
    assert g == [1, 2, 0, 0, 0, 0, 0, 0, 0];
    NoCompleteLineNoWinner(g);
  }

  /** X at (0, 2); down and left to (1, 1). */
  lemma Draw3()
    ensures Next(State([1, 2, 0, 0, 0, 0, 0, 0, 0], PlayerX, 0, 3, 0, 2), DrawGame[2])
      == State([1, 2, 1, 0, 0, 0, 0, 0, 0], PlayerO, 0, 4, 1, 1)
  {
    var g := [1, 2, 0, 0, 0, 0, 0, 0, 0][2 := PlayerX];
    assert g == [1, 2, 1, 0, 0, 0, 0, 0, 0];
    NoCompleteLineNoWinner(g);
  }

  /** O at (1, 1); left to (1, 0). */
  lemma Draw4()
    ensures Next(State([1, 2, 1, 0, 0, 0, 0, 0, 0], PlayerO, 0, 4, 1, 1), DrawGame[3])
      == State([1, 2, 1, 0, 2, 0, 0, 0, 0], PlayerX, 0, 5, 1, 0)
  {
    var g := [1, 2, 1, 0, 0, 0, 0, 0, 0][4 := PlayerO];
    assert g == [1, 2, 1, 0, 2, 0, 0, 0, 0];
    NoCompleteLineNoWinner(g);
  }

  /** X at (1, 0); left, wrapping around to (1, 2). */
  lemma Draw5()
    ensures Next(State([1, 2, 1, 0, 2, 0, 0, 0, 0], PlayerX, 0, 5, 1, 0), DrawGame[4])
      == State([1, 2, 1, 1, 2, 0, 0, 0, 0], PlayerO, 0, 6, 1, 2)
  {
    var g := [1, 2, 1, 0, 2, 0, 0, 0, 0][3 := PlayerX];
    assert g == [1, 2, 1, 1, 2, 0, 0, 0, 0];
    NoCompleteLineNoWinner(g);
  }

  /** O at (1, 2); down and left to (2, 1). */
  lemma Draw6()
    ensures Next(State([1, 2, 1, 1, 2, 0, 0, 0, 0], PlayerO, 0, 6, 1, 2), DrawGame[5])
      == State([1, 2, 1, 1, 2, 2, 0, 0, 0], PlayerX, 0, 7, 2, 1)
  {
    var g := [1, 2, 1, 1, 2, 0, 0, 0, 0][5 := PlayerO];
    assert g == [1, 2, 1, 1, 2, 2, 0, 0, 0];
    NoCompleteLineNoWinner(g);
  }

  /** X at (2, 1); left to (2, 0). */
  lemma Draw7()
    ensures Next(State([1, 2, 1, 1, 2, 2, 0, 0, 0], PlayerX, 0, 7, 2, 1), DrawGame[6])
      == State([1, 2, 1, 1, 2, 2, 0, 1, 0], PlayerO, 0, 8, 2, 0)
  {
    var g := [1, 2, 1, 1, 2, 2, 0, 0, 0][7 := PlayerX];
    assert g == [1, 2, 1, 1, 2, 2, 0, 1, 0];
    NoCompleteLineNoWinner(g);
  }

  /** O at (2, 0); left, wrapping around to (2, 2). */
  lemma Draw8()
    ensures Next(State([1, 2, 1, 1, 2, 2, 0, 1, 0], PlayerO, 0, 8, 2, 0), DrawGame[7])
      == State([1, 2, 1, 1, 2, 2, 2, 1, 0], PlayerX, 0, 9, 2, 2)
  {
    var g := [1, 2, 1, 1, 2, 2, 0, 1, 0][6 := PlayerO];
    assert g == [1, 2, 1, 1, 2, 2, 2, 1, 0];
    NoCompleteLineNoWinner(g);
  }

  /** X at (2, 2) fills the board without a line while `turns` is 9: a tie. */
  lemma Draw9()
    ensures Next(State([1, 2, 1, 1, 2, 2, 2, 1, 0], PlayerX, 0, 9, 2, 2), DrawGame[8])
      == State([1, 2, 1, 1, 2, 2, 2, 1, 1], PlayerO, Tie, 10, 2, 2)
  {
    var g := [1, 2, 1, 1, 2, 2, 2, 1, 0][8 := PlayerX];
    assert g == [1, 2, 1, 1, 2, 2, 2, 1, 1];
    NoCompleteLineNoWinner(g);
  }

  /**
   * The whole game: nine counted moves, no line, a tie, and the status line
   * says so.
   *
   * The game is passed in as g, equal to the constant, so that the frames
   * are taken one at a time from the frame lemmas above rather than the
   * verifier unfolding `Run` over the literal all at once.
   */
  lemma {:induction false} NineMovesDraw(g: seq<Input>)
    requires g == DrawGame
    ensures Run(Initial(), g) == State(DrawBoard, PlayerO, Tie, 10, 2, 2)
    ensures StatusLine(Run(Initial(), g).winner) == TieGame
  {
    Draw1(); Draw2(); Draw3(); Draw4(); Draw5(); Draw6(); Draw7(); Draw8(); Draw9();
    assert g[1..][0] == g[1] && g[2..][0] == g[2] && g[3..][0] == g[3] && g[4..][0] == g[4];
    assert g[5..][0] == g[5] && g[6..][0] == g[6] && g[7..][0] == g[7] && g[8..][0] == g[8];
    assert g[1..][1..] == g[2..] && g[2..][1..] == g[3..] && g[3..][1..] == g[4..];
    assert g[4..][1..] == g[5..] && g[5..][1..] == g[6..] && g[6..][1..] == g[7..];
    assert g[7..][1..] == g[8..] && g[8..][1..] == [];
    calc {
      Run(Initial(), g);
      Run(State([1, 0, 0, 0, 0, 0, 0, 0, 0], PlayerO, 0, 2, 0, 1), g[1..]);
      Run(State([1, 2, 0, 0, 0, 0, 0, 0, 0], PlayerX, 0, 3, 0, 2), g[2..]);
      Run(State([1, 2, 1, 0, 0, 0, 0, 0, 0], PlayerO, 0, 4, 1, 1), g[3..]);
      Run(State([1, 2, 1, 0, 2, 0, 0, 0, 0], PlayerX, 0, 5, 1, 0), g[4..]);
      Run(State([1, 2, 1, 1, 2, 0, 0, 0, 0], PlayerO, 0, 6, 1, 2), g[5..]);
      Run(State([1, 2, 1, 1, 2, 2, 0, 0, 0], PlayerX, 0, 7, 2, 1), g[6..]);
      Run(State([1, 2, 1, 1, 2, 2, 0, 1, 0], PlayerO, 0, 8, 2, 0), g[7..]);
      Run(State([1, 2, 1, 1, 2, 2, 2, 1, 0], PlayerX, 0, 9, 2, 2), g[8..]);
      Run(State([1, 2, 1, 1, 2, 2, 2, 1, 1], PlayerO, Tie, 10, 2, 2), []);
    }
  }
}
