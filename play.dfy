/**
 * The game state and what one frame of input does to it, as values.
 *
 * `State` gathers the globals of the C program (`board`, `current_player`,
 * `winner`, `turns`, `row`, `col`); `Next` is the state change that
 * `update_cursor_position` makes in one frame, given what the controller
 * reported in that frame. The class in module TicTacToe is proved to follow
 * these functions.
 */
module Play {
  import opened Rules

  /** The value of `winner` once the board is full without a line. */
  const Tie := 3

  /** `CONTROL_STICK_THRESHOLD`: how far the stick must be pushed to move the cursor. */
  const StickThreshold := 30

  datatype State = State(cells: Grid, player: int, winner: int, turns: int, row: int, col: int)

  /** What the controller reports in one frame: Start and A newly pressed, and the stick position. */
  datatype Input = Input(start: bool, a: bool, stickX: int, stickY: int)

  /** The three texts the status line can show. */
  datatype Banner = Title | Wins(player: int) | TieGame

  // ---------------------------------------------------------------------------
  // Counting marks

  /** The number of cells of s that hold v. */
  function Count(s: seq<int>, v: int): (n: nat)
    ensures n <= |s|
  {
    if s == [] then 0 else (if s[0] == v then 1 else 0) + Count(s[1..], v)
  }

  /** The number of non-empty cells. */
  function Filled(g: Grid): nat
  {
    |g| - Count(g, Empty)
  }

  /** Overwriting one element changes the count by what left and what came in. */
  lemma {:induction false} CountUpdate(s: seq<int>, k: nat, x: int, v: int)
    requires k < |s|
    ensures Count(s[k := x], v) == Count(s, v) - (if s[k] == v then 1 else 0) + (if x == v then 1 else 0)
  {
    if k == 0 {
      assert s[k := x][1..] == s[1..];
    } else {
      assert s[k := x][1..] == s[1..][k - 1 := x];
      CountUpdate(s[1..], k - 1, x, v);
    }
  }

  /** In a sequence whose elements all equal e, v occurs |s| times if v == e and never otherwise. */
  lemma {:induction false} CountConstant(s: seq<int>, e: int, v: int)
    requires forall i :: 0 <= i < |s| ==> s[i] == e
    ensures Count(s, v) == if v == e then |s| else 0
  {
    if s != [] {
      CountConstant(s[1..], e, v);
    }
  }

  /** When every element is one of three distinct values, their counts add up to the length. */
  lemma {:induction false} CountThreeValues(s: seq<int>, a: int, b: int, c: int)
    requires a != b && b != c && a != c
    requires forall i :: 0 <= i < |s| ==> s[i] == a || s[i] == b || s[i] == c
    ensures Count(s, a) + Count(s, b) + Count(s, c) == |s|
  {
    if s != [] {
      CountThreeValues(s[1..], a, b, c);
    }
  }

  // ---------------------------------------------------------------------------
  // The invariant of the game

  predicate CursorOnBoard(s: State)
  {
    0 <= s.row < 3 && 0 <= s.col < 3
  }

  /** The flat index of the cell under the cursor. */
  function CursorCell(s: State): Pos
    requires CursorOnBoard(s)
  {
    3 * s.row + s.col
  }

  /** `current_player` after a move: O after X, X after anything else. */
  function Toggle(p: int): int
  {
    if p == PlayerX then PlayerO else PlayerX
  }

  /**
   * What holds between frames once `reset_board` has run: cells hold marks or
   * EMPTY, the cursor is on the board, X has made as many moves as O or one
   * more, and `winner` and `turns` agree with the board; a winner is the only
   * player who owns a full line.
   */
  ghost predicate Inv(s: State)
  {
    && CellsValid(s.cells)
    && CursorOnBoard(s)
    && (s.player == PlayerX || s.player == PlayerO)
    && Count(s.cells, PlayerX) - Count(s.cells, PlayerO) == (if s.player == PlayerX then 0 else 1)
    && (s.winner == 0 ==>
          Winner(s.cells) == 0 && Filled(s.cells) < 9 && s.turns == Filled(s.cells) + 1)
    && (s.winner == Tie ==>
          Winner(s.cells) == 0 && Filled(s.cells) == 9 && s.turns == 10)
    && (s.winner != 0 && s.winner != Tie ==>
          (s.winner == PlayerX || s.winner == PlayerO) && Winner(s.cells) == s.winner &&
          s.player == Toggle(s.winner) && s.turns == Filled(s.cells) &&
          forall w :: HasLine(s.cells, w) ==> w == s.winner)
  }

  // ---------------------------------------------------------------------------
  // One frame

  /** `reset_board`: empties the board and restarts the turn state; the cursor stays. */
  function Reset(s: State): State
  {
    s.(cells := EmptyGrid, player := PlayerX, winner := 0, turns := 1)
  }

  /** The state when the frame loop starts: zero-initialised globals after `reset_board`. */
  function Initial(): State
  {
    Reset(State(EmptyGrid, 0, 0, 0, 0, 0))
  }

  /** Start resets the game, but only once it has ended. */
  function PressStart(s: State, start: bool): State
  {
    if start && s.winner != 0 then Reset(s) else s
  }

  /**
   * A successful placement: mark the cursor cell for the current player,
   * evaluate the board, hand the turn over, and count the move only when it
   * did not win; the 9th counted move ends the game in a tie.
   */
  function Place(s: State): State
    requires CursorOnBoard(s)
  {
    var cells := s.cells[CursorCell(s) := s.player];
    var w := Winner(cells);
    var next := s.(cells := cells, winner := w, player := Toggle(s.player));
    if w != 0 then next
    else next.(turns := s.turns + 1, winner := if s.turns == 9 then Tie else 0)
  }

  /** The fields of `Place(s)`, given the value of `Winner` on the new board. */
  lemma PlaceFields(s: State, w: int)
    requires CursorOnBoard(s) && w == Winner(s.cells[CursorCell(s) := s.player])
    ensures Place(s) == State(s.cells[CursorCell(s) := s.player], Toggle(s.player),
      if w != 0 then w else if s.turns == 9 then Tie else 0,
      if w != 0 then s.turns else s.turns + 1, s.row, s.col)
  {
  }

  /** A places a mark only while the game is on and the cursor cell is empty. */
  function PressA(s: State, a: bool): State
    requires CursorOnBoard(s)
  {
    if s.winner == 0 && a && s.cells[CursorCell(s)] == Empty then Place(s) else s
  }

  /** Pushing the stick up moves the cursor up a row, down moves it down, wrapping around. */
  function MoveRow(row: int, stickY: int): (r: int)
    ensures 0 <= row < 3 ==> 0 <= r < 3
  {
    if stickY > StickThreshold then (if row == 0 then 2 else row - 1)
    else if stickY < -StickThreshold then (if row == 2 then 0 else row + 1)
    else row
  }

  /** Pushing the stick right moves the cursor right a column, left moves it left, wrapping around. */
  function MoveCol(col: int, stickX: int): (c: int)
    ensures 0 <= col < 3 ==> 0 <= c < 3
  {
    if stickX > StickThreshold then (if col == 2 then 0 else col + 1)
    else if stickX < -StickThreshold then (if col == 0 then 2 else col - 1)
    else col
  }

  /** One frame of `update_cursor_position`: Start, then A, then the stick. */
  function Next(s: State, i: Input): (t: State)
    requires CursorOnBoard(s)
    ensures CursorOnBoard(t)
  {
    var u := PressA(PressStart(s, i.start), i.a);
    u.(row := MoveRow(u.row, i.stickY), col := MoveCol(u.col, i.stickX))
  }

  /** The frames of a session, one input per frame. */
  function Run(s: State, inputs: seq<Input>): (t: State)
    requires CursorOnBoard(s)
    ensures CursorOnBoard(t)
    decreases |inputs|
  {
    if inputs == [] then s else Run(Next(s, inputs[0]), inputs[1..])
  }

  /** The status line: the title while playing, the tie text, or the winner's number. */
  function StatusLine(winner: int): Banner
  {
    if winner == 0 then Title else if winner == Tie then TieGame else Wins(winner)
  }

  // ---------------------------------------------------------------------------
  // Properties

  /** X has made as many moves as O or one more, and the marks are the filled cells. */
  lemma MarkBalance(s: State)
    requires Inv(s)
    ensures 0 <= Count(s.cells, PlayerX) - Count(s.cells, PlayerO) <= 1
    ensures Count(s.cells, PlayerX) + Count(s.cells, PlayerO) == Filled(s.cells) <= 9
    ensures 1 <= s.turns <= 10
  {
    CountThreeValues(s.cells, Empty, PlayerX, PlayerO);
    if s.winner != 0 && s.winner != Tie {
      // the winner's line is on the board, so the board is not empty
      FirstCompleteOwned(s.cells, ScanOrder);
      var j :| 0 <= j < |ScanOrder| && Complete(s.cells, ScanOrder[j]) &&
               s.cells[ScanOrder[j].first] == Winner(s.cells);
      CountUpdate(s.cells, ScanOrder[j].first, Empty, s.winner);
    }
  }

  /** `reset_board` leaves a board with nothing on it and the invariant established. */
  lemma ResetEstablishesInv(s: State)
    requires CursorOnBoard(s)
    ensures Inv(Reset(s))
    ensures Filled(Reset(s).cells) == 0
  {
    var g := Reset(s).cells;
    CountConstant(g, Empty, Empty);
    CountConstant(g, Empty, PlayerX);
    CountConstant(g, Empty, PlayerO);
    EmptyGridHasNoWinner();
  }

  /** The game starts in a state that satisfies the invariant. */
  lemma InitialInv()
    ensures Inv(Initial())
  {
    ResetEstablishesInv(State(EmptyGrid, 0, 0, 0, 0, 0));
  }

  /**
   * A successful placement writes the mover's mark into the cursor cell and
   * nowhere else, always hands the turn to the other player, and ends the
   * game exactly when the mover completes a line (winner = mover, `turns`
   * unchanged) or fills the board without one (tie); otherwise `turns` counts
   * the move.
   */
  lemma PlacementOutcome(s: State)
    requires Inv(s) && s.winner == 0 && s.cells[CursorCell(s)] == Empty
    ensures var t := Place(s);
      && t.cells[CursorCell(s)] == s.player
      && (forall j :: 0 <= j < 9 && j != CursorCell(s) ==> t.cells[j] == s.cells[j])
      && Filled(t.cells) == Filled(s.cells) + 1
      && t.player != s.player && (t.player == PlayerX || t.player == PlayerO)
      && (t.winner == s.player <==> HasLine(t.cells, s.player))
      && (t.winner == Tie <==> !HasLine(t.cells, s.player) && Filled(t.cells) == 9)
      && (t.winner == 0 <==> !HasLine(t.cells, s.player) && Filled(t.cells) < 9)
      && t.turns == (if t.winner == s.player then s.turns else s.turns + 1)
  {
    var k := CursorCell(s);
    var t := Place(s);
    CountUpdate(s.cells, k, s.player, Empty);
    WinnerAfterMove(s.cells, k, s.player);
    assert s.player != Tie;
  }

  /** A placement keeps the invariant. */
  lemma PlaceKeepsInv(s: State)
    requires Inv(s) && s.winner == 0 && s.cells[CursorCell(s)] == Empty
    ensures Inv(Place(s))
  {
    var k := CursorCell(s);
    var t := Place(s);
    PlacementOutcome(s);
    CountUpdate(s.cells, k, s.player, PlayerX);
    CountUpdate(s.cells, k, s.player, PlayerO);
    WinnerIsCellValue(t.cells);
    WinnerAfterMove(s.cells, k, s.player);
    if t.winner == s.player {
      WinnerZeroIffNoLine(s.cells);
      forall w | HasLine(t.cells, w) ensures w == t.winner {
        if w != s.player {
          WriteAddsOnlyOwnLines(s.cells, k, s.player, w);
        }
      }
    }
  }

  /** Moving the cursor within the board keeps the invariant. */
  lemma CursorMoveKeepsInv(s: State, row: int, col: int)
    requires Inv(s) && 0 <= row < 3 && 0 <= col < 3
    ensures Inv(s.(row := row, col := col))
  {
  }

  /** Every frame keeps the invariant. */
  lemma NextKeepsInv(s: State, i: Input)
    requires Inv(s)
    ensures Inv(Next(s, i))
  {
    var u := PressStart(s, i.start);
    if i.start && s.winner != 0 {
      ResetEstablishesInv(s);
    }
    if u.winner == 0 && i.a && u.cells[CursorCell(u)] == Empty {
      PlaceKeepsInv(u);
    }
  }

  /** Any number of frames keeps the invariant. */
  lemma {:induction false} RunKeepsInv(s: State, inputs: seq<Input>)
    requires Inv(s)
    ensures Inv(Run(s, inputs))
    decreases |inputs|
  {
    if inputs != [] {
      NextKeepsInv(s, inputs[0]);
      RunKeepsInv(Next(s, inputs[0]), inputs[1..]);
    }
  }

  /** Playing two sessions one after the other is playing their concatenation. */
  lemma {:induction false} RunConcat(s: State, a: seq<Input>, b: seq<Input>)
    requires CursorOnBoard(s)
    ensures Run(s, a + b) == Run(Run(s, a), b)
    decreases |a|
  {
    if a != [] {
      assert (a + b)[0] == a[0] && (a + b)[1..] == a[1..] + b;
      RunConcat(Next(s, a[0]), a[1..], b);
    } else {
      assert a + b == b;
    }
  }

  /** A changes nothing but the cursor once the game is over or on an occupied cell. */
  lemma PressAIgnored(s: State, stickX: int, stickY: int)
    requires CursorOnBoard(s)
    requires s.winner != 0 || s.cells[CursorCell(s)] != Empty
    ensures Next(s, Input(false, true, stickX, stickY)) == Next(s, Input(false, false, stickX, stickY))
    ensures Next(s, Input(false, true, stickX, stickY)) ==
            s.(row := MoveRow(s.row, stickY), col := MoveCol(s.col, stickX))
  {
  }

  /** Start while a game is in progress changes nothing. */
  lemma StartIgnoredWhilePlaying(s: State, i: Input)
    requires CursorOnBoard(s) && s.winner == 0
    ensures Next(s, i) == Next(s, i.(start := false))
  {
  }

  /** A single mark on an empty board completes no line. */
  lemma FirstMoveWinsNothing(k: Pos)
    ensures Winner(EmptyGrid[k := PlayerX]) == 0
  {
    var g := EmptyGrid[k := PlayerX];
    EmptyGridHasNoWinner();
    WinnerAfterMove(EmptyGrid, k, PlayerX);
    assert !HasLine(g, PlayerX) by {
      forall j | 0 <= j < 9 && j != k ensures g[j] == Empty { }
    }
  }

  /**
   * Start after the game has ended empties the board and restarts the game;
   * A in the same frame then places X at the cursor as it was before the
   * stick moved it.
   */
  lemma StartRestarts(s: State, i: Input)
    requires Inv(s) && s.winner != 0 && i.start
    ensures var t := Next(s, i);
      && t.winner == 0
      && (!i.a ==> t.cells == EmptyGrid && t.player == PlayerX && t.turns == 1)
      && (i.a ==> t.cells == EmptyGrid[CursorCell(s) := PlayerX] && t.player == PlayerO && t.turns == 2)
  {
    ResetEstablishesInv(s);
    if i.a {
      FirstMoveWinsNothing(CursorCell(s));
    }
  }

  /** A placement uses the cursor cell as it was at the start of the frame; the stick moves the cursor afterwards. */
  lemma PlaceBeforeMove(s: State, i: Input)
    requires Inv(s) && s.winner == 0 && i.a && s.cells[CursorCell(s)] == Empty
    ensures Next(s, i).cells == s.cells[CursorCell(s) := s.player]
    ensures Next(s, i).row == MoveRow(s.row, i.stickY) && Next(s, i).col == MoveCol(s.col, i.stickX)
  {
  }

  /** The cursor moves by the stick in every frame, whether or not the game has ended. */
  lemma CursorAlwaysMoves(s: State, i: Input)
    requires CursorOnBoard(s)
    ensures Next(s, i).row == MoveRow(s.row, i.stickY) && Next(s, i).col == MoveCol(s.col, i.stickX)
  {
  }

  /** Row movement is a step of -1 (up) or +1 (down) modulo 3, and none within the threshold. */
  lemma MoveRowWraps(row: int, stickY: int)
    requires 0 <= row < 3
    ensures MoveRow(row, stickY) ==
      if stickY > StickThreshold then (row + 2) % 3
      else if stickY < -StickThreshold then (row + 1) % 3
      else row
  {
  }

  /** Column movement is a step of +1 (right) or -1 (left) modulo 3, and none within the threshold. */
  lemma MoveColWraps(col: int, stickX: int)
    requires 0 <= col < 3
    ensures MoveCol(col, stickX) ==
      if stickX > StickThreshold then (col + 1) % 3
      else if stickX < -StickThreshold then (col + 2) % 3
      else col
  {
  }

  /** The status line names the only player with a full line, announces a tie on a full board, or shows the title. */
  lemma StatusLineDescribesBoard(s: State)
    requires Inv(s)
    ensures StatusLine(s.winner) == Title <==> Winner(s.cells) == 0 && Filled(s.cells) < 9
    ensures StatusLine(s.winner) == TieGame <==>
      Filled(s.cells) == 9 && forall v :: !HasLine(s.cells, v)
    ensures StatusLine(s.winner).Wins? ==>
      var p := StatusLine(s.winner).player;
      (p == PlayerX || p == PlayerO) && HasLine(s.cells, p) &&
      forall w :: HasLine(s.cells, w) ==> w == p
  {
    WinnerZeroIffNoLine(s.cells);
    WinnerHasLine(s.cells);
  }
}
