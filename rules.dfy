/**
 * The board of the game and its win evaluator.
 *
 * The C program keeps the board in `int board[3][3]`; here its nine cells are
 * a flat, row-major sequence, so that cell (r, c) is element 3 * r + c.
 * `Winner` is the value `check_winner` returns for a board.
 */
module Rules {

  /** Cell values (`EMPTY`, `PLAYER_X`, `PLAYER_O`). */
  const Empty := 0
  const PlayerX := 1
  const PlayerO := 2

  /** The nine cells of the board, row by row. */
  type Grid = g: seq<int> | |g| == 9 witness [0, 0, 0, 0, 0, 0, 0, 0, 0]

  /** A position on the board, as a flat index. */
  type Pos = k: int | 0 <= k < 9

  /** The cell `board[r][c]`. */
  function At(g: Grid, r: int, c: int): int
    requires 0 <= r < 3 && 0 <= c < 3
  {
    g[3 * r + c]
  }

  /** The board with every cell empty. */
  const EmptyGrid: Grid := [Empty, Empty, Empty, Empty, Empty, Empty, Empty, Empty, Empty]

  /**
   * A line of three cells. `check_winner` compares first with second and
   * second with third, tests first against EMPTY and returns first.
   */
  datatype Line = Line(first: Pos, second: Pos, third: Pos)

  function RowLine(i: int): Line
    requires 0 <= i < 3
  {
    Line(3 * i, 3 * i + 1, 3 * i + 2)
  }

  function ColumnLine(i: int): Line
    requires 0 <= i < 3
  {
    Line(i, i + 3, i + 6)
  }

  const MainDiagonal := Line(0, 4, 8)
  const AntiDiagonal := Line(2, 4, 6)

  /**
   * The order in which `check_winner` examines the eight lines: row i and then
   * column i for i = 0, 1, 2, then the main diagonal, then the anti-diagonal.
   */
  const ScanOrder: seq<Line> :=
    [Line(0, 1, 2), Line(0, 3, 6), Line(3, 4, 5), Line(1, 4, 7), Line(6, 7, 8), Line(2, 5, 8),
     Line(0, 4, 8), Line(2, 4, 6)]

  /** All rows first, then all columns, then the two diagonals. */
  const RowMajorOrder: seq<Line> :=
    [Line(0, 1, 2), Line(3, 4, 5), Line(6, 7, 8), Line(0, 3, 6), Line(1, 4, 7), Line(2, 5, 8),
     Line(0, 4, 8), Line(2, 4, 6)]

  /** The test `check_winner` applies to one line. */
  predicate Complete(g: Grid, l: Line)
  {
    g[l.first] == g[l.second] && g[l.second] == g[l.third] && g[l.first] != Empty
  }

  /** The owner of the first complete line of `lines`, or 0 when there is none. */
  function FirstComplete(g: Grid, lines: seq<Line>): int
  {
    if lines == [] then 0
    else if Complete(g, lines[0]) then g[lines[0].first]
    else FirstComplete(g, lines[1..])
  }

  /** The result of `check_winner` on board `g`. */
  function Winner(g: Grid): int
  {
    FirstComplete(g, ScanOrder)
  }

  /**
   * A reference definition, independent of the scan: some row, column or
   * diagonal has all three cells equal to the non-empty value v.
   */
  predicate HasLine(g: Grid, v: int)
  {
    v != Empty &&
    ((exists r :: 0 <= r < 3 && At(g, r, 0) == v && At(g, r, 1) == v && At(g, r, 2) == v) ||
     (exists c :: 0 <= c < 3 && At(g, 0, c) == v && At(g, 1, c) == v && At(g, 2, c) == v) ||
     (At(g, 0, 0) == v && At(g, 1, 1) == v && At(g, 2, 2) == v) ||
     (At(g, 0, 2) == v && At(g, 1, 1) == v && At(g, 2, 0) == v))
  }

  /** Every cell holds one of the three cell values. */
  predicate CellsValid(g: Grid)
  {
    forall k :: 0 <= k < 9 ==> g[k] == Empty || g[k] == PlayerX || g[k] == PlayerO
  }

  // ---------------------------------------------------------------------------
  // The scan over a list of lines

  /** The scan returns the owner of the first complete line. */
  lemma {:induction false} FirstCompleteIsFirst(g: Grid, lines: seq<Line>, k: nat)
    requires k < |lines| && Complete(g, lines[k])
    requires forall j :: 0 <= j < k ==> !Complete(g, lines[j])
    ensures FirstComplete(g, lines) == g[lines[k].first]
  {
    if k > 0 {
      assert !Complete(g, lines[0]);
      FirstCompleteIsFirst(g, lines[1..], k - 1);
    }
  }

  /** The scan returns 0 exactly when no line of the list is complete. */
  lemma {:induction false} FirstCompleteZero(g: Grid, lines: seq<Line>)
    ensures FirstComplete(g, lines) == 0 <==> forall j :: 0 <= j < |lines| ==> !Complete(g, lines[j])
  {
    if lines != [] {
      FirstCompleteZero(g, lines[1..]);
      if !Complete(g, lines[0]) {
        forall j | 0 < j < |lines| && !Complete(g, lines[1..][j - 1])
          ensures !Complete(g, lines[j])
        {
        }
      }
    }
  }

  /** A nonzero result is the owner of some complete line of the list. */
  lemma {:induction false} FirstCompleteOwned(g: Grid, lines: seq<Line>)
    ensures FirstComplete(g, lines) != 0 ==>
      exists j :: 0 <= j < |lines| && Complete(g, lines[j]) && g[lines[j].first] == FirstComplete(g, lines)
  {
    if lines != [] && !Complete(g, lines[0]) {
      FirstCompleteOwned(g, lines[1..]);
      if FirstComplete(g, lines) != 0 {
        var j :| 0 <= j < |lines| - 1 && Complete(g, lines[1..][j]) &&
                 g[lines[1..][j].first] == FirstComplete(g, lines[1..]);
        assert lines[j + 1] == lines[1..][j];
      }
    }
  }

  /**
   * Writing the non-empty value p into one cell of a board on which no line of
   * the list is complete can only complete lines owned by p.
   */
  lemma {:induction false} FirstCompleteAfterWrite(g: Grid, lines: seq<Line>, k: Pos, p: int)
    requires p != Empty
    requires FirstComplete(g, lines) == 0
    ensures FirstComplete(g[k := p], lines) == 0 || FirstComplete(g[k := p], lines) == p
  {
    if lines != [] {
      FirstCompleteZero(g, lines);
      assert !Complete(g, lines[0]);
      FirstCompleteZero(g, lines[1..]);
      FirstCompleteAfterWrite(g, lines[1..], k, p);
    }
  }

  // ---------------------------------------------------------------------------
  // check_winner

  /** The lines of the scan, one by one, in terms of rows, columns and diagonals. */
  lemma ScanOrderLines()
    ensures |ScanOrder| == 8
    ensures forall i :: 0 <= i < 3 ==> ScanOrder[2 * i] == RowLine(i) && ScanOrder[2 * i + 1] == ColumnLine(i)
    ensures ScanOrder[6] == MainDiagonal && ScanOrder[7] == AntiDiagonal
  {
  }

  /** Some line of the scan is complete and owned by v. */
  predicate Scanned(g: Grid, v: int)
  {
    exists j :: 0 <= j < |ScanOrder| && Complete(g, ScanOrder[j]) && g[ScanOrder[j].first] == v
  }

  /** A line of the scan whose three cells hold the non-empty value v is complete and owned by v. */
  lemma OwnedLineIsScanned(g: Grid, j: nat, v: int)
    requires j < |ScanOrder| && v != Empty
    requires g[ScanOrder[j].first] == v && g[ScanOrder[j].second] == v && g[ScanOrder[j].third] == v
    ensures Scanned(g, v)
  {
    assert Complete(g, ScanOrder[j]);
  }

  lemma RowIsScanned(g: Grid, r: int, v: int)
    requires 0 <= r < 3 && v != Empty
    requires At(g, r, 0) == v && At(g, r, 1) == v && At(g, r, 2) == v
    ensures Scanned(g, v)
  {
    if r == 0 {
      OwnedLineIsScanned(g, 0, v);
    } else if r == 1 {
      OwnedLineIsScanned(g, 2, v);
    } else {
      OwnedLineIsScanned(g, 4, v);
    }
  }

  lemma ColumnIsScanned(g: Grid, c: int, v: int)
    requires 0 <= c < 3 && v != Empty
    requires At(g, 0, c) == v && At(g, 1, c) == v && At(g, 2, c) == v
    ensures Scanned(g, v)
  {
    if c == 0 {
      OwnedLineIsScanned(g, 1, v);
    } else if c == 1 {
      OwnedLineIsScanned(g, 3, v);
    } else {
      OwnedLineIsScanned(g, 5, v);
    }
  }

  /** A full line of v on the board is a complete line of the scan owned by v. */
  lemma HasLineIsScanned(g: Grid, v: int)
    requires HasLine(g, v)
    ensures Scanned(g, v)
  {
    forall r | 0 <= r < 3 && At(g, r, 0) == v && At(g, r, 1) == v && At(g, r, 2) == v
      ensures Scanned(g, v)
    {
      RowIsScanned(g, r, v);
    }
    forall c | 0 <= c < 3 && At(g, 0, c) == v && At(g, 1, c) == v && At(g, 2, c) == v
      ensures Scanned(g, v)
    {
      ColumnIsScanned(g, c, v);
    }
    if At(g, 0, 0) == v && At(g, 1, 1) == v && At(g, 2, 2) == v {
      OwnedLineIsScanned(g, 6, v);
    }
    if At(g, 0, 2) == v && At(g, 1, 1) == v && At(g, 2, 0) == v {
      OwnedLineIsScanned(g, 7, v);
    }
  }

  /** A complete line of the scan owned by v is a full line of v on the board. */
  lemma ScannedIsHasLine(g: Grid, j: nat)
    requires j < |ScanOrder| && Complete(g, ScanOrder[j])
    ensures HasLine(g, g[ScanOrder[j].first])
  {
    var v := g[ScanOrder[j].first];
    if j == 0 || j == 2 || j == 4 {
      var r := j / 2;
      assert At(g, r, 0) == v && At(g, r, 1) == v && At(g, r, 2) == v;
    } else if j == 1 || j == 3 || j == 5 {
      var c := j / 2;
      assert At(g, 0, c) == v && At(g, 1, c) == v && At(g, 2, c) == v;
    }
  }

  /** Both the reference definition and the scan look at the same eight lines. */
  lemma LineOwnedIffHasLine(g: Grid, v: int)
    ensures HasLine(g, v) <==> Scanned(g, v)
  {
    if HasLine(g, v) {
      HasLineIsScanned(g, v);
    }
    if exists j :: 0 <= j < |ScanOrder| && Complete(g, ScanOrder[j]) && g[ScanOrder[j].first] == v {
      var j :| 0 <= j < |ScanOrder| && Complete(g, ScanOrder[j]) && g[ScanOrder[j].first] == v;
      ScannedIsHasLine(g, j);
    }
  }

  /**
   * `check_winner` returns the owner of the first complete line in scan
   * order: row 0, column 0, row 1, column 1, row 2, column 2, main diagonal,
   * anti-diagonal.
   */
  lemma WinnerIsFirstComplete(g: Grid, k: nat)
    requires k < |ScanOrder| && Complete(g, ScanOrder[k])
    requires forall j :: 0 <= j < k ==> !Complete(g, ScanOrder[j])
    ensures Winner(g) == g[ScanOrder[k].first]
  {
    FirstCompleteIsFirst(g, ScanOrder, k);
  }

  /** Row i is the first line found when it is complete and no earlier row or column is. */
  lemma WinnerIsRow(g: Grid, i: int)
    requires 0 <= i < 3 && Complete(g, RowLine(i))
    requires forall j :: 0 <= j < i ==> !Complete(g, RowLine(j)) && !Complete(g, ColumnLine(j))
    ensures Winner(g) == g[3 * i]
  {
    if i == 0 {
      WinnerIsFirstComplete(g, 0);
    } else if i == 1 {
      assert !Complete(g, RowLine(0)) && !Complete(g, ColumnLine(0));
      WinnerIsFirstComplete(g, 2);
    } else {
      assert !Complete(g, RowLine(0)) && !Complete(g, ColumnLine(0));
      assert !Complete(g, RowLine(1)) && !Complete(g, ColumnLine(1));
      WinnerIsFirstComplete(g, 4);
    }
  }

  /** Column i is the first line found when it is complete and no earlier line (row i included) is. */
  lemma WinnerIsColumn(g: Grid, i: int)
    requires 0 <= i < 3 && Complete(g, ColumnLine(i)) && !Complete(g, RowLine(i))
    requires forall j :: 0 <= j < i ==> !Complete(g, RowLine(j)) && !Complete(g, ColumnLine(j))
    ensures Winner(g) == g[i]
  {
    if i == 0 {
      WinnerIsFirstComplete(g, 1);
    } else if i == 1 {
      assert !Complete(g, RowLine(0)) && !Complete(g, ColumnLine(0));
      WinnerIsFirstComplete(g, 3);
    } else {
      assert !Complete(g, RowLine(0)) && !Complete(g, ColumnLine(0));
      assert !Complete(g, RowLine(1)) && !Complete(g, ColumnLine(1));
      WinnerIsFirstComplete(g, 5);
    }
  }

  /** With no complete row or column, the diagonals decide: main first, then anti. */
  lemma WinnerAfterRowsAndColumns(g: Grid)
    requires forall j :: 0 <= j < 3 ==> !Complete(g, RowLine(j)) && !Complete(g, ColumnLine(j))
    ensures Winner(g) ==
      if Complete(g, MainDiagonal) then g[0]
      else if Complete(g, AntiDiagonal) then g[2]
      else 0
  {
    assert !Complete(g, RowLine(0)) && !Complete(g, ColumnLine(0));
    assert !Complete(g, RowLine(1)) && !Complete(g, ColumnLine(1));
    assert !Complete(g, RowLine(2)) && !Complete(g, ColumnLine(2));
    if Complete(g, MainDiagonal) {
      WinnerIsFirstComplete(g, 6);
    } else if Complete(g, AntiDiagonal) {
      WinnerIsFirstComplete(g, 7);
    } else {
      WinnerZeroIffNoCompleteLine(g);
    }
  }

  /** `check_winner` returns 0 exactly when no line of the scan is complete. */
  lemma WinnerZeroIffNoCompleteLine(g: Grid)
    ensures Winner(g) == 0 <==> forall j :: 0 <= j < |ScanOrder| ==> !Complete(g, ScanOrder[j])
  {
    FirstCompleteZero(g, ScanOrder);
  }

  /** A nonzero result v of `check_winner` is a value with a full line on the board. */
  lemma WinnerHasLine(g: Grid)
    ensures Winner(g) != 0 ==> HasLine(g, Winner(g))
  {
    FirstCompleteOwned(g, ScanOrder);
    LineOwnedIffHasLine(g, Winner(g));
  }

  /** `check_winner` returns 0 exactly when no value has a full line. */
  lemma WinnerZeroIffNoLine(g: Grid)
    ensures Winner(g) == 0 <==> forall v :: !HasLine(g, v)
  {
    WinnerHasLine(g);
    FirstCompleteZero(g, ScanOrder);
    if Winner(g) == 0 {
      forall v ensures !HasLine(g, v) {
        LineOwnedIffHasLine(g, v);
      }
    }
  }

  /** When exactly one value has a full line, `check_winner` returns that value. */
  lemma WinnerIsSoleOwner(g: Grid, v: int)
    requires HasLine(g, v)
    requires forall w :: HasLine(g, w) ==> w == v
    ensures Winner(g) == v
  {
    WinnerZeroIffNoLine(g);
    WinnerHasLine(g);
  }

  /** The result of `check_winner` is 0 or the value of some cell, so it is a cell value. */
  lemma WinnerIsCellValue(g: Grid)
    requires CellsValid(g)
    ensures Winner(g) == Empty || Winner(g) == PlayerX || Winner(g) == PlayerO
  {
    FirstCompleteOwned(g, ScanOrder);
    if Winner(g) != 0 {
      var j :| 0 <= j < |ScanOrder| && Complete(g, ScanOrder[j]) && g[ScanOrder[j].first] == Winner(g);
      var k := ScanOrder[j].first;
      assert g[k] == Winner(g);
    }
  }

  /**
   * After p is written into a board without a complete line, `check_winner`
   * returns either 0 or p: only the mover can have won.
   */
  lemma WinnerAfterMove(g: Grid, k: Pos, p: int)
    requires p != Empty && Winner(g) == 0
    ensures Winner(g[k := p]) == 0 || Winner(g[k := p]) == p
    ensures Winner(g[k := p]) == p <==> HasLine(g[k := p], p)
  {
    FirstCompleteAfterWrite(g, ScanOrder, k, p);
    WinnerHasLine(g[k := p]);
    WinnerZeroIffNoLine(g[k := p]);
  }

  /** Writing p into one cell only adds lines owned by p: any other owner of a line already had it. */
  lemma WriteAddsOnlyOwnLines(g: Grid, k: Pos, p: int, w: int)
    requires w != p && HasLine(g[k := p], w)
    ensures HasLine(g, w)
  {
    var h := g[k := p];
    assert forall r, c :: 0 <= r < 3 && 0 <= c < 3 && At(h, r, c) == w ==> At(g, r, c) == w;
    if exists r :: 0 <= r < 3 && At(h, r, 0) == w && At(h, r, 1) == w && At(h, r, 2) == w {
      var r :| 0 <= r < 3 && At(h, r, 0) == w && At(h, r, 1) == w && At(h, r, 2) == w;
      assert At(g, r, 0) == w && At(g, r, 1) == w && At(g, r, 2) == w;
    } else if exists c :: 0 <= c < 3 && At(h, 0, c) == w && At(h, 1, c) == w && At(h, 2, c) == w {
      var c :| 0 <= c < 3 && At(h, 0, c) == w && At(h, 1, c) == w && At(h, 2, c) == w;
      assert At(g, 0, c) == w && At(g, 1, c) == w && At(g, 2, c) == w;
    } else if At(h, 0, 0) == w && At(h, 1, 1) == w && At(h, 2, 2) == w {
      assert At(g, 0, 0) == w && At(g, 1, 1) == w && At(g, 2, 2) == w;
    } else {
      assert At(g, 0, 2) == w && At(g, 1, 1) == w && At(g, 2, 0) == w;
    }
  }

  /** The empty board has no winner. */
  lemma EmptyGridHasNoWinner()
    ensures Winner(EmptyGrid) == 0
  {
    FirstCompleteZero(EmptyGrid, ScanOrder);
    forall j | 0 <= j < |ScanOrder| ensures !Complete(EmptyGrid, ScanOrder[j]) {
      var k := ScanOrder[j].first;
      assert EmptyGrid[k] == Empty;
    }
  }

  /** One step of the scan. */
  lemma FirstCompleteStep(g: Grid, lines: seq<Line>)
    requires lines != []
    ensures FirstComplete(g, lines) ==
      if Complete(g, lines[0]) then g[lines[0].first] else FirstComplete(g, lines[1..])
  {
  }

  /** The scan written out line by line, in the order of `check_winner`. */
  lemma WinnerUnrolled(g: Grid)
    ensures Winner(g) ==
      if Complete(g, Line(0, 1, 2)) then g[0]
      else if Complete(g, Line(0, 3, 6)) then g[0]
      else if Complete(g, Line(3, 4, 5)) then g[3]
      else if Complete(g, Line(1, 4, 7)) then g[1]
      else if Complete(g, Line(6, 7, 8)) then g[6]
      else if Complete(g, Line(2, 5, 8)) then g[2]
      else if Complete(g, Line(0, 4, 8)) then g[0]
      else if Complete(g, Line(2, 4, 6)) then g[2]
      else 0
  {
    var s := ScanOrder;
    FirstCompleteStep(g, s); FirstCompleteStep(g, s[1..]); FirstCompleteStep(g, s[2..]);
    FirstCompleteStep(g, s[3..]); FirstCompleteStep(g, s[4..]); FirstCompleteStep(g, s[5..]);
    FirstCompleteStep(g, s[6..]); FirstCompleteStep(g, s[7..]);
  }

  /** With none of the eight lines complete, `check_winner` returns 0. */
  lemma NoCompleteLineNoWinner(g: Grid)
    requires !Complete(g, Line(0, 1, 2)) && !Complete(g, Line(0, 3, 6)) && !Complete(g, Line(3, 4, 5))
    requires !Complete(g, Line(1, 4, 7)) && !Complete(g, Line(6, 7, 8)) && !Complete(g, Line(2, 5, 8))
    requires !Complete(g, Line(0, 4, 8)) && !Complete(g, Line(2, 4, 6))
    ensures Winner(g) == 0
  {
    WinnerUnrolled(g);
  }

  /**
   * Interleaving rows with columns gives the same answer as scanning all rows
   * before all columns, on every board: a row and a column always share a
   * cell, and so does a diagonal with any other line, so two complete lines
   * that the two orders could rank differently always have the same owner.
   */
  lemma ScanOrderIsImmaterial(g: Grid)
    ensures Winner(g) == FirstComplete(g, RowMajorOrder)
  {
    var m := RowMajorOrder;
    WinnerUnrolled(g);
    FirstCompleteStep(g, m); FirstCompleteStep(g, m[1..]); FirstCompleteStep(g, m[2..]);
    FirstCompleteStep(g, m[3..]); FirstCompleteStep(g, m[4..]); FirstCompleteStep(g, m[5..]);
    FirstCompleteStep(g, m[6..]); FirstCompleteStep(g, m[7..]);
  }
}
