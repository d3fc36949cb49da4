/**
  The Connect 4 value state: a board of `n_rows` rows by `n_cols` columns of integers (0 for
  an empty cell, a player's number for a disc) where row 0 is where a disc lands first.
  `add_disc` returns a new state built on a copy of the board, so a state never changes once
  made; the board is a Dafny sequence of rows.
*/
module Connect4 {
  import opened Common

  type Board = seq<seq<int>>

  /** A `Connect4State`. */
  datatype State = State(nRows: int, nCols: int, board: Board)
  {
    /** The board has `n_rows` rows of `n_cols` cells, as numpy keeps it. */
    predicate Shaped()
    {
      nRows >= 0 && nCols >= 0 && |board| == nRows && forall r :: 0 <= r < |board| ==> |board[r]| == nCols
    }
  }

  /** `np.zeros((n_rows, n_cols))`. */
  function Zeros(nRows: nat, nCols: nat): (b: Board)
  {
    seq(nRows, _ => seq(nCols, _ => 0))
  }

  /** `Connect4State(n_rows, n_cols)`: an all-zero board; `np.zeros` rejects a negative size. */
  function Initial(nRows: int, nCols: int): (s: Option<State>)
    ensures s.Some? <==> nRows >= 0 && nCols >= 0
    ensures s.Some? ==> s.value.Shaped() && s.value.nRows == nRows && s.value.nCols == nCols
  {
    if nRows < 0 || nCols < 0 then None else Some(State(nRows, nCols, Zeros(nRows, nCols)))
  }

  /** Column c of the board, from row 0 up: `board[:, c]`. */
  function Column(b: Board, c: nat): (col: seq<int>)
    requires forall r :: 0 <= r < |b| ==> c < |b[r]|
    ensures |col| == |b| && forall r :: 0 <= r < |b| ==> col[r] == b[r][c]
  {
    seq(|b|, r requires 0 <= r < |b| => b[r][c])
  }

  /** `np.sum(col > 0)`: the number of positive cells. */
  function CountPositive(col: seq<int>): nat
  {
    if col == [] then 0 else (if col[0] > 0 then 1 else 0) + CountPositive(col[1..])
  }

  /** `np.argmax(col == 0)` from index i on: the first empty row, or 0 when there is none. */
  function FirstEmpty(col: seq<int>, i: nat): (r: nat)
    ensures r == 0 || (i <= r < |col| && col[r] == 0)
    decreases |col| - i
  {
    if i >= |col| then 0 else if col[i] == 0 then i else FirstEmpty(col, i + 1)
  }

  /** The row `add_disc` writes: the first empty row when the column holds a positive cell, else row 0. */
  function LandingRow(col: seq<int>): (r: nat)
    ensures r == 0 || r < |col|
  {
    if CountPositive(col) > 0 then FirstEmpty(col, 0) else 0
  }

  /**
    `add_disc(idx_c, player)`: a copy of the board with `player` written into the landing row
    of column `idx_c`. A negative index counts from the right as numpy does; an index out of
    range, or a board without rows, raises IndexError, here `None`.
  */
  function AddDisc(s: State, idxC: int, player: int): (t: Option<State>)
    requires s.Shaped()
    ensures t.Some? ==> t.value.Shaped() && t.value.nRows == s.nRows && t.value.nCols == s.nCols
    ensures t.Some? <==> -s.nCols <= idxC < s.nCols && s.nRows > 0
  {
    var c := if idxC < 0 then idxC + s.nCols else idxC;
    if c < 0 || c >= s.nCols then None
    else
      var r := LandingRow(Column(s.board, c));
      if r >= s.nRows then None
      else Some(State(s.nRows, s.nCols, s.board[r := s.board[r][c := player]]))
  }

  /** `is_full`: no cell is 0. */
  predicate IsFull(s: State)
    requires s.Shaped()
  {
    forall r, c :: 0 <= r < s.nRows && 0 <= c < s.nCols ==> s.board[r][c] != 0
  }

  /** `is_root`: every cell is 0. */
  predicate IsRoot(s: State)
    requires s.Shaped()
  {
    forall r, c :: 0 <= r < s.nRows && 0 <= c < s.nCols ==> s.board[r][c] == 0
  }

  // ---------------------------------------------------------------------------
  // Four in a row

  /** `board[row, col:col + 4] == player` everywhere, with the run inside the board. */
  predicate HorizontalAt(s: State, player: int, r: int, c: int)
    requires s.Shaped()
  {
    0 <= r < s.nRows && 0 <= c && c + 3 < s.nCols &&
    s.board[r][c] == player && s.board[r][c + 1] == player && s.board[r][c + 2] == player && s.board[r][c + 3] == player
  }

  predicate VerticalAt(s: State, player: int, r: int, c: int)
    requires s.Shaped()
  {
    0 <= r && r + 3 < s.nRows && 0 <= c < s.nCols &&
    s.board[r][c] == player && s.board[r + 1][c] == player && s.board[r + 2][c] == player && s.board[r + 3][c] == player
  }

  predicate DiagonalAt(s: State, player: int, r: int, c: int)
    requires s.Shaped()
  {
    0 <= r && r + 3 < s.nRows && 0 <= c && c + 3 < s.nCols &&
    s.board[r][c] == player && s.board[r + 1][c + 1] == player && s.board[r + 2][c + 2] == player && s.board[r + 3][c + 3] == player
  }

  /** The secondary diagonal from (r, c) down-right to (r - 3, c + 3). */
  predicate AntiDiagonalAt(s: State, player: int, r: int, c: int)
    requires s.Shaped()
  {
    3 <= r < s.nRows && 0 <= c && c + 3 < s.nCols &&
    s.board[r][c] == player && s.board[r - 1][c + 1] == player && s.board[r - 2][c + 2] == player && s.board[r - 3][c + 3] == player
  }

  /** Four cells in a line, in any of the four directions, all hold `player`. */
  ghost predicate Wins(s: State, player: int)
    requires s.Shaped()
  {
    exists r, c :: HorizontalAt(s, player, r, c) || VerticalAt(s, player, r, c)
      || DiagonalAt(s, player, r, c) || AntiDiagonalAt(s, player, r, c)
  }

  /** `check_win(player)`: scan the four directions in turn and stop at the first run of four. */
  method CheckWin(s: State, player: int) returns (w: bool)
    requires s.Shaped()
    ensures w <==> Wins(s, player)
  {
    w := HorizontalWin(s, player);
    if w {
      return;
    }
    w := VerticalWin(s, player);
    if w {
      return;
    }
    w := DiagonalWin(s, player);
    if w {
      return;
    }
    w := AntiDiagonalWin(s, player);
  }

  /** The horizontal loops: rows in order, then the start columns 0 .. n_cols - 4. */
  method HorizontalWin(s: State, player: int) returns (w: bool)
    requires s.Shaped()
    ensures w <==> exists r, c :: HorizontalAt(s, player, r, c)
  {
    var row := 0;
    while row < s.nRows
      invariant 0 <= row <= s.nRows
      invariant forall r, c :: r < row ==> !HorizontalAt(s, player, r, c)
    {
      var col := 0;
      while col < s.nCols - 3
        invariant 0 <= col <= if s.nCols >= 3 then s.nCols - 3 else 0
        invariant forall r, c :: r < row ==> !HorizontalAt(s, player, r, c)
        invariant forall c :: c < col ==> !HorizontalAt(s, player, row, c)
      {
        if HorizontalAt(s, player, row, col) {
          return true;
        }
        col := col + 1;
      }
      row := row + 1;
    }
    return false;
  }

  /** The vertical loops: columns in order, then the start rows 0 .. n_rows - 4. */
  method VerticalWin(s: State, player: int) returns (w: bool)
    requires s.Shaped()
    ensures w <==> exists r, c :: VerticalAt(s, player, r, c)
  {
    var col := 0;
    while col < s.nCols
      invariant 0 <= col <= s.nCols
      invariant forall r, c :: c < col ==> !VerticalAt(s, player, r, c)
    {
      var row := 0;
      while row < s.nRows - 3
        invariant 0 <= row <= if s.nRows >= 3 then s.nRows - 3 else 0
        invariant forall r, c :: c < col ==> !VerticalAt(s, player, r, c)
        invariant forall r :: r < row ==> !VerticalAt(s, player, r, col)
      {
        if VerticalAt(s, player, row, col) {
          return true;
        }
        row := row + 1;
      }
      col := col + 1;
    }
    return false;
  }

  method DiagonalWin(s: State, player: int) returns (w: bool)
    requires s.Shaped()
    ensures w <==> exists r, c :: DiagonalAt(s, player, r, c)
  {
    var row := 0;
    while row < s.nRows - 3
      invariant 0 <= row <= if s.nRows >= 3 then s.nRows - 3 else 0
      invariant forall r, c :: r < row ==> !DiagonalAt(s, player, r, c)
    {
      var col := 0;
      while col < s.nCols - 3
        invariant 0 <= col <= if s.nCols >= 3 then s.nCols - 3 else 0
        invariant forall r, c :: r < row ==> !DiagonalAt(s, player, r, c)
        invariant forall c :: c < col ==> !DiagonalAt(s, player, row, c)
      {
        if DiagonalAt(s, player, row, col) {
          return true;
        }
        col := col + 1;
      }
      row := row + 1;
    }
    return false;
  }

  /** The secondary-diagonal loops: start rows 3 .. n_rows - 1. */
  method AntiDiagonalWin(s: State, player: int) returns (w: bool)
    requires s.Shaped()
    ensures w <==> exists r, c :: AntiDiagonalAt(s, player, r, c)
  {
    var row := 3;
    while row < s.nRows
      invariant 3 <= row <= if s.nRows >= 3 then s.nRows else 3
      invariant forall r, c :: r < row ==> !AntiDiagonalAt(s, player, r, c)
    {
      var col := 0;
      while col < s.nCols - 3
        invariant 0 <= col <= if s.nCols >= 3 then s.nCols - 3 else 0
        invariant forall r, c :: r < row ==> !AntiDiagonalAt(s, player, r, c)
        invariant forall c :: c < col ==> !AntiDiagonalAt(s, player, row, c)
      {
        if AntiDiagonalAt(s, player, row, col) {
          return true;
        }
        col := col + 1;
      }
      row := row + 1;
    }
    return false;
  }

  /** No run of four fits on a board with fewer than four rows and fewer than four columns. */
  lemma SmallBoardNoWin(s: State, player: int)
    requires s.Shaped() && s.nRows < 4 && s.nCols < 4
    ensures !Wins(s, player)
  {
  }

  // ---------------------------------------------------------------------------
  // The string key

  /** The digits of one row, `str(col)` for each cell, left to right. */
  function RowText(row: seq<int>): string
  {
    if row == [] then "" else RowText(row[..|row| - 1]) + IntToString(row[|row| - 1])
  }

  /** The rows from the last to the first, each followed by "-". */
  function BoardRaw(b: Board): string
  {
    if b == [] then "" else BoardRaw(b[1..]) + RowText(b[0]) + "-"
  }

  /** `str(state)`: the rows from the highest index down to row 0, joined by "-". */
  function BoardKey(b: Board): string
  {
    var raw := BoardRaw(b);
    if raw == "" then "" else raw[..|raw| - 1]
  }

  /** `__str__`: the loop over `board[::-1]`, then the cut of the last "-". */
  method Str(s: State) returns (str: string)
    ensures str == BoardKey(s.board)
  {
    var b := s.board;
    str := "";
    var i := |b|;
    while i > 0
      invariant 0 <= i <= |b|
      invariant str == BoardRaw(b[i..])
    {
      i := i - 1;
      var text := RowStr(b[i]);
      RawStep(b, i);
      str := str + text + "-";
    }
    assert b[0..] == b;
    if |str| > 0 {
      str := str[..|str| - 1];
    }
  }

  /** The inner loop of `__str__`: `str(col)` for each cell of one row. */
  method RowStr(row: seq<int>) returns (text: string)
    ensures text == RowText(row)
  {
    text := "";
    var j := 0;
    while j < |row|
      invariant 0 <= j <= |row|
      invariant text == RowText(row[..j])
    {
      assert row[..j + 1][..j] == row[..j];
      text := text + IntToString(row[j]);
      j := j + 1;
    }
    assert row[..j] == row;
  }

  lemma RawStep(b: Board, i: nat)
    requires i < |b|
    ensures BoardRaw(b[i..]) == BoardRaw(b[i + 1..]) + RowText(b[i]) + "-"
  {
    assert b[i..][1..] == b[i + 1..];
  }

  /** Every cell is a digit 0 .. 9, so `str` writes it as one character. */
  predicate Digits(b: Board)
  {
    forall r, c :: 0 <= r < |b| && 0 <= c < |b[r]| ==> 0 <= b[r][c] <= 9
  }

  predicate DigitRow(row: seq<int>)
  {
    forall c :: 0 <= c < |row| ==> 0 <= row[c] <= 9
  }

  lemma DigitText(d: int)
    requires 0 <= d <= 9
    ensures IntToString(d) == [DigitChar(d)]
  {
  }

  lemma {:induction false} RowTextDigits(row: seq<int>)
    requires DigitRow(row)
    ensures |RowText(row)| == |row|
    ensures forall c :: 0 <= c < |row| ==> RowText(row)[c] == DigitChar(row[c])
  {
    if row != [] {
      var init, d := row[..|row| - 1], row[|row| - 1];
      assert DigitRow(init) by {
        forall c | 0 <= c < |init|
          ensures 0 <= init[c] <= 9
        {
          assert init[c] == row[c];
        }
      }
      RowTextDigits(init);
      DigitText(d);
      var t := RowText(row);
      assert t == RowText(init) + [DigitChar(d)];
      forall c | 0 <= c < |row|
        ensures t[c] == DigitChar(row[c])
      {
        if c < |init| {
          assert row[c] == init[c];
        }
      }
    }
  }

  /** The first row and the remaining rows of a digit board are digit rows. */
  lemma DigitsSplit(b: Board)
    requires b != [] && Digits(b)
    ensures DigitRow(b[0]) && Digits(b[1..])
  {
    assert forall r :: 0 <= r < |b[1..]| ==> b[1..][r] == b[r + 1];
  }

  /** Every row has n cells. */
  predicate Rectangle(b: Board, n: nat)
  {
    forall r :: 0 <= r < |b| ==> |b[r]| == n
  }

  lemma RectangleSplit(b: Board, n: nat)
    requires b != [] && Rectangle(b, n)
    ensures |b[0]| == n && Rectangle(b[1..], n)
  {
    assert forall r :: 0 <= r < |b[1..]| ==> b[1..][r] == b[r + 1];
  }

  lemma {:induction false} BoardRawLength(b: Board, n: nat)
    requires Digits(b) && Rectangle(b, n)
    ensures |BoardRaw(b)| == |b| * (n + 1)
  {
    if b != [] {
      DigitsSplit(b);
      RectangleSplit(b, n);
      RowTextDigits(b[0]);
      BoardRawLength(b[1..], n);
      assert |RowText(b[0])| == n;
      assert BoardRaw(b) == BoardRaw(b[1..]) + RowText(b[0]) + "-";
      calc {
        |BoardRaw(b)|;
        |BoardRaw(b[1..])| + n + 1;
        |b[1..]| * (n + 1) + (n + 1);
        { MulSucc(|b[1..]|, n + 1); }
        |b| * (n + 1);
      }
    }
  }

  lemma MulSucc(k: nat, m: nat)
    ensures (k + 1) * m == k * m + m
  {
  }

  /** Each row's text has the same length, so equal raw texts come from equal boards. */
  lemma {:induction false} BoardRawInjective(a: Board, b: Board, n: nat)
    requires |a| == |b| && Digits(a) && Digits(b) && Rectangle(a, n) && Rectangle(b, n)
    requires BoardRaw(a) == BoardRaw(b)
    ensures a == b
  {
    if a != [] {
      RawSplit(a, b, n);
      DigitsSplit(a);
      DigitsSplit(b);
      RectangleSplit(a, n);
      RectangleSplit(b, n);
      RowTextInjective(a[0], b[0]);
      BoardRawInjective(a[1..], b[1..], n);
      assert a == [a[0]] + a[1..] && b == [b[0]] + b[1..];
    }
  }

  /** Equal raw texts of two digit boards of one shape have equal first rows' texts and equal rests. */
  lemma RawSplit(a: Board, b: Board, n: nat)
    requires a != [] && |a| == |b| && Digits(a) && Digits(b) && Rectangle(a, n) && Rectangle(b, n)
    requires BoardRaw(a) == BoardRaw(b)
    ensures RowText(a[0]) == RowText(b[0]) && BoardRaw(a[1..]) == BoardRaw(b[1..])
  {
    DigitsSplit(a);
    DigitsSplit(b);
    RectangleSplit(a, n);
    RectangleSplit(b, n);
    RowTextDigits(a[0]);
    RowTextDigits(b[0]);
    SameRawLength(a[1..], b[1..], n);
    var ta, tb := RowText(a[0]), RowText(b[0]);
    RawUnfold(a);
    RawUnfold(b);
    ConcatCancel(BoardRaw(a[1..]), ta + "-", BoardRaw(b[1..]), tb + "-");
    assert ta == (ta + "-")[..n] && tb == (tb + "-")[..n];
  }

  /** Digit boards of one shape have raw texts of one length. */
  lemma {:induction false} SameRawLength(a: Board, b: Board, n: nat)
    requires |a| == |b| && Digits(a) && Digits(b) && Rectangle(a, n) && Rectangle(b, n)
    ensures |BoardRaw(a)| == |BoardRaw(b)|
  {
    if a != [] {
      DigitsSplit(a);
      DigitsSplit(b);
      RectangleSplit(a, n);
      RectangleSplit(b, n);
      RowTextDigits(a[0]);
      RowTextDigits(b[0]);
      SameRawLength(a[1..], b[1..], n);
    }
  }

  lemma RowTextInjective(x: seq<int>, y: seq<int>)
    requires |x| == |y| && DigitRow(x) && DigitRow(y) && RowText(x) == RowText(y)
    ensures x == y
  {
    RowTextDigits(x);
    RowTextDigits(y);
    forall c | 0 <= c < |x|
      ensures x[c] == y[c]
    {
      assert DigitChar(x[c]) == RowText(x)[c] == RowText(y)[c] == DigitChar(y[c]);
    }
  }

  lemma RawUnfold(b: Board)
    requires b != []
    ensures BoardRaw(b) == BoardRaw(b[1..]) + (RowText(b[0]) + "-")
  {
  }

  lemma ConcatCancel<T>(x1: seq<T>, y1: seq<T>, x2: seq<T>, y2: seq<T>)
    requires |x1| == |x2| && x1 + y1 == x2 + y2
    ensures x1 == x2 && y1 == y2
  {
    assert x1 == (x1 + y1)[..|x1|] && x2 == (x2 + y2)[..|x2|];
    assert y1 == (x1 + y1)[|x1|..] && y2 == (x2 + y2)[|x2|..];
  }

  /**
    On boards of one shape whose cells are single digits the key names the board: different
    boards never share a memo key.
  */
  lemma KeyInjective(s: State, t: State)
    requires s.Shaped() && t.Shaped() && s.nRows == t.nRows && s.nCols == t.nCols
    requires Digits(s.board) && Digits(t.board) && BoardKey(s.board) == BoardKey(t.board)
    ensures s.board == t.board
  {
    SameRawLength(s.board, t.board, s.nCols);
    var ra, rb := BoardRaw(s.board), BoardRaw(t.board);
    if ra != "" {
      RawEndsDash(s.board);
      RawEndsDash(t.board);
      assert ra == ra[..|ra| - 1] + ['-'] && rb == rb[..|rb| - 1] + ['-'];
    }
    BoardRawInjective(s.board, t.board, s.nCols);
  }

  lemma RawEndsDash(b: Board)
    requires b != []
    ensures BoardRaw(b)[|BoardRaw(b)| - 1] == '-'
  {
  }

  // ---------------------------------------------------------------------------
  // Gravity and disc counts

  /** The number of leading positive cells of a column: its stack of discs. */
  function Height(col: seq<int>): (h: nat)
    ensures h <= |col| && forall r :: 0 <= r < h ==> col[r] > 0
    ensures h < |col| ==> col[h] <= 0
  {
    if col == [] || col[0] <= 0 then 0 else 1 + Height(col[1..])
  }

  /** Discs fill the column contiguously from row 0; above them every cell is 0. */
  predicate Settled(col: seq<int>)
  {
    forall r :: Height(col) <= r < |col| ==> col[r] == 0
  }

  /** Every column is settled: what a sequence of legal moves by positive players leaves. */
  predicate Gravity(s: State)
    requires s.Shaped()
  {
    forall c :: 0 <= c < s.nCols ==> Settled(Column(s.board, c))
  }

  lemma {:induction false} CountPositiveSettled(col: seq<int>)
    requires Settled(col)
    ensures CountPositive(col) == Height(col)
  {
    if col != [] {
      if col[0] > 0 {
        CountPositiveSettled(col[1..]);
      } else {
        ZeroCount(col);
      }
    }
  }

  lemma {:induction false} ZeroCount(col: seq<int>)
    requires forall r :: 0 <= r < |col| ==> col[r] == 0
    ensures CountPositive(col) == 0
  {
    if col != [] {
      ZeroCount(col[1..]);
    }
  }

  lemma {:induction false} FirstEmptyAt(col: seq<int>, i: nat, h: nat)
    requires i <= h < |col| && col[h] == 0 && forall r :: i <= r < h ==> col[r] != 0
    ensures FirstEmpty(col, i) == h
    decreases h - i
  {
    if i < h {
      FirstEmptyAt(col, i + 1, h);
    }
  }

  /** `argmax` of an all-False array is 0: a column without an empty cell lands on row 0. */
  lemma {:induction false} FirstEmptyNone(col: seq<int>, i: nat)
    requires forall r :: i <= r < |col| ==> col[r] != 0
    ensures FirstEmpty(col, i) == 0
    decreases |col| - i
  {
    if i < |col| {
      FirstEmptyNone(col, i + 1);
    }
  }

  /**
    On a settled column with room, the disc lands on the lowest empty row, just above the
    stack, and nothing else changes.
  */
  lemma AddDiscLands(s: State, c: nat, player: int)
    requires s.Shaped() && c < s.nCols && Settled(Column(s.board, c)) && Height(Column(s.board, c)) < s.nRows
    ensures var h := Height(Column(s.board, c));
      && s.board[h][c] == 0 && (forall r :: 0 <= r < h ==> s.board[r][c] != 0)
      && AddDisc(s, c, player) == Some(State(s.nRows, s.nCols, s.board[h := s.board[h][c := player]]))
  {
    var col := Column(s.board, c);
    var h := Height(col);
    CountPositiveSettled(col);
    if h > 0 {
      FirstEmptyAt(col, 0, h);
    }
  }

  /**
    With no legality check: an empty column takes the disc on row 0, and so does a full one,
    whose row-0 disc is overwritten.
  */
  lemma AddDiscRowZero(s: State, c: nat, player: int)
    requires s.Shaped() && c < s.nCols && s.nRows > 0
    requires (forall r :: 0 <= r < s.nRows ==> s.board[r][c] == 0) || (forall r :: 0 <= r < s.nRows ==> s.board[r][c] > 0)
    ensures AddDisc(s, c, player) == Some(State(s.nRows, s.nCols, s.board[0 := s.board[0][c := player]]))
  {
    var col := Column(s.board, c);
    if forall r :: 0 <= r < s.nRows ==> s.board[r][c] == 0 {
      ZeroCount(col);
    } else {
      FirstEmptyNone(col, 0);
    }
  }

  /** A positive player's legal move keeps every column settled. */
  lemma AddDiscGravity(s: State, c: nat, player: int)
    requires s.Shaped() && Gravity(s) && c < s.nCols && Height(Column(s.board, c)) < s.nRows && player > 0
    ensures AddDisc(s, c, player).Some? && Gravity(AddDisc(s, c, player).value)
  {
    AddDiscLands(s, c, player);
    var t := AddDisc(s, c, player).value;
    var h := Height(Column(s.board, c));
    forall k | 0 <= k < s.nCols
      ensures Settled(Column(t.board, k))
    {
      var old_, new_ := Column(s.board, k), Column(t.board, k);
      if k == c {
        assert new_ == old_[h := player];
        HeightGrows(old_, player);
      } else {
        assert new_ == old_;
      }
    }
  }

  /** Putting a positive disc on top of a settled stack raises it by one and keeps it settled. */
  lemma {:induction false} HeightGrows(col: seq<int>, player: int)
    requires Settled(col) && Height(col) < |col| && player > 0
    ensures Height(col[Height(col) := player]) == Height(col) + 1
    ensures Settled(col[Height(col) := player])
  {
    var h := Height(col);
    if h > 0 {
      assert col[1..] == col[1..];
      assert Settled(col[1..]) by {
        forall r | Height(col[1..]) <= r < |col[1..]|
          ensures col[1..][r] == 0
        {
          assert col[1..][r] == col[r + 1];
        }
      }
      HeightGrows(col[1..], player);
      assert col[h := player][1..] == col[1..][h - 1 := player];
    } else {
      var t := col[0 := player];
      if |col| > 1 {
        assert t[1..] == col[1..];
        ZeroHeight(col[1..]);
      }
    }
  }

  lemma ZeroHeight(col: seq<int>)
    requires col != [] && col[0] == 0
    ensures Height(col) == 0
  {
  }

  /** The number of non-zero cells of a row. */
  function Discs(row: seq<int>): (n: nat)
    ensures n <= |row|
  {
    if row == [] then 0 else (if row[0] != 0 then 1 else 0) + Discs(row[1..])
  }

  /** The number of non-zero cells of the board. */
  function BoardDiscs(b: Board): nat
  {
    if b == [] then 0 else Discs(b[0]) + BoardDiscs(b[1..])
  }

  lemma {:induction false} DiscsWrite(row: seq<int>, c: nat, v: int)
    requires c < |row| && row[c] == 0 && v != 0
    ensures Discs(row[c := v]) == Discs(row) + 1
  {
    if c > 0 {
      assert row[c := v][1..] == row[1..][c - 1 := v];
      DiscsWrite(row[1..], c - 1, v);
    }
  }

  lemma {:induction false} BoardDiscsWrite(b: Board, r: nat, row: seq<int>)
    requires r < |b|
    ensures BoardDiscs(b[r := row]) == BoardDiscs(b) - Discs(b[r]) + Discs(row)
  {
    if r > 0 {
      assert b[r := row][1..] == b[1..][r - 1 := row];
      BoardDiscsWrite(b[1..], r - 1, row);
    } else {
      assert b[r := row][1..] == b[1..];
    }
  }

  /** A non-zero disc dropped into a column with room adds exactly one disc to the board. */
  lemma AddDiscCounts(s: State, c: nat, player: int)
    requires s.Shaped() && c < s.nCols && Settled(Column(s.board, c)) && Height(Column(s.board, c)) < s.nRows
    requires player != 0
    ensures AddDisc(s, c, player).Some? && BoardDiscs(AddDisc(s, c, player).value.board) == BoardDiscs(s.board) + 1
  {
    AddDiscLands(s, c, player);
    var h := Height(Column(s.board, c));
    DiscsWrite(s.board[h], c, player);
    BoardDiscsWrite(s.board, h, s.board[h][c := player]);
  }

  lemma {:induction false} DiscsFull(row: seq<int>)
    ensures Discs(row) == |row| <==> forall c :: 0 <= c < |row| ==> row[c] != 0
    ensures Discs(row) == 0 <==> forall c :: 0 <= c < |row| ==> row[c] == 0
  {
    if row != [] {
      DiscsFull(row[1..]);
      if forall c :: 0 <= c < |row[1..]| ==> row[1..][c] != 0 {
        assert forall c :: 0 <= c < |row| ==> row[c] != 0 <==> c == 0 ==> row[0] != 0;
      }
    }
  }

  lemma {:induction false} BoardDiscsAtMost(b: Board, n: nat)
    requires forall r :: 0 <= r < |b| ==> |b[r]| == n
    ensures BoardDiscs(b) <= |b| * n
  {
    if b != [] {
      BoardDiscsAtMost(b[1..], n);
      MulSucc(|b[1..]|, n);
    }
  }

  lemma {:induction false} BoardDiscsFull(b: Board, n: nat)
    requires forall r :: 0 <= r < |b| ==> |b[r]| == n
    ensures BoardDiscs(b) == |b| * n <==> forall r, c :: 0 <= r < |b| && 0 <= c < n ==> b[r][c] != 0
  {
    if b != [] {
      var t := b[1..];
      DiscsFull(b[0]);
      BoardDiscsAtMost(t, n);
      BoardDiscsFull(t, n);
      assert |b| * n == |t| * n + n by { MulSucc(|t|, n); }
      assert forall r :: 1 <= r < |b| ==> b[r] == t[r - 1];
      if forall r, c :: 0 <= r < |b| && 0 <= c < n ==> b[r][c] != 0 {
        assert forall c :: 0 <= c < n ==> b[0][c] != 0;
        forall r, c | 0 <= r < |t| && 0 <= c < n
          ensures t[r][c] != 0
        {
          assert t[r] == b[r + 1];
        }
      }
    }
  }

  lemma {:induction false} BoardDiscsEmpty(b: Board, n: nat)
    requires forall r :: 0 <= r < |b| ==> |b[r]| == n
    ensures BoardDiscs(b) == 0 <==> forall r, c :: 0 <= r < |b| && 0 <= c < n ==> b[r][c] == 0
  {
    if b != [] {
      var t := b[1..];
      DiscsFull(b[0]);
      BoardDiscsEmpty(t, n);
      assert forall r :: 1 <= r < |b| ==> b[r] == t[r - 1];
      if forall r, c :: 0 <= r < |b| && 0 <= c < n ==> b[r][c] == 0 {
        assert forall c :: 0 <= c < n ==> b[0][c] == 0;
        forall r, c | 0 <= r < |t| && 0 <= c < n
          ensures t[r][c] == 0
        {
          assert t[r] == b[r + 1];
        }
      }
    }
  }

  /**
    `is_full` holds exactly when the board holds n_rows * n_cols discs and `is_root` exactly
    when it holds none; the initial state is a root.
  */
  lemma FullAndRoot(s: State)
    requires s.Shaped()
    ensures IsFull(s) <==> BoardDiscs(s.board) == s.nRows * s.nCols
    ensures IsRoot(s) <==> BoardDiscs(s.board) == 0
  {
    BoardDiscsFull(s.board, s.nCols);
    BoardDiscsEmpty(s.board, s.nCols);
  }

  lemma InitialIsRoot(nRows: nat, nCols: nat)
    ensures Initial(nRows, nCols).Some? && IsRoot(Initial(nRows, nCols).value) && Gravity(Initial(nRows, nCols).value)
  {
    var s := Initial(nRows, nCols).value;
    forall c | 0 <= c < nCols
      ensures Settled(Column(s.board, c))
    {
      var col := Column(s.board, c);
      if col != [] {
        ZeroHeight(col);
      }
    }
  }

  // ---------------------------------------------------------------------------
  // is_terminal of connect_4_minimax.py

  /**
    `is_terminal` as written in `connect_4_minimax.py`: it calls `check_alignments(4, 1)`, one
    argument more than the method takes, so Python raises TypeError on every state before
    anything is looked at; `None` stands for that error.
  */
  function IsTerminalAsWritten(s: State): (r: Option<bool>)
    ensures r.None?
  {
    None
  }

  /**
    What `is_terminal` evidently means: player 1 has four in a row, the board is full, or
    player 2 has four in a row, looked at in that order.
  */
  method IsTerminal(s: State) returns (t: bool)
    requires s.Shaped()
    ensures t <==> Wins(s, 1) || IsFull(s) || Wins(s, 2)
  {
    t := CheckWin(s, 1);
    if !t {
      t := IsFull(s);
    }
    if !t {
      t := CheckWin(s, 2);
    }
  }

  /** A board of zeros with at least one cell is not over. */
  lemma RootNotTerminal(s: State)
    requires s.Shaped()
    ensures IsRoot(s) && s.nRows > 0 && s.nCols > 0 ==> !(Wins(s, 1) || IsFull(s) || Wins(s, 2))
  {
    if IsRoot(s) && s.nRows > 0 && s.nCols > 0 {
      assert s.board[0][0] == 0;
    }
  }
}
