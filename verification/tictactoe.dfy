/**
  The numerical tic-tac-toe state of `tictactoe_minimax.py`: two 3x3 grids, `board` holding the
  numbers written so far (0 for an empty cell) and `moves` holding who wrote each one, plus
  the list of empty cells computed when a state is built. Adding a symbol never changes a
  state: it returns a new one. A line wins when its numbers sum to 15.
*/
module TicTacToe {
  import opened Common

  /** A 3x3 grid of numbers, indexed by row and then column. */
  type Grid = g: seq<seq<int>> | |g| == 3 && forall i :: 0 <= i < 3 ==> |g[i]| == 3
    witness [[0, 0, 0], [0, 0, 0], [0, 0, 0]]

  const Zeros: Grid := [[0, 0, 0], [0, 0, 0], [0, 0, 0]]

  /** A `(row, col)` pair. */
  datatype Cell = Cell(row: nat, col: nat)

  /** A state: the two grids and the empty cells of `board`, as the constructor leaves them. */
  datatype Game = Game(board: Grid, moves: Grid, allowedMoves: seq<Cell>)

  /** The cell at row-major position k, the position of `Cell(r, c)` being `3 * r + c`. */
  function CellAt(k: nat): (c: Cell)
    requires k < 9
    ensures c.row < 3 && c.col < 3 && 3 * c.row + c.col == k
  {
    Cell(k / 3, k % 3)
  }

  lemma CellAtKey(c: Cell)
    requires c.row < 3 && c.col < 3
    ensures CellAt(3 * c.row + c.col) == c
  {
    var k := 3 * c.row + c.col;
    assert k / 3 == c.row && k % 3 == c.col by {
      if c.row == 0 { assert k == c.col; }
      else if c.row == 1 { assert k == 3 + c.col; }
      else { assert k == 6 + c.col; }
    }
  }

  // ---------------------------------------------------------------------------
  // Construction and the allowed moves

  /** `TicTacToe(board, moves)`: the grids as given, and the empty cells of `board`. */
  function Make(board: Grid, moves: Grid): Game
  {
    Game(board, moves, AllowedMoves(board))
  }

  /** `init_allowed_moves`: every cell of `board` holding 0, in row-major order. */
  function AllowedMoves(board: Grid): seq<Cell>
  {
    AllowedFrom(board, 0)
  }

  /** The empty cells from row-major position k on. */
  function AllowedFrom(board: Grid, k: nat): seq<Cell>
    requires k <= 9
    decreases 9 - k, board
  {
    if k == 9 then []
    else
      var c := CellAt(k);
      (if board[c.row][c.col] == 0 then [c] else []) + AllowedFrom(board, k + 1)
  }

  lemma {:induction false} AllowedFromSpec(board: Grid, k: nat)
    requires k <= 9
    ensures forall c :: c in AllowedFrom(board, k) <==> c.row < 3 && c.col < 3 && k <= 3 * c.row + c.col && board[c.row][c.col] == 0
    ensures forall a :: 0 <= a < |AllowedFrom(board, k)| ==> k <= 3 * AllowedFrom(board, k)[a].row + AllowedFrom(board, k)[a].col
    ensures forall a, b :: 0 <= a < b < |AllowedFrom(board, k)| ==> 3 * AllowedFrom(board, k)[a].row + AllowedFrom(board, k)[a].col < 3 * AllowedFrom(board, k)[b].row + AllowedFrom(board, k)[b].col
    decreases 9 - k
  {
    if k < 9 {
      AllowedFromSpec(board, k + 1);
      forall c: Cell | c.row < 3 && c.col < 3 && 3 * c.row + c.col == k
        ensures c == CellAt(k)
      {
        CellAtKey(c);
      }
    }
  }

  /**
    The allowed moves are exactly the empty cells of the board, each once, in row-major
    order.
  */
  lemma AllowedMovesSpec(board: Grid)
    ensures forall c :: c in AllowedMoves(board) <==> c.row < 3 && c.col < 3 && board[c.row][c.col] == 0
    ensures forall a, b :: 0 <= a < b < |AllowedMoves(board)| ==> 3 * AllowedMoves(board)[a].row + AllowedMoves(board)[a].col < 3 * AllowedMoves(board)[b].row + AllowedMoves(board)[b].col
  {
    AllowedFromSpec(board, 0);
  }

  /** The default state: both grids zero, and every cell allowed, row by row. */
  function Default(): (g: Game)
    ensures g.board == Zeros && g.moves == Zeros
    ensures g.allowedMoves == [Cell(0, 0), Cell(0, 1), Cell(0, 2), Cell(1, 0), Cell(1, 1), Cell(1, 2), Cell(2, 0), Cell(2, 1), Cell(2, 2)]
  {
    Make(Zeros, Zeros)
  }

  // ---------------------------------------------------------------------------
  // Adding a symbol

  /** A numpy index into an axis of length 3: negative indices count from the end; others raise. */
  function Wrap(i: int): (r: Option<nat>)
    ensures r.Some? <==> -3 <= i < 3
    ensures r.Some? ==> r.value < 3 && (r.value == i || r.value == i + 3)
  {
    if 0 <= i < 3 then Some(i) else if -3 <= i < 0 then Some(i + 3) else None
  }

  /** A copy of g with cell (i, j) set to x. */
  function Write(g: Grid, i: nat, j: nat, x: int): Grid
    requires i < 3 && j < 3
  {
    g[i := g[i][j := x]]
  }

  /** The cell (i, j) of the copy holds x and every other cell is unchanged. */
  lemma WriteCells(g: Grid, i: nat, j: nat, x: int)
    requires i < 3 && j < 3
    ensures Write(g, i, j, x)[i][j] == x
    ensures forall a, b :: 0 <= a < 3 && 0 <= b < 3 && (a != i || b != j) ==> Write(g, i, j, x)[a][b] == g[a][b]
  {
  }

  /**
    `add_symbol(num, row, col, player)`: a new state whose board holds num and whose moves
    hold player at (row, col), everything else copied; None where numpy raises IndexError.
  */
  function AddSymbol(g: Game, num: int, row: int, col: int, player: int): (r: Option<Game>)
    ensures r.None? <==> !(-3 <= row < 3 && -3 <= col < 3)
    ensures r.Some? ==> var i, j := Wrap(row).value, Wrap(col).value;
      && r.value.board[i][j] == num && r.value.moves[i][j] == player
      && (forall a, b :: 0 <= a < 3 && 0 <= b < 3 && (a != i || b != j) ==>
            r.value.board[a][b] == g.board[a][b] && r.value.moves[a][b] == g.moves[a][b])
      && r.value.allowedMoves == AllowedMoves(r.value.board)
  {
    match (Wrap(row), Wrap(col))
    case (Some(i), Some(j)) =>
      WriteCells(g.board, i, j, num);
      WriteCells(g.moves, i, j, player);
      Some(Make(Write(g.board, i, j, num), Write(g.moves, i, j, player)))
    case _ => None
  }

  /** s with every occurrence of x left out, the rest in order. */
  function Without(s: seq<Cell>, x: Cell): (r: seq<Cell>)
    ensures forall c :: c in r <==> c in s && c != x
  {
    if s == [] then [] else (if s[0] == x then [] else [s[0]]) + Without(s[1..], x)
  }

  lemma {:induction false} AllowedAfterWrite(board: Grid, i: nat, j: nat, num: int, k: nat)
    requires i < 3 && j < 3 && board[i][j] == 0 && num != 0 && k <= 9
    ensures AllowedFrom(Write(board, i, j, num), k) == Without(AllowedFrom(board, k), Cell(i, j))
    decreases 9 - k
  {
    if k < 9 {
      AllowedAfterWrite(board, i, j, num, k + 1);
      var c := CellAt(k);
      var head := if board[c.row][c.col] == 0 then [c] else [];
      var rest := AllowedFrom(board, k + 1);
      WriteCells(board, i, j, num);
      CellAtKey(Cell(i, j));
      if head == [] {
        assert AllowedFrom(board, k) == rest;
      } else {
        assert (head + rest)[0] == c && (head + rest)[1..] == rest;
      }
    }
  }

  /**
    Writing a non-zero number into an empty cell of a state built from its board removes that
    cell, and only that one, from the allowed moves, keeping the others in order.
  */
  lemma AddSymbolAllowed(g: Game, num: int, row: int, col: int, player: int)
    requires g.allowedMoves == AllowedMoves(g.board)
    requires -3 <= row < 3 && -3 <= col < 3 && num != 0
    requires g.board[Wrap(row).value][Wrap(col).value] == 0
    ensures AddSymbol(g, num, row, col, player).value.allowedMoves == Without(g.allowedMoves, Cell(Wrap(row).value, Wrap(col).value))
  {
    AllowedAfterWrite(g.board, Wrap(row).value, Wrap(col).value, num, 0);
  }

  // ---------------------------------------------------------------------------
  // Alignments

  function RowSum(b: Grid, i: nat): int
    requires i < 3
  {
    b[i][0] + b[i][1] + b[i][2]
  }

  function ColSum(b: Grid, j: nat): int
    requires j < 3
  {
    b[0][j] + b[1][j] + b[2][j]
  }

  /** `np.diag(board)`, summed. */
  function DiagSum(b: Grid): int
  {
    b[0][0] + b[1][1] + b[2][2]
  }

  /** `np.diag(np.fliplr(board))`, summed: the cells (k, 2 - k). */
  function AntiSum(b: Grid): int
  {
    b[0][2] + b[1][1] + b[2][0]
  }

  /** Some row, some column or one of the two diagonals sums to 15. */
  predicate Aligned(b: Grid)
  {
    (exists i :: 0 <= i < 3 && (RowSum(b, i) == 15 || ColSum(b, i) == 15)) || DiagSum(b) == 15 || AntiSum(b) == 15
  }

  /** The eight lines of the board, as cells. */
  const Lines: seq<seq<Cell>> := [
    [Cell(0, 0), Cell(0, 1), Cell(0, 2)], [Cell(1, 0), Cell(1, 1), Cell(1, 2)], [Cell(2, 0), Cell(2, 1), Cell(2, 2)],
    [Cell(0, 0), Cell(1, 0), Cell(2, 0)], [Cell(0, 1), Cell(1, 1), Cell(2, 1)], [Cell(0, 2), Cell(1, 2), Cell(2, 2)],
    [Cell(0, 0), Cell(1, 1), Cell(2, 2)], [Cell(0, 2), Cell(1, 1), Cell(2, 0)]]

  /** The number on a cell of the board; 0 off the board. */
  function At(b: Grid, c: Cell): int
  {
    if c.row < 3 && c.col < 3 then b[c.row][c.col] else 0
  }

  /** The sum of the numbers on the three cells of a line. */
  function Total(b: Grid, line: seq<Cell>): int
    requires |line| == 3
  {
    At(b, line[0]) + At(b, line[1]) + At(b, line[2])
  }

  /** `Aligned` is the magic-square win: some one of the eight lines totals 15. */
  lemma AlignedIffLine(b: Grid)
    ensures Aligned(b) <==> exists l :: 0 <= l < 8 && Total(b, Lines[l]) == 15
  {
    assert forall l :: 0 <= l < 3 ==> Total(b, Lines[l]) == RowSum(b, l);
    assert forall l :: 3 <= l < 6 ==> Total(b, Lines[l]) == ColSum(b, l - 3);
    assert Total(b, Lines[6]) == DiagSum(b) && Total(b, Lines[7]) == AntiSum(b);
    if Aligned(b) {
      if i :| 0 <= i < 3 && RowSum(b, i) == 15 {
        assert Total(b, Lines[i]) == 15;
      } else if i :| 0 <= i < 3 && ColSum(b, i) == 15 {
        assert Total(b, Lines[i + 3]) == 15;
      } else if DiagSum(b) == 15 {
        assert Total(b, Lines[6]) == 15;
      } else {
        assert Total(b, Lines[7]) == 15;
      }
    }
    if l :| 0 <= l < 8 && Total(b, Lines[l]) == 15 {
      if l < 3 {
        assert RowSum(b, l) == 15;
      } else if l < 6 {
        assert ColSum(b, l - 3) == 15;
      }
    }
  }

  /**
    `check_alignments`: for each i, row i, then column i, then the two diagonals; true as
    soon as one sums to 15.
  */
  method CheckAlignments(g: Game) returns (r: bool)
    ensures r <==> Aligned(g.board)
  {
    var b := g.board;
    var i := 0;
    while i < 3
      invariant 0 <= i <= 3
      invariant forall k :: 0 <= k < i ==> RowSum(b, k) != 15 && ColSum(b, k) != 15
      invariant i > 0 ==> DiagSum(b) != 15 && AntiSum(b) != 15
    {
      if RowSum(b, i) == 15 {
        return true;
      }
      if ColSum(b, i) == 15 {
        return true;
      }
      if DiagSum(b) == 15 || AntiSum(b) == 15 {
        return true;
      }
      i := i + 1;
    }
    return false;
  }

  // ---------------------------------------------------------------------------
  // Score, root and terminal states

  /** The number of cells from row-major position k on whose entry is x. */
  function CountFrom(g: Grid, x: int, k: nat): (n: nat)
    requires k <= 9
    ensures n <= 9 - k
    decreases 9 - k, g
  {
    if k == 9 then 0
    else (if g[CellAt(k).row][CellAt(k).col] == x then 1 else 0) + CountFrom(g, x, k + 1)
  }

  /** `np.sum(grid == x)`. */
  function Count(g: Grid, x: int): nat
  {
    CountFrom(g, x, 0)
  }

  /**
    `score_fun(player)`: half the board, rounded down, plus one for player 1, less the
    number of cells the player has written; it lies between that bonus less 9 and the bonus.
  */
  function ScoreFun(g: Game, player: int): (s: int)
    ensures var top := 3 * 3 / 2 + (if player == 1 then 1 else 0);
      top - 9 <= s <= top
  {
    3 * 3 / 2 + (if player == 1 then 1 else 0) - Count(g.moves, player)
  }

  lemma {:induction false} CountAfterWrite(g: Grid, i: nat, j: nat, y: int, x: int, k: nat)
    requires i < 3 && j < 3 && k <= 9
    ensures CountFrom(Write(g, i, j, y), x, k) ==
      CountFrom(g, x, k) + (if k <= 3 * i + j then (if y == x then 1 else 0) - (if g[i][j] == x then 1 else 0) else 0)
    decreases 9 - k
  {
    if k < 9 {
      CountAfterWrite(g, i, j, y, x, k + 1);
      WriteCells(g, i, j, y);
      CellAtKey(Cell(i, j));
    }
  }

  /**
    A symbol written by player into a cell of `moves` that held someone else lowers the
    player's score by one; every other player's score is unchanged unless the cell was theirs.
  */
  lemma ScoreAfterAdd(g: Game, num: int, row: int, col: int, player: int, who: int)
    requires -3 <= row < 3 && -3 <= col < 3
    ensures var i, j := Wrap(row).value, Wrap(col).value;
      ScoreFun(AddSymbol(g, num, row, col, player).value, who) ==
        ScoreFun(g, who) - (if player == who then 1 else 0) + (if g.moves[i][j] == who then 1 else 0)
  {
    CountAfterWrite(g.moves, Wrap(row).value, Wrap(col).value, player, who, 0);
  }

  /** `np.any(board)`: some cell is not 0. */
  predicate AnyNonZero(b: Grid)
  {
    exists i, j :: 0 <= i < 3 && 0 <= j < 3 && b[i][j] != 0
  }

  /** `is_root`: every cell of the board is 0. */
  predicate IsRoot(g: Game)
  {
    forall i, j :: 0 <= i < 3 && 0 <= j < 3 ==> g.board[i][j] == 0
  }

  /**
    `is_terminal` as written: `not np.any(board) == 0` reads as `not (np.any(board) == 0)`,
    so any non-zero cell makes the state terminal before the alignments are looked at.
  */
  method IsTerminal(g: Game) returns (t: bool)
    ensures t <==> AnyNonZero(g.board) || Aligned(g.board)
  {
    if AnyNonZero(g.board) {
      return true;
    }
    t := CheckAlignments(g);
  }

  /** A board all of zeros has no line summing to 15. */
  lemma ZerosNotAligned(b: Grid)
    requires !AnyNonZero(b)
    ensures !Aligned(b)
  {
  }

  /** As written, `is_terminal` holds exactly on the states that are not the root. */
  lemma TerminalIffNotRoot(g: Game)
    ensures (AnyNonZero(g.board) || Aligned(g.board)) <==> !IsRoot(g)
  {
    if !AnyNonZero(g.board) {
      ZerosNotAligned(g.board);
    }
  }

  /** A board whose only number is a 5 in the centre has a number but no line summing to 15. */
  lemma CentreOnly(b: Grid)
    requires b[1][1] == 5
    requires forall a, c :: 0 <= a < 3 && 0 <= c < 3 && (a != 1 || c != 1) ==> b[a][c] == 0
    ensures AnyNonZero(b) && !Aligned(b)
  {
    assert b[1][1] != 0;
  }

  /**
    One number on an otherwise empty board already makes the state terminal as written,
    though no line sums to 15 and the cell (0, 0) is still an allowed move.
  */
  lemma TerminalAfterOneMove()
    ensures var g := AddSymbol(Default(), 5, 1, 1, 1).value;
      AnyNonZero(g.board) && !Aligned(g.board) && Cell(0, 0) in g.allowedMoves
  {
    var d := Default();
    var g := AddSymbol(d, 5, 1, 1, 1).value;
    CentreOnly(g.board);
    AddSymbolAllowed(d, 5, 1, 1, 1);
    assert Cell(0, 0) in d.allowedMoves;
  }

  /** `np.any(board == 0)`: some cell is empty. */
  predicate AnyEmpty(b: Grid)
  {
    exists i, j :: 0 <= i < 3 && 0 <= j < 3 && b[i][j] == 0
  }

  /** The allowed moves run out exactly when no cell of the board is empty. */
  lemma NoMovesIffFull(b: Grid)
    ensures AllowedMoves(b) == [] <==> !AnyEmpty(b)
  {
    AllowedMovesSpec(b);
    if AllowedMoves(b) != [] {
      assert AllowedMoves(b)[0] in AllowedMoves(b);
    }
    if AnyEmpty(b) {
      var i, j :| 0 <= i < 3 && 0 <= j < 3 && b[i][j] == 0;
      assert Cell(i, j) in AllowedMoves(b);
    }
  }

  /**
    What `is_terminal` evidently means, `not np.any(board == 0) or check_alignments()`: the
    state is over when no move is left or some line sums to 15.
  */
  method IsOver(g: Game) returns (t: bool)
    ensures t <==> AllowedMoves(g.board) == [] || Aligned(g.board)
  {
    NoMovesIffFull(g.board);
    if !AnyEmpty(g.board) {
      return true;
    }
    t := CheckAlignments(g);
  }
}
