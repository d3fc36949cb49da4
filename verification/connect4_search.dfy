/**
  The search half of the bitboard engine: `is_winning_move`, `evaluate_position`,
  `static_ordering`, the fail-soft alpha-beta `negamax` and `find_best_move`. Values are C
  `int`s; `-x` of an `int` is written `Neg32` where the operand may be `INT_MIN`, whose
  negation overflows.
*/
module Connect4Search {
  import opened Bitboard

  // ---------------------------------------------------------------------------
  // The board as the search sees it
  //
  // The search needs four things of a position: that it is legal (`Valid`), which
  // columns accept a disc (`is_valid_move`), which of those win at once, and the position a
  // move leaves (`make_move`). `Legal`, `Open`, `Wins` and `Next` are exactly `Valid`,
  // `ValidMove`, `ValidMove && WinningMove` and `Play`; the `...At` wrappers exist only to
  // stop the solver unfolding those bitboard definitions inside the search's proofs (each
  // is two steps of recursion away from the definition), so those proofs work from the
  // facts the lemmas of this section state rather than from the bits. The `...Is` lemmas
  // prove each view equal to its definition; the wrappers add nothing to the model.

  ghost predicate LegalAt(p: Pos, n: nat)
    decreases n, p
  {
    if n == 0 then Valid(p) else LegalAt(p, n - 1)
  }

  /**
    The board invariant `Valid`: every position `init_board` and moves into valid columns
    reach satisfies it (it also admits some positions no play reaches).
  */
  ghost predicate Legal(p: Pos)
  {
    LegalAt(p, 2)
  }

  predicate OpenAt(p: Pos, col: Col, n: nat)
    decreases n, p
  {
    if n == 0 then ValidMove(p, col) else OpenAt(p, col, n - 1)
  }

  /** `is_valid_move`. */
  predicate Open(p: Pos, col: Col)
  {
    OpenAt(p, col, 2)
  }

  predicate WinsAt(p: Pos, col: Col, n: nat)
    decreases n, p
  {
    if n == 0 then ValidMove(p, col) && WinningMove(p, col) else WinsAt(p, col, n - 1)
  }

  /** `is_valid_move(board, col) && is_winning_move(board, col)`. */
  predicate Wins(p: Pos, col: Col)
  {
    WinsAt(p, col, 2)
  }

  function NextAt(p: Pos, col: Col, n: nat): Pos
    decreases n, p
  {
    if n == 0 then Play(p, col) else NextAt(p, col, n - 1)
  }

  /** The position `make_move` leaves on a copy of the board. */
  function Next(p: Pos, col: Col): Pos
  {
    NextAt(p, col, 2)
  }

  lemma {:induction false} LegalIs(p: Pos, n: nat)
    ensures LegalAt(p, n) == Valid(p)
  {
    if n > 0 {
      LegalIs(p, n - 1);
    }
  }

  lemma {:induction false} OpenIs(p: Pos, col: Col, n: nat)
    ensures OpenAt(p, col, n) == ValidMove(p, col)
  {
    if n > 0 {
      OpenIs(p, col, n - 1);
    }
  }

  lemma {:induction false} WinsIs(p: Pos, col: Col, n: nat)
    ensures WinsAt(p, col, n) == (ValidMove(p, col) && WinningMove(p, col))
  {
    if n > 0 {
      WinsIs(p, col, n - 1);
    }
  }

  lemma {:induction false} NextIs(p: Pos, col: Col, n: nat)
    ensures NextAt(p, col, n) == Play(p, col)
  {
    if n > 0 {
      NextIs(p, col, n - 1);
    }
  }

  /**
    A legal position holds between 0 and 42 discs, and it is full (`is_full`) exactly
    when no column accepts a disc.
  */
  lemma LegalFacts(p: Pos)
    requires Legal(p)
    ensures 0 <= p.nMoves <= Rows * Cols
    ensures IsFull(p) <==> forall c: Col :: !Open(p, c)
  {
    LegalIs(p, 2);
    FullIffNoMove(p);
    ValidElim(p.position, p.mask, p.nMoves);
    forall c: Col
      ensures Open(p, c) == ValidMove(p, c)
    {
      OpenIs(p, c, 2);
    }
  }

  /** A move into a valid column leaves a legal position with one disc more. */
  lemma LegalPlay(p: Pos, col: Col)
    requires Legal(p) && Open(p, col)
    ensures Legal(Next(p, col)) && Next(p, col).nMoves == p.nMoves + 1
  {
    LegalIs(p, 2);
    OpenIs(p, col, 2);
    NextIs(p, col, 2);
    PlayValid(p, col);
    LegalIs(Play(p, col), 2);
  }

  /** A valid column of a legal position is a stack with room on top. */
  lemma OpenRoom(p: Pos, col: Col)
    requires Legal(p) && Open(p, col)
    ensures Settled(p.mask, col) && Height(p.mask, col) < 6 && p.position & p.mask == p.position
  {
    LegalIs(p, 2);
    OpenIs(p, col, 2);
    ValidElim(p.position, p.mask, p.nMoves);
    FreeHeight(p.mask, col);
  }

  /** A column that wins at once is a valid one. */
  lemma WinsOpen(p: Pos, col: Col)
    requires Wins(p, col)
    ensures Open(p, col)
  {
    WinsIs(p, col, 2);
    OpenIs(p, col, 2);
  }

  // ---------------------------------------------------------------------------
  // Immediate wins

  /** `is_winning_move`: the mover's discs plus the cell the carry lands on in the column, checked by `check_win`. */
  function WinningMove(p: Pos, col: Col): bool
  {
    CheckWin(Probe(p.position, p.mask, col))
  }

  /** The discs `is_winning_move` hands to `check_win`. */
  function Probe(pos: bv64, m: bv64, col: Col): bv64
  {
    pos | ((m + BottomMaskCol(col)) & ColMask(col))
  }

  /** On a column with room, the carry adds exactly the new cell to the mover's discs. */
  lemma ProbeCell(pos: bv64, m: bv64, col: Col)
    requires Settled(m, col) && Height(m, col) < 6
    ensures Probe(pos, m, col) == pos | NewCell(m, col)
  {
    CarryCell(m, col);
  }

  lemma WinsFours(pos: bv64, m: bv64, col: Col)
    requires Settled(m, col) && Height(m, col) < 6
    ensures CheckWin(Probe(pos, m, col)) <==> Fours(pos | NewCell(m, col))
  {
    ProbeCell(pos, m, col);
    CheckWinFours(Probe(pos, m, col));
  }

  /** The discs of the player who just moved. */
  function Mover(p: Pos): bv64
  {
    p.position ^ p.mask
  }

  /** On a valid column of a legal position, `check_win` of the probed discs is four set bits in line with the new cell. */
  lemma WinsFoursOpen(pos: bv64, m: bv64, n: int, col: Col)
    requires Legal(Pos(pos, m, n)) && Open(Pos(pos, m, n), col)
    ensures CheckWin(Probe(pos, m, col)) <==> Fours(pos | NewCell(m, col))
  {
    OpenRoom(Pos(pos, m, n), col);
    WinsFours(pos, m, col);
  }

  /**
    `is_winning_move` holds exactly when the mover, adding a disc on the lowest empty cell
    of the column, has four set bits in line at stride 1, 6, 7 or 8.
  */
  lemma WinningMoveFours(p: Pos, col: Col)
    requires Legal(p) && Open(p, col)
    ensures WinningMove(p, col) <==> Fours(p.position | NewCell(p.mask, col))
  {
    WinsFoursOpen(p.position, p.mask, p.nMoves, col);
  }

  /**
    `is_winning_move` holds exactly when the mover, adding a disc on the lowest empty cell
    of the column, has four discs in one column, row or diagonal of the board.
  */
  lemma WinningMoveOnBoard(p: Pos, col: Col)
    requires Legal(p) && Open(p, col)
    ensures WinningMove(p, col) <==> FourOnBoard(p.position | NewCell(p.mask, col))
  {
    WinsOnBoardOpen(p.position, p.mask, p.nMoves, col);
  }

  /** The side to move of a legal position has its discs on the board's cells. */
  lemma LegalCells(pos: bv64, m: bv64, n: int)
    requires Legal(Pos(pos, m, n))
    ensures pos & Cells == pos
  {
    LegalIs(Pos(pos, m, n), 2);
    ValidCells(pos, m, n);
  }

  /** Discs on the cells joined with discs on the cells are on the cells. */
  lemma UnionCells(a: bv64, b: bv64)
    requires a & Cells == a && b & Cells == b
    ensures (a | b) & Cells == a | b
  {
  }

  /** Discs on the cells plus the new cell of a column with room are on the cells. */
  lemma ProbeOnBoard(pos: bv64, m: bv64, col: Col)
    requires pos & Cells == pos && Settled(m, col) && Height(m, col) < 6
    ensures (pos | NewCell(m, col)) & Cells == pos | NewCell(m, col)
  {
    NewCellOnBoard(m, col);
    UnionCells(pos, NewCell(m, col));
  }

  /** With the discs on the cells, `check_win` of the probed discs is four in one line of the board. */
  lemma WinsOnBoard(pos: bv64, m: bv64, col: Col)
    requires pos & Cells == pos && Settled(m, col) && Height(m, col) < 6
    ensures CheckWin(Probe(pos, m, col)) <==> FourOnBoard(pos | NewCell(m, col))
  {
    ProbeOnBoard(pos, m, col);
    CheckWinOnBoard(pos | NewCell(m, col));
    ProbeCell(pos, m, col);
  }

  /**
    On a valid column of a legal position, `check_win` of the probed discs is four discs of
    the mover, the new one included, in one column, row or diagonal of the board.
  */
  lemma WinsOnBoardOpen(pos: bv64, m: bv64, n: int, col: Col)
    requires Legal(Pos(pos, m, n)) && Open(Pos(pos, m, n), col)
    ensures CheckWin(Probe(pos, m, col)) <==> FourOnBoard(pos | NewCell(m, col))
  {
    OpenRoom(Pos(pos, m, n), col);
    LegalCells(pos, m, n);
    WinsOnBoard(pos, m, col);
  }

  /** On a valid column of a legal position, the mover's discs after the move are theirs plus the new cell. */
  lemma MoverOpen(pos: bv64, m: bv64, n: int, col: Col)
    requires Legal(Pos(pos, m, n)) && Open(Pos(pos, m, n), col)
    ensures Mover(Play(Pos(pos, m, n), col)) == pos | NewCell(m, col)
  {
    OpenRoom(Pos(pos, m, n), col);
    MoverRoom(pos, m, n, col);
  }

  lemma MoverRoom(pos: bv64, m: bv64, n: int, col: Col)
    requires Settled(m, col) && Height(m, col) < 6 && pos & m == pos
    ensures Mover(Play(Pos(pos, m, n), col)) == pos | NewCell(m, col)
  {
    CarrySum(m, col);
    CellFree(m, col);
    MoverStones(Play(Pos(pos, m, n), col), pos, m, NewCell(m, col));
  }

  /**
    With the mover's discs inside the discs and the new cell free, flipping the turn and
    adding the cell leaves, for the player who moved, their discs plus the cell.
  */
  lemma MoverStones(q: Pos, pos: bv64, m: bv64, cell: bv64)
    ensures q.position == pos ^ m && q.mask == m | cell && pos & m == pos && m & cell == 0 ==> Mover(q) == pos | cell
  {
  }

  /** Those are the discs the mover owns once `make_move` has dropped the disc. */
  lemma MoverAfterMove(p: Pos, col: Col)
    requires Legal(p) && Open(p, col)
    ensures Mover(Next(p, col)) == p.position | NewCell(p.mask, col)
  {
    MoverOpen(p.position, p.mask, p.nMoves, col);
    NextIs(p, col, 2);
  }

  /** The first column from `c` on that is valid and wins at once, 7 if there is none. */
  function FirstWin(p: Pos, c: bv7): (w: bv7)
    requires c <= 7
    ensures c <= w <= 7
    ensures w < 7 ==> Wins(p, w)
    ensures forall k: Col :: c <= k < w ==> !Wins(p, k)
    decreases 7 - c, p
  {
    if c == 7 then 7
    else if Wins(p, c) then c
    else FirstWin(p, c + 1)
  }

  /** A column as the C `int` that names it, -1 for none (7). */
  function Number(c: bv7): (n: int)
    requires c <= 7
    ensures -1 <= n < 7 && (n == -1 <==> c == 7)
  {
    if c == 0 then 0 else if c == 1 then 1 else if c == 2 then 2 else if c == 3 then 3
    else if c == 4 then 4 else if c == 5 then 5 else if c == 6 then 6 else -1
  }

  // ---------------------------------------------------------------------------
  // Values

  /** `evaluate_position`: every position not decided by a win scores 0. */
  function EvaluatePosition(p: Pos): (e: int)
    ensures e == 0
  {
    0
  }

  /** `static_ordering`: the centre column first, then outwards. */
  const Order: seq<Col> := [3, 2, 4, 1, 5, 0, 6]

  /** The order visits each of the seven columns. */
  lemma OrderCovers(c: Col)
    ensures exists k :: 0 <= k < 7 && Order[k] == c
  {
    if c == 3 { assert Order[0] == c; }
    else if c == 2 { assert Order[1] == c; }
    else if c == 4 { assert Order[2] == c; }
    else if c == 1 { assert Order[3] == c; }
    else if c == 5 { assert Order[4] == c; }
    else if c == 0 { assert Order[5] == c; }
    else { assert Order[6] == c; }
  }

  /** The value of a win found at once with `n` discs on the board: the fewer the discs, the greater. */
  function WinValue(n: int): int
  {
    Rows * Cols + 1 - n
  }

  /** The move chosen among the first `k` columns of the order, and its value (-1 and `INT_MIN` before any). */
  datatype Pick = Pick(move: int, eval: int)

  /**
    The value a full-width negamax assigns to a legal position: `evaluate_position` at
    depth 0, 0 on a full board, `WinValue` when some column wins at once, and otherwise the
    greatest negated child value over the valid columns. A negative depth never reaches 0,
    so the search then runs until the board is decided.
  */
  function Value(p: Pos, depth: int): (v: int)
    requires Legal(p)
    ensures -(Rows * Cols + 1) <= v <= Rows * Cols + 1
    decreases Rows * Cols - p.nMoves, 1, 0
  {
    LegalFacts(p);
    if depth == 0 then EvaluatePosition(p)
    else if IsFull(p) then 0
    else if FirstWin(p, 0) != 7 then WinValue(p.nMoves)
    else
      SomeOpen(p);
      Best(p, depth, 7).eval
  }

  /** A position that is not full has a valid column somewhere in the order. */
  lemma SomeOpen(p: Pos)
    requires Legal(p) && !IsFull(p)
    ensures exists k :: 0 <= k < 7 && Open(p, Order[k])
  {
    LegalFacts(p);
    var c: Col :| Open(p, c);
    OrderCovers(c);
  }

  /**
    The column of the order, among the first `k`, with the greatest negated child value, the
    earliest on a tie (`eval > best_eval` replaces the best move only on a strict gain).
  */
  function Best(p: Pos, depth: int, k: nat): (b: Pick)
    requires Legal(p) && k <= 7
    ensures b.move == -1 <==> b.eval == INT_MIN
    ensures b.move == -1 <==> forall j :: 0 <= j < k ==> !Open(p, Order[j])
    ensures b.move == -1 || -(Rows * Cols + 1) <= b.eval <= Rows * Cols + 1
    decreases Rows * Cols - p.nMoves, 0, k
  {
    if k == 0 then Pick(-1, INT_MIN)
    else
      var b := Best(p, depth, k - 1);
      var col := Order[k - 1];
      if Open(p, col) then
        var e := ChildValue(p, depth, col);
        if e > b.eval then Pick(Number(col), e) else b
      else b
  }

  /** The value of a move into valid column col: the negated value of the position it leaves. */
  function ChildValue(p: Pos, depth: int, col: Col): int
    requires Legal(p) && Open(p, col)
    decreases Rows * Cols - p.nMoves, 0, 0
  {
    LegalPlay(p, col);
    LegalFacts(p);
    -Value(Next(p, col), depth - 1)
  }

  /** No valid column among the first `k` of the order is worth more than the pick. */
  lemma {:induction false} BestBound(p: Pos, depth: int, k: nat)
    requires Legal(p) && k <= 7
    ensures var b := Best(p, depth, k);
      forall j :: 0 <= j < k && Open(p, Order[j]) ==> ChildValue(p, depth, Order[j]) <= b.eval
  {
    if k > 0 {
      BestBound(p, depth, k - 1);
    }
  }

  /** Column Order[i] is valid, is the pick, has its value, and every valid column ahead of it is strictly worse. */
  ghost predicate FirstMaxAt(p: Pos, depth: int, i: nat, b: Pick)
    requires Legal(p) && i < 7
  {
    && Number(Order[i]) == b.move && Open(p, Order[i]) && ChildValue(p, depth, Order[i]) == b.eval
    && forall j :: 0 <= j < i && Open(p, Order[j]) ==> ChildValue(p, depth, Order[j]) < b.eval
  }

  /**
    The pick is a valid column whose value no valid column among the first `k` exceeds, and
    every valid column ahead of it in the order is strictly worse.
  */
  lemma {:induction false} BestIsFirstMax(p: Pos, depth: int, k: nat)
    requires Legal(p) && k <= 7
    ensures var b := Best(p, depth, k);
      b.move != -1 ==> exists i :: 0 <= i < k && FirstMaxAt(p, depth, i, b)
    ensures var b := Best(p, depth, k);
      forall j :: 0 <= j < k && Open(p, Order[j]) ==> ChildValue(p, depth, Order[j]) <= b.eval
  {
    BestBound(p, depth, k);
    if k > 0 {
      var b0, b := Best(p, depth, k - 1), Best(p, depth, k);
      var col := Order[k - 1];
      if Open(p, col) && ChildValue(p, depth, col) > b0.eval {
        BestBound(p, depth, k - 1);
        assert b == Pick(Number(col), ChildValue(p, depth, col));
        assert forall j :: 0 <= j < k - 1 && Open(p, Order[j]) ==> ChildValue(p, depth, Order[j]) < b.eval;
        assert FirstMaxAt(p, depth, k - 1, b);
      } else {
        assert b == b0;
        if b.move != -1 {
          BestIsFirstMax(p, depth, k - 1);
          var i :| 0 <= i < k - 1 && FirstMaxAt(p, depth, i, b0);
          assert FirstMaxAt(p, depth, i, b);
        }
      }
    }
  }

  // ---------------------------------------------------------------------------
  // Alpha-beta

  /**
    C's `-x` on an `int`. `-INT_MIN` overflows, which is undefined behaviour in C; it is
    modelled as the two's-complement result common compilers produce, `INT_MIN` itself.
  */
  function Neg32(x: int): (y: int)
    ensures INT_MIN <= x <= INT_MAX ==> INT_MIN <= y <= INT_MAX
    ensures x != INT_MIN ==> y == -x
  {
    if x == INT_MIN then INT_MIN else -x
  }

  /** `negamax(board, depth, alpha, beta)` on a legal position. */
  function AlphaBeta(p: Pos, depth: int, alpha: int, beta: int): int
    requires Legal(p)
    decreases Rows * Cols - p.nMoves, 1, 0, 0
  {
    LegalFacts(p);
    if depth == 0 then EvaluatePosition(p)
    else if IsFull(p) then 0
    else if FirstWin(p, 0) != 7 then WinValue(p.nMoves)
    else Search(p, depth, 0, alpha, beta, INT_MIN)
  }

  /**
    The column loop of `negamax` from position k of the order on, with the current `alpha`
    and `best_eval`: each valid column's child is searched with the window `(-beta, -alpha)`
    and its negated result is taken in by `Visit`.
  */
  function Search(p: Pos, depth: int, k: nat, alpha: int, beta: int, best: int): int
    requires Legal(p) && k <= 7
    decreases Rows * Cols - p.nMoves, 0, 7 - k, 1
  {
    if k == 7 then best
    else if Open(p, Order[k]) then
      LegalPlay(p, Order[k]);
      LegalFacts(p);
      Visit(p, depth, k, alpha, beta, best, -AlphaBeta(Next(p, Order[k]), depth - 1, Neg32(beta), Neg32(alpha)))
    else Search(p, depth, k + 1, alpha, beta, best)
  }

  /**
    One pass of the loop body after the child's value e is known: `best_eval` and `alpha` rise
    to e, and the loop stops once `alpha >= beta`.
  */
  function Visit(p: Pos, depth: int, k: nat, alpha: int, beta: int, best: int, e: int): int
    requires Legal(p) && k < 7
    decreases Rows * Cols - p.nMoves, 0, 7 - k, 0
  {
    var best' := if e > best then e else best;
    var alpha' := if e > alpha then e else alpha;
    if alpha' >= beta then best' else Search(p, depth, k + 1, alpha', beta, best')
  }

  /** Every value `negamax` returns lies within a win's value either way. */
  lemma {:induction false} AlphaBetaBounds(p: Pos, depth: int, alpha: int, beta: int)
    requires Legal(p)
    ensures -(Rows * Cols + 1) <= AlphaBeta(p, depth, alpha, beta) <= Rows * Cols + 1
    decreases Rows * Cols - p.nMoves, 1, 0, 0
  {
    LegalFacts(p);
    if depth != 0 && !IsFull(p) && FirstWin(p, 0) == 7 {
      SomeOpen(p);
      SearchBounds(p, depth, 0, alpha, beta, INT_MIN);
    }
  }

  lemma {:induction false} SearchBounds(p: Pos, depth: int, k: nat, alpha: int, beta: int, best: int)
    requires Legal(p) && k <= 7
    requires best == INT_MIN || -(Rows * Cols + 1) <= best <= Rows * Cols + 1
    requires best == INT_MIN ==> exists j :: k <= j < 7 && Open(p, Order[j])
    ensures -(Rows * Cols + 1) <= Search(p, depth, k, alpha, beta, best) <= Rows * Cols + 1
    decreases Rows * Cols - p.nMoves, 0, 7 - k, 1
  {
    if k < 7 {
      if Open(p, Order[k]) {
        var c := Next(p, Order[k]);
        LegalPlay(p, Order[k]);
        LegalFacts(p);
        AlphaBetaBounds(c, depth - 1, Neg32(beta), Neg32(alpha));
        VisitBounds(p, depth, k, alpha, beta, best, -AlphaBeta(c, depth - 1, Neg32(beta), Neg32(alpha)));
      } else {
        SearchBounds(p, depth, k + 1, alpha, beta, best);
      }
    }
  }

  lemma {:induction false} VisitBounds(p: Pos, depth: int, k: nat, alpha: int, beta: int, best: int, e: int)
    requires Legal(p) && k < 7
    requires best == INT_MIN || -(Rows * Cols + 1) <= best <= Rows * Cols + 1
    requires -(Rows * Cols + 1) <= e <= Rows * Cols + 1
    ensures -(Rows * Cols + 1) <= Visit(p, depth, k, alpha, beta, best, e) <= Rows * Cols + 1
    decreases Rows * Cols - p.nMoves, 0, 7 - k, 0
  {
    var best' := if e > best then e else best;
    var alpha' := if e > alpha then e else alpha;
    if alpha' < beta {
      SearchBounds(p, depth, k + 1, alpha', beta, best');
    }
  }

  /**
    The fail-soft contract of alpha-beta: a result at or below `alpha` bounds the value from
    above, one at or above `beta` bounds it from below, and one strictly inside is the value.
  */
  predicate FailSoft(r: int, v: int, alpha: int, beta: int)
  {
    (r <= alpha ==> v <= r) && (beta <= r ==> r <= v) && (alpha < r < beta ==> r == v)
  }

  /**
    `negamax` with a non-empty window whose bounds C can negate returns the full-width value
    in the fail-soft sense.
  */
  lemma {:induction false} AlphaBetaFailSoft(p: Pos, depth: int, alpha: int, beta: int)
    requires Legal(p) && -INT_MAX <= alpha < beta <= INT_MAX
    ensures FailSoft(AlphaBeta(p, depth, alpha, beta), Value(p, depth), alpha, beta)
    decreases Rows * Cols - p.nMoves, 1, 0, 0
  {
    LegalFacts(p);
    if depth != 0 && !IsFull(p) && FirstWin(p, 0) == 7 {
      SearchFailSoft(p, depth, 0, alpha, alpha, beta, INT_MIN);
    }
  }

  /** With the widest window C can negate, `negamax` returns the full-width value itself. */
  lemma AlphaBetaExact(p: Pos, depth: int)
    requires Legal(p)
    ensures AlphaBeta(p, depth, -INT_MAX, INT_MAX) == Value(p, depth)
  {
    AlphaBetaBounds(p, depth, -INT_MAX, INT_MAX);
    AlphaBetaFailSoft(p, depth, -INT_MAX, INT_MAX);
  }

  /** Later columns can only raise the best value. */
  lemma {:induction false} BestGrows(p: Pos, depth: int, k: nat)
    requires Legal(p) && k <= 7
    ensures Best(p, depth, k).eval <= Best(p, depth, 7).eval
    decreases 7 - k
  {
    if k < 7 {
      BestGrows(p, depth, k + 1);
    }
  }

  /** A valid column takes the best value to the larger of it and the column's value. */
  lemma BestStep(p: Pos, depth: int, k: nat)
    requires Legal(p) && k < 7 && Open(p, Order[k])
    ensures Legal(Next(p, Order[k]))
    ensures var ve, tb := -Value(Next(p, Order[k]), depth - 1), Best(p, depth, k).eval;
      Best(p, depth, k + 1).eval == (if ve > tb then ve else tb)
  {
    LegalPlay(p, Order[k]);
  }

  /**
    The loop invariant of `negamax` against the full-width value: `alpha` is the larger of its
    start and `best_eval`; `best_eval` is the best value so far when above the start, and
    bounds it from above otherwise.
  */
  lemma {:induction false} SearchFailSoft(p: Pos, depth: int, k: nat, alpha0: int, alpha: int, beta: int, best: int)
    requires Legal(p) && k <= 7
    requires -INT_MAX <= alpha0 <= alpha < beta <= INT_MAX
    requires alpha == (if best > alpha0 then best else alpha0)
    requires best == INT_MIN || -(Rows * Cols + 1) <= best <= Rows * Cols + 1
    requires (best == INT_MIN) == (Best(p, depth, k).eval == INT_MIN)
    requires best <= alpha0 ==> Best(p, depth, k).eval <= best
    requires alpha0 < best ==> Best(p, depth, k).eval == best
    ensures FailSoft(Search(p, depth, k, alpha, beta, best), Best(p, depth, 7).eval, alpha0, beta)
    decreases Rows * Cols - p.nMoves, 0, 7 - k, 1
  {
    if k == 7 {
      return;
    }
    if Open(p, Order[k]) {
      var c := Next(p, Order[k]);
      LegalPlay(p, Order[k]);
      LegalFacts(p);
      BestStep(p, depth, k);
      AlphaBetaBounds(c, depth - 1, Neg32(beta), Neg32(alpha));
      AlphaBetaFailSoft(c, depth - 1, -beta, -alpha);
      VisitFailSoft(p, depth, k, alpha0, alpha, beta, best, -AlphaBeta(c, depth - 1, Neg32(beta), Neg32(alpha)), -Value(c, depth - 1));
    } else {
      SearchFailSoft(p, depth, k + 1, alpha0, alpha, beta, best);
    }
  }

  /** The invariant carried over one valid column whose child returned e and is worth ve. */
  lemma {:induction false} VisitFailSoft(p: Pos, depth: int, k: nat, alpha0: int, alpha: int, beta: int, best: int, e: int, ve: int)
    requires Legal(p) && k < 7
    requires -INT_MAX <= alpha0 <= alpha < beta <= INT_MAX
    requires alpha == (if best > alpha0 then best else alpha0)
    requires best == INT_MIN || -(Rows * Cols + 1) <= best <= Rows * Cols + 1
    requires (best == INT_MIN) == (Best(p, depth, k).eval == INT_MIN)
    requires best <= alpha0 ==> Best(p, depth, k).eval <= best
    requires alpha0 < best ==> Best(p, depth, k).eval == best
    requires -(Rows * Cols + 1) <= e <= Rows * Cols + 1 && -(Rows * Cols + 1) <= ve <= Rows * Cols + 1
    requires FailSoft(-e, -ve, -beta, -alpha)
    requires Best(p, depth, k + 1).eval == (if ve > Best(p, depth, k).eval then ve else Best(p, depth, k).eval)
    ensures FailSoft(Visit(p, depth, k, alpha, beta, best, e), Best(p, depth, 7).eval, alpha0, beta)
    decreases Rows * Cols - p.nMoves, 0, 7 - k, 0
  {
    var best' := if e > best then e else best;
    var alpha' := if e > alpha then e else alpha;
    StepFailSoft(alpha0, alpha, beta, best, Best(p, depth, k).eval, e, ve);
    if alpha' >= beta {
      BestGrows(p, depth, k + 1);
    } else {
      SearchFailSoft(p, depth, k + 1, alpha0, alpha', beta, best');
    }
  }

  /**
    The arithmetic of one column of `SearchFailSoft`: `e` is the child's negated result, `ve`
    its negated value, `tb` the best value so far.
  */
  lemma StepFailSoft(alpha0: int, alpha: int, beta: int, best: int, tb: int, e: int, ve: int)
    requires alpha0 <= alpha < beta && alpha == (if best > alpha0 then best else alpha0)
    requires best <= alpha0 ==> tb <= best
    requires alpha0 < best ==> tb == best
    requires FailSoft(-e, -ve, -beta, -alpha)
    ensures var best', alpha', tb' := (if e > best then e else best), (if e > alpha then e else alpha), (if ve > tb then ve else tb);
      && alpha' == (if best' > alpha0 then best' else alpha0)
      && (alpha' >= beta ==> best' >= beta && tb' >= best')
      && (alpha' < beta && best' <= alpha0 ==> tb' <= best')
      && (alpha' < beta && alpha0 < best' ==> tb' == best')
  {
  }

  // ---------------------------------------------------------------------------
  // The search procedures

  /**
    `negamax`: the board is read, never written; each child is a copy the move is made on.
    The result is `AlphaBeta`, so by `AlphaBetaFailSoft` it is the full-width value in the
    fail-soft sense whenever the window is non-empty and free of `INT_MIN`.
  */
  method Negamax(board: Board, depth: int, alpha: int, beta: int) returns (r: int)
    requires Legal(board.Value()) && INT_MIN <= alpha <= INT_MAX && INT_MIN <= beta <= INT_MAX
    ensures r == AlphaBeta(board.Value(), depth, alpha, beta)
    decreases Rows * Cols - board.nMoves
  {
    var p := board.Value();
    LegalFacts(p);
    if depth == 0 {
      return EvaluatePosition(p);
    }
    if IsFull(p) {
      return 0;
    }
    var col: bv7 := 0;
    while col < 7
      invariant col <= 7 && FirstWin(p, col) == FirstWin(p, 0)
    {
      if Wins(p, col) {
        return WinValue(board.nMoves);
      }
      col := col + 1;
    }
    var best := INT_MIN;
    var a := alpha;
    var idx := 0;
    while idx < 7
      invariant 0 <= idx <= 7 && INT_MIN <= a <= INT_MAX
      invariant Search(p, depth, idx, a, beta, best) == AlphaBeta(p, depth, alpha, beta)
    {
      var c := Order[idx];
      if Open(p, c) {
        var child := MoveCopy(board, c);
        LegalPlay(p, c);
        var e := Negamax(child, depth - 1, Neg32(beta), Neg32(a));
        AlphaBetaBounds(Next(p, c), depth - 1, Neg32(beta), Neg32(a));
        e := -e;
        best := if e > best then e else best;
        a := if e > a then e else a;
        if a >= beta {
          return best;
        }
      }
      idx := idx + 1;
    }
    return best;
  }

  /** A copy of the board with a disc dropped into valid column col: the child both loops search. */
  method MoveCopy(board: Board, col: Col) returns (child: Board)
    requires Legal(board.Value()) && Open(board.Value(), col)
    ensures fresh(child) && child.Value() == Next(board.Value(), col)
  {
    child := new Board.Copy(board);
    child.MakeMove(col);
    NextIs(board.Value(), col, 2);
  }

  /**
    What `find_best_move` should return: the lowest-numbered column that wins at once, else
    the earliest column of the order with the greatest value, -1 when no column is valid.
  */
  function BestMove(p: Pos, depth: int): int
    requires Legal(p)
  {
    if FirstWin(p, 0) != 7 then Number(FirstWin(p, 0)) else Best(p, depth, 7).move
  }

  /** The move is -1 exactly on a full board, and otherwise names a valid column. */
  lemma BestMoveValid(p: Pos, depth: int)
    requires Legal(p)
    ensures BestMove(p, depth) == -1 <==> IsFull(p)
    ensures BestMove(p, depth) != -1 ==> exists c: Col :: Number(c) == BestMove(p, depth) && Open(p, c)
  {
    LegalFacts(p);
    var w := FirstWin(p, 0);
    if w != 7 {
      WinsOpen(p, w);
      assert Number(w) == BestMove(p, depth) && Open(p, w);
    } else {
      if !IsFull(p) {
        SomeOpen(p);
      }
      BestIsFirstMax(p, depth, 7);
    }
  }

  /**
    `find_best_move`, with the search's first `alpha` at `INT_MIN + 1` so that the window
    handed to each child can be negated (see `FirstChildAsWritten`).
  */
  method FindBestMove(board: Board, depth: int) returns (move: int)
    requires Legal(board.Value())
    ensures move == BestMove(board.Value(), depth)
  {
    var p := board.Value();
    LegalFacts(p);
    var col: bv7 := 0;
    while col < 7
      invariant col <= 7 && FirstWin(p, col) == FirstWin(p, 0)
    {
      if Wins(p, col) {
        return Number(col);
      }
      col := col + 1;
    }
    move := -1;
    var bestEval := INT_MIN;
    var alpha := -INT_MAX;
    var beta := INT_MAX;
    var idx := 0;
    while idx < 7
      invariant 0 <= idx <= 7
      invariant Pick(move, bestEval) == Best(p, depth, idx)
      invariant alpha == (if bestEval > -INT_MAX then bestEval else -INT_MAX)
    {
      var c := Order[idx];
      if Open(p, c) {
        var child := MoveCopy(board, c);
        LegalPlay(p, c);
        var e := Negamax(child, depth - 1, -beta, -alpha);
        AlphaBetaBounds(Next(p, c), depth - 1, -beta, -alpha);
        AlphaBetaFailSoft(Next(p, c), depth - 1, -beta, -alpha);
        e := -e;
        if e > bestEval {
          bestEval := e;
          move := Number(c);
        }
        alpha := if e > alpha then e else alpha;
        if alpha >= beta {
          // beta stays INT_MAX and every value is within 43 of 0
          assert false;
          break;
        }
      }
      idx := idx + 1;
    }
  }

  // ---------------------------------------------------------------------------
  // The first window of `find_best_move` as written

  /** With no valid column ahead of j in the order, the loop goes straight to column j. */
  lemma {:induction false} SearchSkip(p: Pos, depth: int, k: nat, j: nat, alpha: int, beta: int, best: int)
    requires Legal(p) && k <= j <= 7
    requires forall i :: k <= i < j ==> !Open(p, Order[i])
    ensures Search(p, depth, k, alpha, beta, best) == Search(p, depth, j, alpha, beta, best)
    decreases j - k
  {
    if k < j {
      SearchSkip(p, depth, k + 1, j, alpha, beta, best);
    }
  }

  /**
    As written, `find_best_move` starts with `alpha = INT_MIN`, and its first child call gets
    `(-beta, -alpha)` = `(INT_MIN + 1, INT_MIN)`: negating `INT_MIN` overflows (undefined
    behaviour), modelled as the two's-complement result common compilers produce. In that
    child p, the empty window cuts the loop after the first valid reply Order[j]: the child's
    result is the negated result of that one reply, searched with the full window, however
    much better for the side to move a later reply may be.
  */
  lemma FirstChildAsWritten(p: Pos, depth: int, j: nat)
    requires Legal(p) && depth != 0 && !IsFull(p) && FirstWin(p, 0) == 7
    requires j < 7 && Open(p, Order[j]) && forall i :: 0 <= i < j ==> !Open(p, Order[i])
    ensures Neg32(INT_MAX) == INT_MIN + 1 && Neg32(INT_MIN) == INT_MIN
    ensures Legal(Next(p, Order[j]))
      && AlphaBeta(p, depth, Neg32(INT_MAX), Neg32(INT_MIN)) == -AlphaBeta(Next(p, Order[j]), depth - 1, INT_MIN, INT_MAX)
  {
    LegalPlay(p, Order[j]);
    SearchSkip(p, depth, 0, j, INT_MIN + 1, INT_MIN, INT_MIN);
    AlphaBetaBounds(Next(p, Order[j]), depth - 1, INT_MIN, INT_MAX);
  }
}
