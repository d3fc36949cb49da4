/**
  The 6 x 7 Connect 4 engine on 64-bit bitboards. Column `col` owns the seven bits
  7 * col .. 7 * col + 6: its six rows from the bottom up and an always-empty seventh bit.
  `mask` holds every disc, `position` the discs of the side to move, `n_moves` the number of
  discs played. Bit and column indices are 7-bit values, wide enough for every shift.
*/
module Bitboard {

  const Rows: int := 6
  const Cols: int := 7
  const INT_MIN: int := -0x8000_0000
  const INT_MAX: int := 0x7fff_ffff

  /** A column of the board. */
  type Col = c: bv7 | c < 7

  /** Bit i of x is set. */
  predicate Bit(x: bv64, i: bv7)
    requires i < 64
  {
    x & (1 << i) != 0
  }

  // ---------------------------------------------------------------------------
  // Masks

  /** The bottom cell of every column: bits 0, 7, 14, 21, 28, 35 and 42. */
  const Bottoms: bv64 := 0x0408_1020_4081

  /** `bottom_mask`: the loop that sets the bottom bit of every column. */
  method BottomMask() returns (mask: bv64)
    ensures mask == Bottoms
  {
    mask := 0;
    var col: bv7 := 0;
    while col < 7
      invariant col <= 7
      invariant mask == Bottoms & ((1 << (7 * col)) - 1)
    {
      mask := mask | (1 << (7 * col));
      col := col + 1;
    }
  }

  /** The set bits of `Bottoms` are the multiples of 7 below 49. */
  lemma BottomsBits(i: bv7)
    requires i < 64
    ensures Bit(Bottoms, i) <==> i < 49 && i % 7 == 0
  {
  }

  /** `bottom_mask_col`: the bottom cell of one column. */
  function BottomMaskCol(col: Col): bv64
  {
    1 << (7 * col)
  }

  /** `top_mask_col`: the sixth (top playable) cell of one column. */
  function TopMaskCol(col: Col): bv64
  {
    1 << (7 * col + 5)
  }

  /** `col_mask`: the six playable cells of one column, without the empty seventh bit. */
  function ColMask(col: Col): bv64
  {
    ((1 << 6) - 1) << (7 * col)
  }

  /** The bits each column mask holds. */
  lemma MaskBits(col: Col, i: bv7)
    requires i < 64
    ensures Bit(BottomMaskCol(col), i) <==> i == 7 * col
    ensures Bit(TopMaskCol(col), i) <==> i == 7 * col + 5
    ensures Bit(ColMask(col), i) <==> 7 * col <= i < 7 * col + 6
  {
  }

  // ---------------------------------------------------------------------------
  // The board

  /** The contents of a `Board` struct. */
  datatype Pos = Pos(position: bv64, mask: bv64, nMoves: int)

  /** A `Board`, updated in place by `init_board` and `make_move`. */
  class Board {
    var position: bv64
    var mask: bv64
    var nMoves: int

    function Value(): Pos
      reads this
    {
      Pos(position, mask, nMoves)
    }

    /** `Board child = *board`: a copy of another board's fields. */
    constructor Copy(other: Board)
      ensures Value() == other.Value()
    {
      position, mask, nMoves := other.position, other.mask, other.nMoves;
    }

    /** `init_board`: no discs, no moves. */
    method Init()
      modifies this
      ensures Value() == Pos(0, 0, 0)
    {
      position := 0;
      mask := 0;
      nMoves := 0;
    }

    /** `make_move`: hand the turn over, then drop a disc into column col. */
    method MakeMove(col: Col)
      modifies this
      ensures Value() == Play(old(Value()), col)
    {
      position, mask, nMoves := position ^ mask, MoveMask(mask, col), nMoves + 1;
    }
  }

  /** The state `make_move` leaves behind. */
  function Play(p: Pos, col: Col): Pos
  {
    Pos(p.position ^ p.mask, MoveMask(p.mask, col), p.nMoves + 1)
  }

  /** The `mask` that `make_move` leaves: the old discs and the carry of the column's bottom bit. */
  function MoveMask(m: bv64, col: Col): bv64
  {
    m | (m + BottomMaskCol(col))
  }

  /** `is_valid_move`: the top playable cell of the column is free. */
  predicate ValidMove(p: Pos, col: Col)
  {
    p.mask & TopMaskCol(col) == 0
  }

  /** `is_full`: all 42 cells have been played. */
  predicate IsFull(p: Pos)
  {
    p.nMoves == Rows * Cols
  }

  // ---------------------------------------------------------------------------
  // Column stacks and the board invariant

  /** The seven bits of a column, shifted down to bits 0 .. 6. */
  function Block(m: bv64, col: Col): bv64
  {
    (m >> (7 * col)) & 127
  }

  /** h when the block is a stack of h discs from the bottom (h <= 6), 7 otherwise. */
  function StackHeight(b: bv64): (h: int)
    ensures 0 <= h <= 7
  {
    if b == 0 then 0 else if b == 1 then 1 else if b == 3 then 2 else if b == 7 then 3
    else if b == 15 then 4 else if b == 31 then 5 else if b == 63 then 6 else 7
  }

  /** The number of discs in a column whose discs form a stack. */
  function Height(m: bv64, col: Col): int
  {
    StackHeight(Block(m, col))
  }

  /** The column holds a contiguous stack of at most six discs from its bottom cell. */
  predicate Settled(m: bv64, col: Col)
  {
    Height(m, col) <= 6
  }

  ghost predicate AllSettled(m: bv64)
  {
    forall c: Col :: Settled(m, c)
  }

  /** The number of discs in the columns before column k. */
  function DiscsBelow(m: bv64, k: bv7): (n: int)
    requires k <= 7
    ensures n >= 0
  {
    if k == 0 then 0 else DiscsBelow(m, k - 1) + Height(m, k - 1)
  }

  /** The number of discs on the board, column by column. */
  function Discs(m: bv64): int
  {
    DiscsBelow(m, 7)
  }

  /**
    What every board reached from `init_board` by moves into valid columns satisfies: the
    side to move owns a subset of the discs, every column is a stack from its bottom cell
    inside `col_mask`, nothing lies beyond the last column, and `n_moves` counts the discs.
  */
  ghost predicate Valid(p: Pos)
  {
    AllSettled(p.mask) && p.mask >> 49 == 0 && p.position & p.mask == p.position && p.nMoves == Discs(p.mask)
  }

  // Proof plumbing: restates `Valid` field by field (this lemma and `ValidIntro`) so the solver need not unfold it in the
  // proofs that follow; it is a step of those proofs, not a fact of the model.
  lemma ValidElim(pos: bv64, m: bv64, n: int)
    requires Valid(Pos(pos, m, n))
    ensures AllSettled(m) && m >> 49 == 0 && pos & m == pos && n == Discs(m)
  {
  }

  lemma ValidIntro(pos: bv64, m: bv64, n: int)
    requires AllSettled(m) && m >> 49 == 0 && pos & m == pos && n == Discs(m)
    ensures Valid(Pos(pos, m, n))
  {
  }

  /** `init_board` leaves a valid, empty board. */
  lemma InitValid()
    ensures Valid(Pos(0, 0, 0)) && !IsFull(Pos(0, 0, 0))
  {
  }

  /** A column accepts a disc exactly when it holds fewer than six. */
  lemma ValidMoveHeight(p: Pos, col: Col)
    requires Settled(p.mask, col)
    ensures ValidMove(p, col) <==> Height(p.mask, col) < 6
  {
  }

  lemma FreeHeight(m: bv64, col: Col)
    requires AllSettled(m) && m & TopMaskCol(col) == 0
    ensures Settled(m, col) && Height(m, col) < 6
  {
    assert Settled(m, col);
    assert Height(m, col) < 6;
  }

  /** The cell `make_move` fills: the lowest empty cell of the column. */
  function NewCell(m: bv64, col: Col): bv64
  {
    (Block(m, col) + 1) << (7 * col)
  }

  /** The new cell is the single bit of row `Height` in the column: just above its stack. */
  lemma NewCellAt(m: bv64, col: Col)
    requires Settled(m, col) && Height(m, col) < 6
    ensures NewCell(m, col) == 1 << (7 * col + Height(m, col) as bv7)
  {
  }

  /**
    Adding the column's bottom bit to a stack carries up to the first empty cell, so the
    `mask | (mask + bottom)` of `make_move` adds exactly the new cell.
  */
  lemma CarrySum(m: bv64, col: Col)
    requires Settled(m, col) && Height(m, col) < 6
    ensures MoveMask(m, col) == m | NewCell(m, col)
  {
  }

  /** Inside `col_mask` the sum holds only the new cell, as `is_winning_move` uses it. */
  lemma CarryCell(m: bv64, col: Col)
    requires Settled(m, col) && Height(m, col) < 6
    ensures (m + BottomMaskCol(col)) & ColMask(col) == NewCell(m, col)
  {
  }

  /** The new cell was empty. */
  lemma CellFree(m: bv64, col: Col)
    requires Settled(m, col) && Height(m, col) < 6
    ensures m & NewCell(m, col) == 0
  {
  }

  // Proof plumbing: restates `Play` field by field (`PlayPosition`, `PlaySum`, `PlayMoves`) so the solver need not unfold it in the
  // proofs that follow; it is a step of those proofs, not a fact of the model.
  lemma PlayPosition(p: Pos, col: Col)
    ensures Play(p, col).position == p.position ^ p.mask
  {
  }

  lemma PlaySum(p: Pos, col: Col)
    ensures Play(p, col).mask == MoveMask(p.mask, col)
  {
  }

  lemma PlayMoves(p: Pos, col: Col)
    ensures Play(p, col).nMoves == p.nMoves + 1
  {
  }

  /** On a valid column `make_move` sets exactly one new bit of `mask`: the new cell. */
  lemma PlayMask(p: Pos, col: Col)
    requires Settled(p.mask, col) && Height(p.mask, col) < 6
    ensures Play(p, col).mask == p.mask | NewCell(p.mask, col)
  {
    PlaySum(p, col);
    CarrySum(p.mask, col);
  }

  // Proof plumbing: restates `Valid` for a state given by its fields so the solver need not unfold it in the
  // proofs that follow; it is a step of those proofs, not a fact of the model.
  /** A state with the fields of a valid state is valid. */
  lemma ValidFields(q: Pos, pos: bv64, m: bv64, n: int)
    requires Valid(Pos(pos, m, n)) && q.position == pos && q.mask == m && q.nMoves == n
    ensures Valid(q)
  {
  }

  lemma Grow(m: bv64, col: Col)
    requires Settled(m, col) && Height(m, col) < 6
    ensures Height(m | NewCell(m, col), col) == Height(m, col) + 1
  {
  }

  lemma Other(m: bv64, col: Col, c: Col)
    requires Settled(m, col) && Height(m, col) < 6 && c != col
    ensures Block(m | NewCell(m, col), c) == Block(m, c)
  {
  }

  /** One more disc in column col and no change elsewhere adds one to the count. */
  lemma {:induction false} DiscsGrow(m: bv64, m': bv64, col: Col, k: bv7)
    requires k <= 7
    requires Height(m', col) == Height(m, col) + 1
    requires forall c: Col | c != col :: Height(m', c) == Height(m, c)
    ensures DiscsBelow(m', k) == DiscsBelow(m, k) + (if col < k then 1 else 0)
  {
    if k > 0 {
      DiscsGrow(m, m', col, k - 1);
    }
  }

  /** Adding the new cell keeps every column a stack and counts one more disc. */
  lemma StacksGrow(m: bv64, col: Col)
    requires AllSettled(m) && Height(m, col) < 6
    ensures AllSettled(m | NewCell(m, col))
    ensures Discs(m | NewCell(m, col)) == Discs(m) + 1
  {
    var m' := m | NewCell(m, col);
    assert Settled(m, col);
    Grow(m, col);
    forall c: Col | c != col
      ensures Height(m', c) == Height(m, c)
    {
      Other(m, col, c);
    }
    assert AllSettled(m') by {
      forall c: Col
        ensures Settled(m', c)
      {
        assert Settled(m, c);
      }
    }
    DiscsGrow(m, m', col, 7);
  }

  lemma NoHighBits(m: bv64, col: Col)
    requires m >> 49 == 0 && Settled(m, col) && Height(m, col) < 6
    ensures (m | NewCell(m, col)) >> 49 == 0
  {
  }

  /** After the move the discs of the new side to move are still among the discs. */
  lemma NewStones(pos: bv64, m: bv64, col: Col)
    requires pos & m == pos && Settled(m, col) && Height(m, col) < 6
    ensures (pos ^ m) & (m | NewCell(m, col)) == pos ^ m
  {
  }

  /** The four parts of the invariant after a disc goes into a free column. */
  lemma MoveFacts(pos: bv64, m: bv64, n: int, col: Col)
    requires Valid(Pos(pos, m, n)) && m & TopMaskCol(col) == 0
    ensures AllSettled(m | NewCell(m, col)) && n + 1 == Discs(m | NewCell(m, col))
    ensures (m | NewCell(m, col)) >> 49 == 0 && (pos ^ m) & (m | NewCell(m, col)) == pos ^ m
  {
    ValidElim(pos, m, n);
    FreeHeight(m, col);
    StacksGrow(m, col);
    NoHighBits(m, col);
    NewStones(pos, m, col);
  }

  // Proof plumbing: restates `Valid` of the state after a move from its parts so the solver need not unfold it in the
  // proofs that follow; it is a step of those proofs, not a fact of the model.
  lemma FactsValid(pos: bv64, m: bv64, n: int, col: Col)
    requires AllSettled(m | NewCell(m, col)) && n + 1 == Discs(m | NewCell(m, col))
    requires (m | NewCell(m, col)) >> 49 == 0 && (pos ^ m) & (m | NewCell(m, col)) == pos ^ m
    ensures Valid(Pos(pos ^ m, m | NewCell(m, col), n + 1))
  {
    ValidIntro(pos ^ m, m | NewCell(m, col), n + 1);
  }

  lemma MoveValid(pos: bv64, m: bv64, n: int, col: Col)
    requires Valid(Pos(pos, m, n)) && m & TopMaskCol(col) == 0
    ensures Valid(Pos(pos ^ m, m | NewCell(m, col), n + 1))
  {
    MoveFacts(pos, m, n, col);
    FactsValid(pos, m, n, col);
  }

  // Proof plumbing: restates `Valid` of `Play` from its fields (`PlayFromMove`, `PlayMoveValid`, `PlayFieldsValid`) so the solver need not unfold it in the
  // proofs that follow; it is a step of those proofs, not a fact of the model.
  /** A state whose fields are those of a valid state after the move is valid. */
  lemma PlayFromMove(p: Pos, col: Col)
    requires Valid(Pos(p.position ^ p.mask, p.mask | NewCell(p.mask, col), p.nMoves + 1))
    requires Play(p, col).position == p.position ^ p.mask
    requires Play(p, col).mask == p.mask | NewCell(p.mask, col)
    requires Play(p, col).nMoves == p.nMoves + 1
    ensures Valid(Play(p, col))
  {
    ValidFields(Play(p, col), p.position ^ p.mask, p.mask | NewCell(p.mask, col), p.nMoves + 1);
  }

  lemma PlayMoveValid(p: Pos, col: Col)
    requires Valid(p) && ValidMove(p, col)
    ensures Valid(Pos(p.position ^ p.mask, p.mask | NewCell(p.mask, col), p.nMoves + 1))
  {
    MoveValid(p.position, p.mask, p.nMoves, col);
  }

  lemma PlayFieldsValid(p: Pos, col: Col)
    requires Valid(p) && ValidMove(p, col)
    ensures Play(p, col).position == p.position ^ p.mask
    ensures Play(p, col).mask == p.mask | NewCell(p.mask, col)
    ensures Play(p, col).nMoves == p.nMoves + 1
  {
    ValidElim(p.position, p.mask, p.nMoves);
    FreeHeight(p.mask, col);
    PlayPosition(p, col);
    PlayMask(p, col);
    PlayMoves(p, col);
  }

  /** `make_move` on a valid column keeps the board invariant. */
  lemma PlayValid(p: Pos, col: Col)
    requires Valid(p) && ValidMove(p, col)
    ensures Valid(Play(p, col))
  {
    PlayMoveValid(p, col);
    PlayFieldsValid(p, col);
    PlayFromMove(p, col);
  }

  /** The count is the sum of the seven column heights. */
  lemma DiscsSum(m: bv64)
    ensures Discs(m) == Height(m, 0) + Height(m, 1) + Height(m, 2) + Height(m, 3) + Height(m, 4) + Height(m, 5) + Height(m, 6)
  {
    assert DiscsBelow(m, 1) == Height(m, 0);
    assert DiscsBelow(m, 2) == DiscsBelow(m, 1) + Height(m, 1);
    assert DiscsBelow(m, 3) == DiscsBelow(m, 2) + Height(m, 2);
    assert DiscsBelow(m, 4) == DiscsBelow(m, 3) + Height(m, 3);
    assert DiscsBelow(m, 5) == DiscsBelow(m, 4) + Height(m, 4);
    assert DiscsBelow(m, 6) == DiscsBelow(m, 5) + Height(m, 5);
  }

  /** A valid board holds at most 42 discs, and holds 42 exactly when no column accepts one. */
  lemma FullIffNoMove(p: Pos)
    requires Valid(p)
    ensures p.nMoves <= Rows * Cols
    ensures IsFull(p) <==> forall c: Col :: !ValidMove(p, c)
  {
    forall c: Col
      ensures ValidMove(p, c) <==> Height(p.mask, c) < 6
    {
      assert Settled(p.mask, c);
      ValidMoveHeight(p, c);
    }
    DiscsSum(p.mask);
    assert Settled(p.mask, 0) && Settled(p.mask, 1) && Settled(p.mask, 2) && Settled(p.mask, 3);
    assert Settled(p.mask, 4) && Settled(p.mask, 5) && Settled(p.mask, 6);
  }

  // ---------------------------------------------------------------------------
  // Four in a row

  /** The four cells i, i + s, i + 2s and i + 3s, as a mask. */
  function Window(i: bv7, s: bv7): bv64
    requires i < 64 && s <= 8
  {
    var cell: bv64 := 1 << i;
    cell | (cell << s) | (cell << (2 * s)) | (cell << (3 * s))
  }

  /** pos holds the four cells i, i + s, i + 2s and i + 3s, all inside the 64-bit word. */
  predicate Line(pos: bv64, i: bv7, s: bv7)
    requires i < 64 && s <= 8
  {
    i + 3 * s < 64 && pos & Window(i, s) == Window(i, s)
  }

  /** One direction of `check_win`: pairs of set bits s apart, then pairs of pairs 2s apart. */
  function Aligned(pos: bv64, s: bv7): bv64
    requires s <= 8
  {
    var pairs := pos & (pos >> s);
    pairs & (pairs >> (2 * s))
  }

  /** `check_win`: horizontal (stride 7), both diagonals (6 and 8), vertical (1). */
  function CheckWin(pos: bv64): bool
  {
    Aligned(pos, 7) != 0 || Aligned(pos, 6) != 0 || Aligned(pos, 8) != 0 || Aligned(pos, 1) != 0
  }

  /** The strides of the four directions: vertical, anti-diagonal, horizontal, diagonal. */
  predicate Direction(s: bv7)
  {
    s == 1 || s == 6 || s == 7 || s == 8
  }

  // Each direction separately, each way separately: a set bit of the test starts a line, and
  // a line sets the bit of the test where it starts.

  lemma BitLine1(pos: bv64, i: bv7)
    requires i < 64 && Bit(Aligned(pos, 1), i)
    ensures Line(pos, i, 1)
  {
  }

  lemma LineBit1(pos: bv64, i: bv7)
    requires i < 64 && Line(pos, i, 1)
    ensures Bit(Aligned(pos, 1), i)
  {
  }

  lemma BitLine6(pos: bv64, i: bv7)
    requires i < 64 && Bit(Aligned(pos, 6), i)
    ensures Line(pos, i, 6)
  {
  }

  lemma LineBit6(pos: bv64, i: bv7)
    requires i < 64 && Line(pos, i, 6)
    ensures Bit(Aligned(pos, 6), i)
  {
  }

  lemma BitLine7(pos: bv64, i: bv7)
    requires i < 64 && Bit(Aligned(pos, 7), i)
    ensures Line(pos, i, 7)
  {
  }

  lemma LineBit7(pos: bv64, i: bv7)
    requires i < 64 && Line(pos, i, 7)
    ensures Bit(Aligned(pos, 7), i)
  {
  }

  lemma BitLine8(pos: bv64, i: bv7)
    requires i < 64 && Bit(Aligned(pos, 8), i)
    ensures Line(pos, i, 8)
  {
  }

  lemma LineBit8(pos: bv64, i: bv7)
    requires i < 64 && Line(pos, i, 8)
    ensures Bit(Aligned(pos, 8), i)
  {
  }

  /** A set bit of one direction's test starts a line of four in that direction. */
  lemma AlignedBitLine(pos: bv64, s: bv7, i: bv7)
    requires i < 64 && Direction(s) && Bit(Aligned(pos, s), i)
    ensures Line(pos, i, s)
  {
    if s == 1 {
      BitLine1(pos, i);
    } else if s == 6 {
      BitLine6(pos, i);
    } else if s == 7 {
      BitLine7(pos, i);
    } else {
      BitLine8(pos, i);
    }
  }

  /** A line of four sets the bit of its direction's test where it starts. */
  lemma AlignedLineBit(pos: bv64, s: bv7, i: bv7)
    requires i < 64 && Direction(s) && Line(pos, i, s)
    ensures Bit(Aligned(pos, s), i)
  {
    if s == 1 {
      LineBit1(pos, i);
    } else if s == 6 {
      LineBit6(pos, i);
    } else if s == 7 {
      LineBit7(pos, i);
    } else {
      LineBit8(pos, i);
    }
  }

  /** A word none of whose 64 bits is set is zero. */
  lemma ZeroBits(x: bv64)
    requires forall i: bv7 | i < 64 :: !Bit(x, i)
    ensures x == 0
  {
    assert !Bit(x, 0) && !Bit(x, 1) && !Bit(x, 2) && !Bit(x, 3) && !Bit(x, 4) && !Bit(x, 5) && !Bit(x, 6) && !Bit(x, 7);
    assert !Bit(x, 8) && !Bit(x, 9) && !Bit(x, 10) && !Bit(x, 11) && !Bit(x, 12) && !Bit(x, 13) && !Bit(x, 14) && !Bit(x, 15);
    assert !Bit(x, 16) && !Bit(x, 17) && !Bit(x, 18) && !Bit(x, 19) && !Bit(x, 20) && !Bit(x, 21) && !Bit(x, 22) && !Bit(x, 23);
    assert !Bit(x, 24) && !Bit(x, 25) && !Bit(x, 26) && !Bit(x, 27) && !Bit(x, 28) && !Bit(x, 29) && !Bit(x, 30) && !Bit(x, 31);
    assert !Bit(x, 32) && !Bit(x, 33) && !Bit(x, 34) && !Bit(x, 35) && !Bit(x, 36) && !Bit(x, 37) && !Bit(x, 38) && !Bit(x, 39);
    assert !Bit(x, 40) && !Bit(x, 41) && !Bit(x, 42) && !Bit(x, 43) && !Bit(x, 44) && !Bit(x, 45) && !Bit(x, 46) && !Bit(x, 47);
    assert !Bit(x, 48) && !Bit(x, 49) && !Bit(x, 50) && !Bit(x, 51) && !Bit(x, 52) && !Bit(x, 53) && !Bit(x, 54) && !Bit(x, 55);
    assert !Bit(x, 56) && !Bit(x, 57) && !Bit(x, 58) && !Bit(x, 59) && !Bit(x, 60) && !Bit(x, 61) && !Bit(x, 62) && !Bit(x, 63);
  }

  /** Four set bits of pos in line at stride s. */
  ghost predicate FourIn(pos: bv64, s: bv7)
    requires Direction(s)
  {
    exists i: bv7 :: i < 64 && Line(pos, i, s)
  }

  lemma AlignedSome(pos: bv64, s: bv7)
    requires Direction(s) && FourIn(pos, s)
    ensures Aligned(pos, s) != 0
  {
    var i: bv7 :| i < 64 && Line(pos, i, s);
    AlignedLineBit(pos, s, i);
  }

  lemma AlignedNone(pos: bv64, s: bv7)
    requires Direction(s) && !FourIn(pos, s)
    ensures Aligned(pos, s) == 0
  {
    forall i: bv7 | i < 64
      ensures !Bit(Aligned(pos, s), i)
    {
      if Bit(Aligned(pos, s), i) {
        AlignedBitLine(pos, s, i);
      }
    }
    ZeroBits(Aligned(pos, s));
  }

  /** One direction of `check_win` fires exactly when pos has four set bits s apart. */
  lemma AlignedIff(pos: bv64, s: bv7)
    requires Direction(s)
    ensures Aligned(pos, s) != 0 <==> FourIn(pos, s)
  {
    if FourIn(pos, s) {
      AlignedSome(pos, s);
    } else {
      AlignedNone(pos, s);
    }
  }

  /** Four set bits in line: vertically, along either diagonal, or horizontally. */
  ghost predicate Fours(pos: bv64)
  {
    FourIn(pos, 1) || FourIn(pos, 6) || FourIn(pos, 7) || FourIn(pos, 8)
  }

  /** `check_win` holds exactly when pos has four set bits in line at stride 1, 6, 7 or 8. */
  lemma CheckWinFours(pos: bv64)
    ensures CheckWin(pos) <==> Fours(pos)
  {
    AlignedIff(pos, 1);
    AlignedIff(pos, 6);
    AlignedIff(pos, 7);
    AlignedIff(pos, 8);
  }

  // ---------------------------------------------------------------------------
  // Four in a row on the board
  //
  // A stride line of bits is a line of cells only because the seventh bit of every column
  // stays empty: a line that would run off the top of a column (stride 1 or 8) or below its
  // bottom (stride 6) meets that empty bit first, and nothing lies at or above bit 49.

  /** The 42 cells of the board: the six low bits of each of the seven columns. */
  const Cells: bv64 := 0xfdfb_f7ef_dfbf

  /** The set bits of `Cells` are the rows 0 .. 5 of the columns 0 .. 6. */
  lemma CellsBits(i: bv7)
    requires i < 64
    ensures Bit(Cells, i) <==> i < 49 && i % 7 < 6
  {
  }

  /** pos has a disc in column c, row r (counted from the bottom), a cell of the board. */
  predicate Disc(pos: bv64, c: bv7, r: bv7)
  {
    c < 7 && r < 6 && Bit(pos, 7 * c + r)
  }

  /** Four discs up column c from row r. */
  predicate Vertical(pos: bv64, c: bv7, r: bv7)
  {
    Disc(pos, c, r) && Disc(pos, c, r + 1) && Disc(pos, c, r + 2) && Disc(pos, c, r + 3)
  }

  /** Four discs along row r from column c. */
  predicate Horizontal(pos: bv64, c: bv7, r: bv7)
  {
    Disc(pos, c, r) && Disc(pos, c + 1, r) && Disc(pos, c + 2, r) && Disc(pos, c + 3, r)
  }

  /** Four discs rising to the right from (c, r). */
  predicate Rising(pos: bv64, c: bv7, r: bv7)
  {
    Disc(pos, c, r) && Disc(pos, c + 1, r + 1) && Disc(pos, c + 2, r + 2) && Disc(pos, c + 3, r + 3)
  }

  /** Four discs falling to the right from (c, r). */
  predicate Falling(pos: bv64, c: bv7, r: bv7)
  {
    r >= 3 && Disc(pos, c, r) && Disc(pos, c + 1, r - 1) && Disc(pos, c + 2, r - 2) && Disc(pos, c + 3, r - 3)
  }

  /** Four discs in one column, row or diagonal of the 7 x 6 board. */
  ghost predicate FourOnBoard(pos: bv64)
  {
    (exists c: bv7, r: bv7 :: Vertical(pos, c, r)) || (exists c: bv7, r: bv7 :: Horizontal(pos, c, r))
    || (exists c: bv7, r: bv7 :: Rising(pos, c, r)) || (exists c: bv7, r: bv7 :: Falling(pos, c, r))
  }

  /** A set bit of discs drawn from the cells is a cell. */
  lemma CellOf(pos: bv64, i: bv7)
    requires pos & Cells == pos && i < 64 && Bit(pos, i)
    ensures i < 49 && i % 7 < 6
  {
    assert Bit(Cells, i);
    CellsBits(i);
  }

  // The four bits of a line at each stride, and the line of four such bits.

  lemma LineBits1(pos: bv64, i: bv7)
    requires i < 64 && Line(pos, i, 1)
    ensures Bit(pos, i) && Bit(pos, i + 1) && Bit(pos, i + 2) && Bit(pos, i + 3)
  {
  }

  lemma BitsLine1(pos: bv64, i: bv7)
    requires i < 64 && i + 3 < 64 && Bit(pos, i) && Bit(pos, i + 1) && Bit(pos, i + 2) && Bit(pos, i + 3)
    ensures Line(pos, i, 1)
  {
  }

  lemma LineBits6(pos: bv64, i: bv7)
    requires i < 64 && Line(pos, i, 6)
    ensures Bit(pos, i) && Bit(pos, i + 6) && Bit(pos, i + 12) && Bit(pos, i + 18)
  {
  }

  lemma BitsLine6(pos: bv64, i: bv7)
    requires i < 64 && i + 18 < 64 && Bit(pos, i) && Bit(pos, i + 6) && Bit(pos, i + 12) && Bit(pos, i + 18)
    ensures Line(pos, i, 6)
  {
  }

  lemma LineBits7(pos: bv64, i: bv7)
    requires i < 64 && Line(pos, i, 7)
    ensures Bit(pos, i) && Bit(pos, i + 7) && Bit(pos, i + 14) && Bit(pos, i + 21)
  {
  }

  lemma BitsLine7(pos: bv64, i: bv7)
    requires i < 64 && i + 21 < 64 && Bit(pos, i) && Bit(pos, i + 7) && Bit(pos, i + 14) && Bit(pos, i + 21)
    ensures Line(pos, i, 7)
  {
  }

  lemma LineBits8(pos: bv64, i: bv7)
    requires i < 64 && Line(pos, i, 8)
    ensures Bit(pos, i) && Bit(pos, i + 8) && Bit(pos, i + 16) && Bit(pos, i + 24)
  {
  }

  lemma BitsLine8(pos: bv64, i: bv7)
    requires i < 64 && i + 24 < 64 && Bit(pos, i) && Bit(pos, i + 8) && Bit(pos, i + 16) && Bit(pos, i + 24)
    ensures Line(pos, i, 8)
  {
  }

  /** A vertical line of cells is a column's four discs: the empty seventh bit stops it at the top. */
  lemma VerticalOfLine(pos: bv64, i: bv7)
    requires pos & Cells == pos && i < 64 && Line(pos, i, 1)
    ensures exists c: bv7, r: bv7 :: Vertical(pos, c, r)
  {
    LineBits1(pos, i);
    CellOf(pos, i);
    CellOf(pos, i + 1);
    CellOf(pos, i + 2);
    CellOf(pos, i + 3);
    assert Vertical(pos, i / 7, i % 7);
  }

  lemma HorizontalOfLine(pos: bv64, i: bv7)
    requires pos & Cells == pos && i < 64 && Line(pos, i, 7)
    ensures exists c: bv7, r: bv7 :: Horizontal(pos, c, r)
  {
    LineBits7(pos, i);
    CellOf(pos, i);
    CellOf(pos, i + 7);
    CellOf(pos, i + 14);
    CellOf(pos, i + 21);
    assert Horizontal(pos, i / 7, i % 7);
  }

  lemma RisingOfLine(pos: bv64, i: bv7)
    requires pos & Cells == pos && i < 64 && Line(pos, i, 8)
    ensures exists c: bv7, r: bv7 :: Rising(pos, c, r)
  {
    LineBits8(pos, i);
    CellOf(pos, i);
    CellOf(pos, i + 8);
    CellOf(pos, i + 16);
    CellOf(pos, i + 24);
    assert Rising(pos, i / 7, i % 7);
  }

  lemma FallingOfLine(pos: bv64, i: bv7)
    requires pos & Cells == pos && i < 64 && Line(pos, i, 6)
    ensures exists c: bv7, r: bv7 :: Falling(pos, c, r)
  {
    LineBits6(pos, i);
    CellOf(pos, i);
    CellOf(pos, i + 6);
    CellOf(pos, i + 12);
    CellOf(pos, i + 18);
    assert Falling(pos, i / 7, i % 7);
  }

  lemma LineOfVertical(pos: bv64, c: bv7, r: bv7)
    requires Vertical(pos, c, r)
    ensures FourIn(pos, 1)
  {
    BitsLine1(pos, 7 * c + r);
    assert 7 * c + r < 64 && Line(pos, 7 * c + r, 1);
  }

  lemma LineOfHorizontal(pos: bv64, c: bv7, r: bv7)
    requires Horizontal(pos, c, r)
    ensures FourIn(pos, 7)
  {
    BitsLine7(pos, 7 * c + r);
    assert 7 * c + r < 64 && Line(pos, 7 * c + r, 7);
  }

  lemma LineOfRising(pos: bv64, c: bv7, r: bv7)
    requires Rising(pos, c, r)
    ensures FourIn(pos, 8)
  {
    BitsLine8(pos, 7 * c + r);
    assert 7 * c + r < 64 && Line(pos, 7 * c + r, 8);
  }

  lemma LineOfFalling(pos: bv64, c: bv7, r: bv7)
    requires Falling(pos, c, r)
    ensures FourIn(pos, 6)
  {
    BitsLine6(pos, 7 * c + r);
    assert 7 * c + r < 64 && Line(pos, 7 * c + r, 6);
  }

  /** Four set bits at stride s and four discs in the matching line of cells are the same thing. */
  lemma VerticalIff(pos: bv64)
    requires pos & Cells == pos
    ensures FourIn(pos, 1) <==> exists c: bv7, r: bv7 :: Vertical(pos, c, r)
  {
    if FourIn(pos, 1) {
      var i: bv7 :| i < 64 && Line(pos, i, 1);
      VerticalOfLine(pos, i);
    }
    if exists c: bv7, r: bv7 :: Vertical(pos, c, r) {
      var c: bv7, r: bv7 :| Vertical(pos, c, r);
      LineOfVertical(pos, c, r);
    }
  }

  lemma HorizontalIff(pos: bv64)
    requires pos & Cells == pos
    ensures FourIn(pos, 7) <==> exists c: bv7, r: bv7 :: Horizontal(pos, c, r)
  {
    if FourIn(pos, 7) {
      var i: bv7 :| i < 64 && Line(pos, i, 7);
      HorizontalOfLine(pos, i);
    }
    if exists c: bv7, r: bv7 :: Horizontal(pos, c, r) {
      var c: bv7, r: bv7 :| Horizontal(pos, c, r);
      LineOfHorizontal(pos, c, r);
    }
  }

  lemma RisingIff(pos: bv64)
    requires pos & Cells == pos
    ensures FourIn(pos, 8) <==> exists c: bv7, r: bv7 :: Rising(pos, c, r)
  {
    if FourIn(pos, 8) {
      var i: bv7 :| i < 64 && Line(pos, i, 8);
      RisingOfLine(pos, i);
    }
    if exists c: bv7, r: bv7 :: Rising(pos, c, r) {
      var c: bv7, r: bv7 :| Rising(pos, c, r);
      LineOfRising(pos, c, r);
    }
  }

  lemma FallingIff(pos: bv64)
    requires pos & Cells == pos
    ensures FourIn(pos, 6) <==> exists c: bv7, r: bv7 :: Falling(pos, c, r)
  {
    if FourIn(pos, 6) {
      var i: bv7 :| i < 64 && Line(pos, i, 6);
      FallingOfLine(pos, i);
    }
    if exists c: bv7, r: bv7 :: Falling(pos, c, r) {
      var c: bv7, r: bv7 :| Falling(pos, c, r);
      LineOfFalling(pos, c, r);
    }
  }

  /**
    On discs drawn from the 42 cells, `check_win` holds exactly when four of them stand in
    one column, one row or one diagonal of the board: no stride line wraps from one column
    into the next.
  */
  lemma CheckWinOnBoard(pos: bv64)
    requires pos & Cells == pos
    ensures CheckWin(pos) <==> FourOnBoard(pos)
  {
    CheckWinFours(pos);
    VerticalIff(pos);
    HorizontalIff(pos);
    RisingIff(pos);
    FallingIff(pos);
  }

  /** A settled column leaves its seventh bit empty. */
  lemma SettledTop(m: bv64, col: Col)
    requires Settled(m, col)
    ensures !Bit(m, 7 * col + 6)
  {
  }

  /** Every disc of a board that keeps the invariant's shape lies on one of the 42 cells. */
  lemma MaskCells(m: bv64)
    requires AllSettled(m) && m >> 49 == 0
    ensures m & Cells == m
  {
    assert Settled(m, 0) && Settled(m, 1) && Settled(m, 2) && Settled(m, 3);
    assert Settled(m, 4) && Settled(m, 5) && Settled(m, 6);
    SettledTop(m, 0);
    SettledTop(m, 1);
    SettledTop(m, 2);
    SettledTop(m, 3);
    SettledTop(m, 4);
    SettledTop(m, 5);
    SettledTop(m, 6);
  }

  /** On a valid board, the discs, the side to move's and the other side's all lie on the cells. */
  lemma ValidCells(pos: bv64, m: bv64, n: int)
    requires Valid(Pos(pos, m, n))
    ensures m & Cells == m && pos & Cells == pos && (pos ^ m) & Cells == pos ^ m
  {
    ValidElim(pos, m, n);
    FieldsCells(pos, m);
  }

  lemma FieldsCells(pos: bv64, m: bv64)
    requires AllSettled(m) && m >> 49 == 0 && pos & m == pos
    ensures m & Cells == m && pos & Cells == pos && (pos ^ m) & Cells == pos ^ m
  {
    MaskCells(m);
    SubsetCells(pos, m);
  }

  /** Discs inside discs on the cells are on the cells, and so are the remaining ones. */
  lemma SubsetCells(pos: bv64, m: bv64)
    requires pos & m == pos && m & Cells == m
    ensures pos & Cells == pos && (pos ^ m) & Cells == pos ^ m
  {
  }

  /** The cell `make_move` fills is one of the 42 cells. */
  lemma NewCellOnBoard(m: bv64, col: Col)
    requires Settled(m, col) && Height(m, col) < 6
    ensures NewCell(m, col) & Cells == NewCell(m, col)
  {
    NewCellAt(m, col);
    CellsBits(7 * col + Height(m, col) as bv7);
  }
}
