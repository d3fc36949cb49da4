/**
  Chomp on an `n_rows` x `n_cols` bar whose cell (0, 0) is poisoned. A state lists the cells
  that may still be bitten, in row-major order; biting (r, c) keeps the listed cells that are
  not weakly below-right of (r, c). `negamax` searches the game exhaustively with a memo
  keyed by the state's string and trusts only the entries that record a win.
*/
module Chomp {
  import opened Common

  datatype Cell = Cell(r: nat, c: nat)

  /** A memo entry `{"move": best_move, "eval": max_eval}`. */
  datatype Entry = Entry(move: Option<Cell>, eval: int)

  type Memo = map<string, Entry>

  /** Biting (r, c) removes `x`: `x` lies weakly below-right of (r, c). */
  predicate Eaten(x: Cell, r: int, c: int)
  {
    x.r >= r && x.c >= c
  }

  /** `x` comes before `y` in row-major order. */
  predicate Before(x: Cell, y: Cell)
  {
    x.r < y.r || (x.r == y.r && x.c < y.c)
  }

  /** Strictly increasing in row-major order (hence without repetitions). */
  predicate Sorted(s: seq<Cell>)
  {
    forall i, j :: 0 <= i < j < |s| ==> Before(s[i], s[j])
  }

  /** Every index is a single digit, so `str` writes each cell as exactly two characters. */
  predicate Small(s: seq<Cell>)
  {
    forall x :: x in s ==> x.r < 10 && x.c < 10
  }

  /** With (0, 0) left out, the cell set is closed up-left: eating always takes a down-right quadrant. */
  ghost predicate UpLeftClosed(s: seq<Cell>)
  {
    forall x, y: Cell :: x in s && y.r <= x.r && y.c <= x.c && y != Cell(0, 0) ==> y in s
  }

  // ---------------------------------------------------------------------------
  // The board

  /** The cells (i, j), (i, j + 1), ..., (i, n_cols - 1) of row i. */
  function RowCells(i: nat, j: nat, nCols: nat): (s: seq<Cell>)
    decreases nCols - j
  {
    if j >= nCols then [] else [Cell(i, j)] + RowCells(i, j + 1, nCols)
  }

  /** Rows i .. n_rows - 1 in row-major order: `[(i, j) for i in range(n_rows) for j in range(n_cols)]` from row i on. */
  function Rows(i: nat, nRows: nat, nCols: nat): (s: seq<Cell>)
    decreases nRows - i
  {
    if i >= nRows then [] else RowCells(i, 0, nCols) + Rows(i + 1, nRows, nCols)
  }

  lemma {:induction false} RowCellsFacts(i: nat, j: nat, nCols: nat)
    ensures var s := RowCells(i, j, nCols);
      && (forall x :: x in s <==> x.r == i && j <= x.c < nCols)
      && |s| == (if j <= nCols then nCols - j else 0)
      && Sorted(s)
    decreases nCols - j
  {
    if j < nCols {
      RowCellsFacts(i, j + 1, nCols);
      SortedAppend([Cell(i, j)], RowCells(i, j + 1, nCols));
    }
  }

  /** The rows list every cell of the board once, in row-major order. */
  lemma {:induction false} RowsFacts(i: nat, nRows: nat, nCols: nat)
    ensures var s := Rows(i, nRows, nCols);
      && (forall x :: x in s <==> i <= x.r < nRows && x.c < nCols)
      && |s| == (if i <= nRows then (nRows - i) * nCols else 0)
      && Sorted(s)
    decreases nRows - i
  {
    RowsLength(i, nRows, nCols);
    RowsOrder(i, nRows, nCols);
  }

  lemma {:induction false} RowsOrder(i: nat, nRows: nat, nCols: nat)
    ensures var s := Rows(i, nRows, nCols);
      && (forall x :: x in s <==> i <= x.r < nRows && x.c < nCols)
      && Sorted(s)
    decreases nRows - i
  {
    if i < nRows {
      var row, rest := RowCells(i, 0, nCols), Rows(i + 1, nRows, nCols);
      RowCellsFacts(i, 0, nCols);
      RowsOrder(i + 1, nRows, nCols);
      forall x, y | x in row && y in rest
        ensures Before(x, y)
      {
      }
      SortedAppend(row, rest);
    }
  }

  lemma {:induction false} RowsLength(i: nat, nRows: nat, nCols: nat)
    ensures |Rows(i, nRows, nCols)| == (if i <= nRows then (nRows - i) * nCols else 0)
    decreases nRows - i
  {
    if i < nRows {
      RowCellsFacts(i, 0, nCols);
      RowsLength(i + 1, nRows, nCols);
      assert |Rows(i, nRows, nCols)| == nCols + |Rows(i + 1, nRows, nCols)|;
      RowsArea(nRows - (i + 1), nCols);
    }
  }

  lemma RowsArea(k: nat, nCols: nat)
    ensures (k + 1) * nCols == nCols + k * nCols
  {
  }

  lemma SortedAppend(a: seq<Cell>, b: seq<Cell>)
    requires Sorted(a) && Sorted(b)
    requires forall x, y :: x in a && y in b ==> Before(x, y)
    ensures Sorted(a + b)
  {
    forall i, j | 0 <= i < j < |a + b|
      ensures Before((a + b)[i], (a + b)[j])
    {
      if j < |a| {
      } else if i < |a| {
        assert (a + b)[i] in a && (a + b)[j] in b;
      }
    }
  }

  // ---------------------------------------------------------------------------
  // States

  /** A `ChompState`: board size, the last bitten cell (`None` at the root), the biteable cells and the skipped-cell count. */
  datatype State = State(nRows: int, nCols: int, last: Option<(int, int)>, bites: seq<Cell>, skipped: int)
  {
    predicate IsRoot()
    {
      last.None?
    }

    predicate IsTerminal()
    {
      |bites| == 0
    }

    /** `bite(idx_r, idx_c)`: the child state, built from this state's bites. */
    function Bite(r: int, c: int): (child: State)
      ensures child.nRows == nRows && child.nCols == nCols && child.last == Some((r, c)) && !child.IsRoot()
      ensures forall x :: x in child.bites <==> x in bites && !Eaten(x, r, c)
    {
      RemainingCells(bites, r, c);
      var rest := Remaining(bites, r, c);
      State(nRows, nCols, Some((r, c)), rest, skipped + |bites| - |rest| - 1)
    }

    /** `str(state)`: the memo key. */
    function Key(): string
    {
      BitesKey(bites)
    }
  }

  /**
    `ChompState(n_rows, n_cols)`: every cell but the poisoned (0, 0), in row-major order.
    On an empty board `l.pop(0)` raises IndexError, here `None`.
  */
  function Root(nRows: int, nCols: int): (s: Option<State>)
  {
    var rows, cols := if nRows < 0 then 0 else nRows, if nCols < 0 then 0 else nCols;
    var grid := Rows(0, rows, cols);
    if grid == [] then None else Some(State(nRows, nCols, None, grid[1..], 0))
  }

  /** The loop of `init_allowed_bites` below the root: the parent's bites that (r, c) does not eat, in order. */
  function Remaining(bites: seq<Cell>, r: int, c: int): (rest: seq<Cell>)
    ensures |rest| <= |bites|
  {
    if bites == [] then []
    else (if Eaten(bites[0], r, c) then [] else [bites[0]]) + Remaining(bites[1..], r, c)
  }

  lemma {:induction false} RemainingCells(bites: seq<Cell>, r: int, c: int)
    ensures forall x :: x in Remaining(bites, r, c) <==> x in bites && !Eaten(x, r, c)
  {
    if bites != [] {
      RemainingCells(bites[1..], r, c);
      assert bites == [bites[0]] + bites[1..];
    }
  }

  /** Biting an available cell removes at least that cell. */
  lemma {:induction false} RemainingShrinks(bites: seq<Cell>, k: nat, r: int, c: int)
    requires k < |bites| && Eaten(bites[k], r, c)
    ensures |Remaining(bites, r, c)| < |bites|
  {
    if k > 0 {
      RemainingShrinks(bites[1..], k - 1, r, c);
    }
  }

  /** The text `str(x) + str(y) + "-"` of every cell, before the last character is cut. */
  function Raw(bites: seq<Cell>): (s: string)
  {
    if bites == [] then "" else NatToString(bites[0].r) + NatToString(bites[0].c) + "-" + Raw(bites[1..])
  }

  /** `__str__`: the cells' texts joined by "-" (`s[:-1]` leaves an empty string empty). */
  function BitesKey(bites: seq<Cell>): (s: string)
  {
    var raw := Raw(bites);
    if raw == "" then "" else raw[..|raw| - 1]
  }

  // ---------------------------------------------------------------------------
  // The game value

  /** The child reached by biting the k-th listed cell. */
  function Child(bites: seq<Cell>, k: nat): (rest: seq<Cell>)
    requires k < |bites|
    ensures |rest| < |bites|
  {
    RemainingShrinks(bites, k, bites[k].r, bites[k].c);
    Remaining(bites, bites[k].r, bites[k].c)
  }

  /** The best of the first i moves as the loop of `negamax` keeps it: its index and value. */
  datatype Choice = Choice(at: nat, eval: int)

  /** The negamax value of a position: -1 when no cell is left, otherwise the best move's value. */
  function Value(bites: seq<Cell>): (v: int)
    ensures v == -1 || v == 1
    decreases |bites|, 1
  {
    if bites == [] then -1 else Best(bites, |bites|).eval
  }

  /**
    The best move among the first i: the later of two moves wins when it is at least as good,
    because `n_skipped` stays infinite and every tie replaces `best_move`.
  */
  function Best(bites: seq<Cell>, i: nat): (ch: Choice)
    requires 1 <= i <= |bites|
    ensures ch.at < i && (ch.eval == -1 || ch.eval == 1)
    decreases |bites|, 0, i
  {
    var e := -Value(Child(bites, i - 1));
    if i == 1 then Choice(0, e)
    else
      var prev := Best(bites, i - 1);
      if e >= prev.eval then Choice(i - 1, e) else prev
  }

  /** The move `negamax` reports: none at a terminal state. */
  function BestMove(bites: seq<Cell>): (m: Option<Cell>)
    ensures m.None? <==> bites == []
  {
    if bites == [] then None else Some(bites[Best(bites, |bites|).at])
  }

  predicate Evals(memo: Memo)
  {
    forall k :: k in memo ==> memo[k].eval == -1 || memo[k].eval == 1
  }

  /**
    Every entry is the search result of a nonempty position whose key it is filed under
    (`from` names that position) and whose indices are single digits.
  */
  ghost predicate Trusted(memo: Option<Memo>, from: map<string, seq<Cell>>)
  {
    memo.Some? ==>
      && memo.value.Keys == from.Keys
      && forall k :: k in from ==>
        && Small(from[k]) && from[k] != [] && BitesKey(from[k]) == k
        && memo.value[k] == Entry(BestMove(from[k]), Value(from[k]))
  }

  /** The tie-break of `negamax`: a skipped count beats `n_skipped`, which is None for an infinite one. */
  function Beats(maximizer: bool, skipped: int, nSkipped: Option<int>): (b: bool)
    ensures nSkipped.None? ==> b
  {
    match nSkipped
    case None => true
    case Some(n) => if maximizer then skipped > n else skipped < n
  }

  /**
    `negamax(state, maximizer, memo)`. At a terminal state the value is -1 and the memo is
    passed back untouched; otherwise a stored entry is reused when its value is positive and
    else every bite is searched, the best kept and stored under `str(state)`. The values are
    always +1 or -1; when the position and the memo's positions have single-digit indices,
    the result is the position's value and its last best move.
  */
  method Negamax(s: State, maximizer: bool, memo: Option<Memo>, ghost from: map<string, seq<Cell>>)
    returns (move: Option<Cell>, eval: int, memo': Option<Memo>, ghost from': map<string, seq<Cell>>)
    requires memo.Some? ==> Evals(memo.value)
    ensures eval == -1 || eval == 1
    ensures memo'.Some? ==> Evals(memo'.value)
    ensures s.IsTerminal() ==> move == None && eval == -1 && memo' == memo
    ensures !s.IsTerminal() ==> memo'.Some? && s.Key() in memo'.value && memo'.value[s.Key()] == Entry(move, eval)
    ensures Small(s.bites) && Trusted(memo, from) ==>
      Trusted(memo', from') && eval == Value(s.bites) && move == BestMove(s.bites)
    decreases |s.bites|, 1
  {
    if s.IsTerminal() {
      return None, -1, memo, from;
    }
    var m: Memo := if memo.None? then map[] else memo.value;
    ghost var fr := if memo.None? then map[] else from;
    ghost var trust := Small(s.bites) && Trusted(memo, from);
    var key := s.Key();
    if key in m && m[key].eval > 0 {
      if trust {
        TrustedHit(m, fr, s.bites);
      }
      return m[key].move, m[key].eval, Some(m), fr;
    }
    var bestMove: Option<Cell> := None;
    var maxEval: Option<int> := None;
    var nSkipped: Option<int> := None;
    var k := 0;
    while k < |s.bites|
      invariant 0 <= k <= |s.bites|
      invariant Evals(m)
      invariant k == 0 ==> maxEval.None?
      invariant k > 0 ==> maxEval.Some? && (maxEval.value == -1 || maxEval.value == 1)
      invariant trust ==> Trusted(Some(m), fr)
      invariant trust && k > 0 ==>
        maxEval == Some(Best(s.bites, k).eval) && bestMove == Some(s.bites[Best(s.bites, k).at])
    {
      m, fr, bestMove, maxEval := Consider(s, maximizer, k, m, fr, bestMove, maxEval, nSkipped, trust);
      k := k + 1;
    }
    if trust {
      TrustedStore(m, fr, s.bites);
    }
    m := m[key := Entry(bestMove, maxEval.value)];
    fr := fr[key := s.bites];
    return bestMove, maxEval.value, Some(m), fr;
  }

  /** A trusted entry filed under a single-digit position's key is that position's result. */
  lemma TrustedHit(m: Memo, fr: map<string, seq<Cell>>, bites: seq<Cell>)
    requires Trusted(Some(m), fr) && Small(bites) && BitesKey(bites) in m
    ensures m[BitesKey(bites)] == Entry(BestMove(bites), Value(bites))
  {
    KeyInjective(fr[BitesKey(bites)], bites);
  }

  /** Filing a single-digit position's result under its key keeps the memo trusted. */
  lemma TrustedStore(m: Memo, fr: map<string, seq<Cell>>, bites: seq<Cell>)
    requires Trusted(Some(m), fr) && Small(bites) && bites != []
    ensures Trusted(Some(m[BitesKey(bites) := Entry(BestMove(bites), Value(bites))]), fr[BitesKey(bites) := bites])
  {
    var key := BitesKey(bites);
    var m', fr' := m[key := Entry(BestMove(bites), Value(bites))], fr[key := bites];
    assert m'.Keys == fr'.Keys;
    forall k | k in fr'
      ensures Small(fr'[k]) && fr'[k] != [] && BitesKey(fr'[k]) == k && m'[k] == Entry(BestMove(fr'[k]), Value(fr'[k]))
    {
      if k != key {
        assert fr'[k] == fr[k] && m'[k] == m[k];
      }
    }
  }

  /**
    One turn of the loop of `negamax` over the bites: search the child of the k-th bite with
    the memo, negate its value and keep the move when it is at least as good as the best so far.
  */
  method Consider(s: State, maximizer: bool, k: nat, m: Memo, ghost fr: map<string, seq<Cell>>,
                  bestMove: Option<Cell>, maxEval: Option<int>, nSkipped: Option<int>, ghost trust: bool)
    returns (m': Memo, ghost fr': map<string, seq<Cell>>, bestMove': Option<Cell>, maxEval': Option<int>)
    requires k < |s.bites| && Evals(m) && nSkipped.None?
    requires k == 0 ==> maxEval.None?
    requires k > 0 ==> maxEval.Some? && (maxEval.value == -1 || maxEval.value == 1)
    requires trust ==> Small(s.bites) && Trusted(Some(m), fr)
    requires trust && k > 0 ==> maxEval == Some(Best(s.bites, k).eval) && bestMove == Some(s.bites[Best(s.bites, k).at])
    ensures Evals(m') && maxEval'.Some? && (maxEval'.value == -1 || maxEval'.value == 1)
    ensures trust ==> Trusted(Some(m'), fr')
    ensures trust ==> maxEval' == Some(Best(s.bites, k + 1).eval) && bestMove' == Some(s.bites[Best(s.bites, k + 1).at])
    decreases |s.bites|, 0
  {
    var x := s.bites[k];
    var child := s.Bite(x.r, x.c);
    assert child.bites == Child(s.bites, k);
    var _, e, memo2, fr2 := Negamax(child, !maximizer, Some(m), fr);
    m', fr', e := memo2.value, fr2, -e;
    bestMove', maxEval' := bestMove, maxEval;
    if maxEval'.None? || e > maxEval'.value {
      bestMove', maxEval' := Some(x), Some(e);
    }
    if maxEval' == Some(e) && Beats(maximizer, child.skipped, nSkipped) {
      bestMove', maxEval' := Some(x), Some(e);
    }
  }

  // ---------------------------------------------------------------------------
  // Properties of the states

  /** The root lists every cell but (0, 0), in row-major order; it fails exactly on an empty board. */
  lemma RootCells(nRows: int, nCols: int)
    ensures Root(nRows, nCols).None? <==> nRows <= 0 || nCols <= 0
    ensures Root(nRows, nCols).Some? ==>
      var s := Root(nRows, nCols).value;
      && s.IsRoot() && s.skipped == 0 && Sorted(s.bites) && UpLeftClosed(s.bites)
      && |s.bites| == nRows * nCols - 1
      && forall x :: x in s.bites <==> x.r < nRows && x.c < nCols && x != Cell(0, 0)
  {
    var rows, cols := if nRows < 0 then 0 else nRows, if nCols < 0 then 0 else nCols;
    var grid := Rows(0, rows, cols);
    RowsFacts(0, rows, cols);
    if grid != [] {
      assert rows > 0 && cols > 0;
      assert grid[0] == Cell(0, 0) by {
        assert Cell(0, 0) in grid;
        var k :| 0 <= k < |grid| && grid[k] == Cell(0, 0);
        if k > 0 {
          assert Before(grid[0], grid[k]);
        }
      }
      var bites := grid[1..];
      forall x
        ensures x in bites <==> x.r < nRows && x.c < nCols && x != Cell(0, 0)
      {
        if x in grid && x != Cell(0, 0) {
          var k :| 0 <= k < |grid| && grid[k] == x;
          assert k != 0;
          assert x == bites[k - 1];
        }
      }
    } else {
      assert Cell(0, 0) !in grid;
    }
  }

  /** A bite keeps the parent's order, so the bites stay sorted. */
  lemma {:induction false} RemainingSorted(bites: seq<Cell>, r: int, c: int)
    requires Sorted(bites)
    ensures Sorted(Remaining(bites, r, c))
  {
    if bites != [] {
      RemainingSorted(bites[1..], r, c);
      RemainingCells(bites[1..], r, c);
      var head := if Eaten(bites[0], r, c) then [] else [bites[0]];
      var rest := Remaining(bites[1..], r, c);
      forall x, y | x in head && y in rest
        ensures Before(x, y)
      {
        var j :| 0 <= j < |bites[1..]| && bites[1..][j] == y;
        assert bites[j + 1] == y;
      }
      SortedAppend(head, rest);
    }
  }

  /**
    `bite(r, c)` keeps exactly the parent's cells that (r, c) does not eat, in order: the
    bitten cell is gone, the cells stay sorted and up-left closed, and the skipped count
    grows by the number of other eaten cells (never negative when (r, c) was available).
  */
  lemma BiteFacts(s: State, r: nat, c: nat)
    requires Sorted(s.bites) && UpLeftClosed(s.bites)
    ensures var child := s.Bite(r, c);
      && Cell(r, c) !in child.bites
      && Sorted(child.bites) && UpLeftClosed(child.bites)
      && child.skipped == s.skipped + |s.bites| - |child.bites| - 1
      && (Cell(r, c) in s.bites ==> child.skipped >= s.skipped)
      && ((forall x :: x in s.bites ==> !Eaten(x, r, c)) ==> child.skipped == s.skipped - 1)
  {
    var child := s.Bite(r, c);
    RemainingSorted(s.bites, r, c);
    forall x, y: Cell | x in child.bites && y.r <= x.r && y.c <= x.c && y != Cell(0, 0)
      ensures y in child.bites
    {
      assert y in s.bites;
    }
    if Cell(r, c) in s.bites {
      var k :| 0 <= k < |s.bites| && s.bites[k] == Cell(r, c);
      RemainingShrinks(s.bites, k, r, c);
    }
    if forall x :: x in s.bites ==> !Eaten(x, r, c) {
      RemainingKeepsAll(s.bites, r, c);
    }
  }

  lemma {:induction false} RemainingKeepsAll(bites: seq<Cell>, r: int, c: int)
    requires forall x :: x in bites ==> !Eaten(x, r, c)
    ensures Remaining(bites, r, c) == bites
  {
    if bites != [] {
      assert bites[0] in bites;
      forall x | x in bites[1..]
        ensures !Eaten(x, r, c)
      {
        assert x in bites;
      }
      RemainingKeepsAll(bites[1..], r, c);
    }
  }

  /**
    Two sorted lists with the same cells are equal: the key of a state depends only on the set
    of cells left, whatever the history.
  */
  lemma {:induction false} SortedUnique(a: seq<Cell>, b: seq<Cell>)
    requires Sorted(a) && Sorted(b)
    requires forall x :: x in a <==> x in b
    ensures a == b
    ensures BitesKey(a) == BitesKey(b)
  {
    SameEmpty(a, b);
    if a != [] {
      assert a[0] in b && b[0] in a;
      var i :| 0 <= i < |b| && b[i] == a[0];
      var j :| 0 <= j < |a| && a[j] == b[0];
      if i > 0 {
        assert false;
      }
      assert a[0] == b[0];
      forall x
        ensures x in a[1..] <==> x in b[1..]
      {
        if x in a[1..] {
          var k :| 0 <= k < |a[1..]| && a[1..][k] == x;
          assert Before(a[0], a[k + 1]);
          assert x in b;
        }
        if x in b[1..] {
          var k :| 0 <= k < |b[1..]| && b[1..][k] == x;
          assert Before(b[0], b[k + 1]);
          assert x in a;
        }
      }
      SortedUnique(a[1..], b[1..]);
      assert a == [a[0]] + a[1..] && b == [b[0]] + b[1..];
    }
  }

  lemma SameEmpty(a: seq<Cell>, b: seq<Cell>)
    requires forall x :: x in a <==> x in b
    ensures a == [] <==> b == []
  {
    if a != [] {
      assert a[0] in b;
    }
    if b != [] {
      assert b[0] in a;
    }
  }

  /** With single-digit indices, every cell is written as exactly two digits and a dash. */
  lemma RawSmall(bites: seq<Cell>)
    requires Small(bites) && bites != []
    ensures Raw(bites) == [DigitChar(bites[0].r), DigitChar(bites[0].c), '-'] + Raw(bites[1..])
  {
    assert bites[0] in bites;
  }

  lemma {:induction false} RawInjective(a: seq<Cell>, b: seq<Cell>)
    requires Small(a) && Small(b) && Raw(a) == Raw(b)
    ensures a == b
  {
    if a != [] && b != [] {
      RawSmall(a);
      RawSmall(b);
      var ra, rb := Raw(a), Raw(b);
      assert DigitChar(a[0].r) == ra[0] == rb[0] == DigitChar(b[0].r);
      assert DigitChar(a[0].c) == ra[1] == rb[1] == DigitChar(b[0].c);
      assert Raw(a[1..]) == ra[3..] == rb[3..] == Raw(b[1..]);
      RawInjective(a[1..], b[1..]);
      assert a == [a[0]] + a[1..] && b == [b[0]] + b[1..];
    } else if a != [] {
      RawSmall(a);
    } else if b != [] {
      RawSmall(b);
    }
  }

  /** The raw text is empty or ends with the dash that `s[:-1]` cuts. */
  lemma {:induction false} RawEnds(bites: seq<Cell>)
    ensures Raw(bites) == "" <==> bites == []
    ensures bites != [] ==> |Raw(bites)| >= 3 && Raw(bites)[|Raw(bites)| - 1] == '-'
  {
    if bites != [] {
      RawEnds(bites[1..]);
    }
  }

  /** With single-digit indices the key names the cells: `str` is injective there. */
  lemma KeyInjective(a: seq<Cell>, b: seq<Cell>)
    requires Small(a) && Small(b) && BitesKey(a) == BitesKey(b)
    ensures a == b
  {
    RawEnds(a);
    RawEnds(b);
    var ra, rb := Raw(a), Raw(b);
    if ra != "" && rb != "" {
      assert ra == ra[..|ra| - 1] + ['-'] && rb == rb[..|rb| - 1] + ['-'];
    } else if ra != "" || rb != "" {
      assert false;
    }
    RawInjective(a, b);
  }

  /** Two-digit indices break it: the cells (1, 11) and (11, 1) share the key "111". */
  lemma KeyCollision()
    ensures BitesKey([Cell(1, 11)]) == BitesKey([Cell(11, 1)]) == "111"
  {
    assert NatToString(11) == NatToString(1) + NatToString(1);
    assert Raw([Cell(1, 11)]) == "111-" && Raw([Cell(11, 1)]) == "111-";
  }

  // ---------------------------------------------------------------------------
  // Properties of the search

  /**
    The loop's choice among the first i moves is the last of them with the greatest value
    -Value(child).
  */
  lemma {:induction false} BestIsLastMax(bites: seq<Cell>, i: nat)
    requires 1 <= i <= |bites|
    ensures var ch := Best(bites, i);
      && ch.eval == -Value(Child(bites, ch.at))
      && (forall k :: 0 <= k < i ==> -Value(Child(bites, k)) <= ch.eval)
      && (forall k :: ch.at < k < i ==> -Value(Child(bites, k)) < ch.eval)
  {
    if i > 1 {
      BestIsLastMax(bites, i - 1);
    }
  }

  /**
    A position is won (+1) exactly when some bite leaves the opponent a lost (-1) position;
    the reported move is the last bite that does best and it is one of the state's bites.
  */
  lemma ValueWins(bites: seq<Cell>)
    requires bites != []
    ensures Value(bites) == 1 <==> exists k :: 0 <= k < |bites| && Value(Child(bites, k)) == -1
    ensures BestMove(bites).value in bites
    ensures var k := Best(bites, |bites|).at;
      -Value(Child(bites, k)) == Value(bites) && forall j :: k < j < |bites| ==> -Value(Child(bites, j)) < Value(bites)
  {
    BestIsLastMax(bites, |bites|);
  }

  /** The 2 x 2 root lists (0, 1), (1, 0) and (1, 1). */
  lemma RootTwoByTwo()
    ensures Root(2, 2) == Some(State(2, 2, None, [Cell(0, 1), Cell(1, 0), Cell(1, 1)], 0))
  {
    assert RowCells(1, 0, 2) == [Cell(1, 0), Cell(1, 1)];
    assert RowCells(0, 0, 2) == [Cell(0, 0), Cell(0, 1)];
    assert Rows(0, 2, 2) == [Cell(0, 0), Cell(0, 1), Cell(1, 0), Cell(1, 1)];
  }

  /** A single cell left is a win: bite it and leave nothing. */
  lemma SingleWins(x: Cell)
    ensures Value([x]) == 1 && BestMove([x]) == Some(x)
  {
    assert [x][1..] == [];
    assert Child([x], 0) == [];
    assert Best([x], 1) == Choice(0, 1);
  }

  lemma RemainingOne(x: Cell, r: int, c: int)
    ensures Remaining([x], r, c) == if Eaten(x, r, c) then [] else [x]
  {
    assert [x][1..] == [];
  }

  lemma RemainingTwo(x: Cell, y: Cell, r: int, c: int)
    ensures Remaining([x, y], r, c) == (if Eaten(x, r, c) then [] else [x]) + (if Eaten(y, r, c) then [] else [y])
  {
    assert [x, y][1..] == [y];
    RemainingOne(y, r, c);
  }

  lemma RemainingThree(x: Cell, y: Cell, z: Cell, r: int, c: int)
    ensures Remaining([x, y, z], r, c)
      == (if Eaten(x, r, c) then [] else [x]) + (if Eaten(y, r, c) then [] else [y]) + (if Eaten(z, r, c) then [] else [z])
  {
    assert [x, y, z][1..] == [y, z];
    RemainingTwo(y, z, r, c);
  }

  /** Two cells, each of which eats only itself, are a loss: either bite leaves the other. */
  lemma PairLoses(x: Cell, y: Cell)
    requires Child([x, y], 0) == [y] && Child([x, y], 1) == [x]
    ensures Value([x, y]) == -1
  {
    SingleWins(x);
    SingleWins(y);
    assert Best([x, y], 1).eval == -1;
  }

  /** Three cells whose last bite alone leaves a lost position: a win by the last bite. */
  lemma ThreeWinsLast(b: seq<Cell>)
    requires |b| == 3 && Value(Child(b, 0)) == 1 && Value(Child(b, 1)) == 1 && Value(Child(b, 2)) == -1
    ensures Value(b) == 1 && BestMove(b) == Some(b[2])
  {
    assert Best(b, 2).eval == -1;
  }

  /** `negamax(ChompState(2, 2), True)` wins with the bite (1, 1). */
  lemma TwoByTwo()
    ensures Root(2, 2).Some? && Value(Root(2, 2).value.bites) == 1
    ensures BestMove(Root(2, 2).value.bites) == Some(Cell(1, 1))
  {
    RootTwoByTwo();
    var x, y, z := Cell(0, 1), Cell(1, 0), Cell(1, 1);
    RemainingThree(x, y, z, 0, 1);
    RemainingThree(x, y, z, 1, 0);
    RemainingThree(x, y, z, 1, 1);
    RemainingTwo(x, y, 0, 1);
    RemainingTwo(x, y, 1, 0);
    SingleWins(x);
    SingleWins(y);
    PairLoses(x, y);
    assert Child([x, y, z], 0) == [y] && Child([x, y, z], 1) == [x] && Child([x, y, z], 2) == [x, y];
    ThreeWinsLast([x, y, z]);
  }
}
