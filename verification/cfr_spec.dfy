/**
  The table passes of the CFR solvers in `cfr_algos.py`, as pure functions over the Kuhn
  tree: `init_map`, the `update_sigma` pass and `compute_ne`. Each is a pre-order walk
  (`KuhnTree.PreWalk`) whose step mirrors the body of the source's recursive closure; the
  lemmas say what the tables hold once the walk is over.

  The bot family and the plain solvers share these definitions: a plain solver is a bot
  whose `user` is no betting player (`CHANCE`) and whose `user_sigma` is empty, and on
  such arguments every bot-only branch is dead.
*/
module CfrSpec {
  import opened Common
  import opened KuhnGame
  import opened KuhnTree
  import opened CfrStore

  /** A table holds a row for the information set of every node, over that information set's keys. */
  ghost predicate Covers(t: Table)
  {
    forall s :: s in InfoSets(TREE) ==> s in t && t[s].Keys == KeySet(KeysOf(s))
  }

  /** The information sets of the nodes of `ns` that `sel` picks. */
  ghost function SetsWhere(ns: seq<Node>, sel: Node -> bool): set<string>
  {
    set n | n in ns && sel(n) :: n.InfoSet()
  }

  predicate AnyNode(n: Node)
  {
    true
  }

  /** The information sets of the nodes in `ns`. */
  ghost function InfoSets(ns: seq<Node>): set<string>
  {
    SetsWhere(ns, AnyNode)
  }

  lemma SetsWhereCons(ns: seq<Node>, sel: Node -> bool)
    requires ns != []
    ensures SetsWhere(ns, sel) == (if sel(ns[0]) then {ns[0].InfoSet()} else {}) + SetsWhere(ns[1..], sel)
  {
    assert ns == [ns[0]] + ns[1..];
  }

  /**
    A walk whose step writes `val(s)` at the information set `s` of each node `sel` picks, and
    nothing else, ends with those rows written over the starting table.
  */
  ghost predicate WritesAt(step: (Node, Table) -> Table, sel: Node -> bool, val: string -> Row, ns: seq<Node>)
  {
    forall n, t :: n in ns ==> step(n, t) == if sel(n) then t[n.InfoSet() := val(n.InfoSet())] else t
  }

  lemma {:induction false} WriteFold(step: (Node, Table) -> Table, sel: Node -> bool, val: string -> Row, ns: seq<Node>, m: Table)
    requires WritesAt(step, sel, val, ns)
    ensures var r := FoldNodes(step, ns, m);
      && r.Keys == m.Keys + SetsWhere(ns, sel)
      && (forall s :: s in SetsWhere(ns, sel) ==> r[s] == val(s))
      && (forall s :: s in m && s !in SetsWhere(ns, sel) ==> r[s] == m[s])
  {
    if ns != [] {
      WriteFold(step, sel, val, ns[1..], step(ns[0], m));
      SetsWhereCons(ns, sel);
    }
  }

  lemma CoversRow(t: Table, n: Node)
    requires Covers(t) && n in TREE
    ensures n.InfoSet() in t && t[n.InfoSet()].Keys == KeySet(n.Keys())
  {
    NodeFacts(n);
    assert n.InfoSet() in InfoSets(TREE);
  }

  /** Rewriting a row with the same keys keeps a table covering. */
  lemma CoversWrite(t: Table, s: string, row: Row)
    requires Covers(t) && s in t && row.Keys == t[s].Keys
    ensures Covers(t[s := row])
  {
  }

  /** `row[k]`, or 0 for a key the row lacks. */
  function Get(row: Row, k: Key): real
  {
    if k in row then row[k] else 0.0
  }

  // ---------------------------------------------------------------------------
  // init_map

  /**
    The row `init_map(fill)` writes for a node: the user's probabilities at an information
    set of `user_sigma` (zeros unless `fill` is "prob"), `InitRow` elsewhere.
  */
  function InitRowAt(userSigma: Table, n: Node, fill: string): (row: Row)
    ensures row.Keys == KeySet(n.Keys())
  {
    var s := n.InfoSet();
    if s in userSigma then map k | k in KeySet(n.Keys()) :: if fill == "prob" then Get(userSigma[s], k) else 0.0
    else InitRow(n.Keys(), fill)
  }

  /** The row of an information set, whichever of its nodes wrote it. */
  function InitRowOf(userSigma: Table, s: string, fill: string): (row: Row)
    ensures row.Keys == KeySet(KeysOf(s))
  {
    if s in userSigma then map k | k in KeySet(KeysOf(s)) :: if fill == "prob" then Get(userSigma[s], k) else 0.0
    else InitRow(KeysOf(s), fill)
  }

  /** `InitRowOf` as a function of the information set. */
  function InitRows(userSigma: Table, fill: string): string -> Row
  {
    s => InitRowOf(userSigma, s, fill)
  }

  function InitStep(userSigma: Table, fill: string): (Node, Table) -> Table
  {
    (n: Node, m: Table) => m[n.InfoSet() := InitRowAt(userSigma, n, fill)]
  }

  /** `init_map(fill)`: the table filled by the walk from the root. */
  function InitMap(userSigma: Table, fill: string): Table
  {
    PreWalk(InitStep(userSigma, fill), ROOT, map[])
  }

  lemma InitStepAt(userSigma: Table, fill: string, n: Node, m: Table)
    requires n in TREE
    ensures InitStep(userSigma, fill)(n, m) == m[n.InfoSet() := InitRowOf(userSigma, n.InfoSet(), fill)]
  {
    NodeFacts(n);
  }

  lemma InitSteps(userSigma: Table, fill: string)
    ensures WritesAt(InitStep(userSigma, fill), AnyNode, InitRows(userSigma, fill), TREE)
  {
    forall n, t | n in TREE
      ensures InitStep(userSigma, fill)(n, t) == t[n.InfoSet() := InitRowOf(userSigma, n.InfoSet(), fill)]
    {
      InitStepAt(userSigma, fill, n, t);
    }
  }

  lemma InitMapKeys(userSigma: Table, fill: string)
    ensures InitMap(userSigma, fill).Keys == InfoSets(TREE)
  {
    var step := InitStep(userSigma, fill);
    InitSteps(userSigma, fill);
    PreWalkIsFold(step, ROOT, map[]);
    WriteFold(step, AnyNode, InitRows(userSigma, fill), TREE, map[]);
  }

  lemma InitMapRows(userSigma: Table, fill: string)
    ensures var t := InitMap(userSigma, fill);
      forall s :: s in t ==> t[s] == InitRowOf(userSigma, s, fill)
  {
    var step := InitStep(userSigma, fill);
    InitSteps(userSigma, fill);
    PreWalkIsFold(step, ROOT, map[]);
    WriteFold(step, AnyNode, InitRows(userSigma, fill), TREE, map[]);
  }

  /**
    `init_map(fill)` writes a row for exactly the information sets of the tree: the user's
    probabilities (or zeros) where `user_sigma` has the information set, and otherwise
    1 / |actions| per key for "prob" and 0 for any other fill.
  */
  lemma InitMapContents(userSigma: Table, fill: string)
    ensures var t := InitMap(userSigma, fill);
      && t.Keys == InfoSets(TREE)
      && (forall s :: s in t ==> t[s] == InitRowOf(userSigma, s, fill))
      && Covers(t)
  {
    InitMapKeys(userSigma, fill);
    InitMapRows(userSigma, fill);
  }

  lemma InitRowDeals()
    ensures InitRow(DealKeys(DEALINGS), "prob") == map k | k in KeySet(DealKeys(DEALINGS)) :: 1.0 / 6.0
  {
    var ks := DealKeys(DEALINGS);
    assert |ks| == 6;
    var a, b := InitRow(ks, "prob"), map k | k in KeySet(ks) :: 1.0 / 6.0;
    assert a.Keys == b.Keys;
    forall k | k in a
      ensures a[k] == b[k]
    {
    }
  }

  lemma InitRowActions()
    ensures InitRow(ActKeys(KUHN_ACTIONS), "prob") == map[ActKey(BET) := 0.5, ActKey(PASS) := 0.5]
  {
    assert ActKeys(KUHN_ACTIONS) == [ActKey(BET), ActKey(PASS)];
    assert KeySet([ActKey(BET), ActKey(PASS)]) == {ActKey(BET), ActKey(PASS)};
  }

  /** The row `init_map("prob")` writes for information set `s` when the user has no row there. */
  function UniformRow(s: string): Row
  {
    if s == "." then map k | k in KeySet(DealKeys(DEALINGS)) :: 1.0 / 6.0
    else if |s| > 0 && s[0] == '-' then map[]
    else map[ActKey(BET) := 0.5, ActKey(PASS) := 0.5]
  }

  lemma InitRowUniform(s: string)
    ensures InitRowOf(map[], s, "prob") == UniformRow(s)
  {
    if s == "." {
      InitRowDeals();
    } else if |s| > 0 && s[0] == '-' {
    } else {
      InitRowActions();
    }
  }

  /**
    Without user probabilities, "prob" makes the root uniform over the six dealings, every
    decision node uniform over both actions, and every terminal an empty row.
  */
  lemma InitMapUniform(n: Node)
    requires n in TREE
    ensures var t := InitMap(map[], "prob");
      var row := if n.InfoSet() in t then t[n.InfoSet()] else map[];
      && n.InfoSet() in t
      && (n == ROOT ==> row == map k | k in KeySet(DealKeys(DEALINGS)) :: 1.0 / 6.0)
      && (n != ROOT && n.IsTerminal() ==> row == map[])
      && (n != ROOT && !n.IsTerminal() ==> row == map[ActKey(BET) := 0.5, ActKey(PASS) := 0.5])
  {
    var s := n.InfoSet();
    InitMapContents(map[], "prob");
    assert s in InfoSets(TREE);
    InitRowUniform(s);
    assert InitMap(map[], "prob")[s] == UniformRow(s);
    NodeFacts(n);
    if n != ROOT {
      InfoSetHead(n);
    }
  }

  // ---------------------------------------------------------------------------
  // update_sigma

  /** `sigma` and `sigma_cum`, the two tables `update_sigma` rewrites. */
  datatype Strategy = Strategy(sigma: Table, sigmaCum: Table)

  /** The nodes `update_sigma` rewrites: not the root, not a node of the user, not a terminal. */
  predicate Updates(n: Node, user: int)
  {
    !n.IsRoot() && n.Player() != user && !n.IsTerminal()
  }

  /** The three rows of the node's information set exist and line up with `sigma`'s keys. */
  predicate Ready(n: Node, st: Strategy, rCum: Table)
  {
    var s := n.InfoSet();
    && s in rCum && s in st.sigma && s in st.sigmaCum
    && KeySet(n.Keys()) <= rCum[s].Keys
    && st.sigma[s].Keys <= rCum[s].Keys
    && st.sigma[s].Keys <= st.sigmaCum[s].Keys
  }

  /** `sigma_cum[s][a] += row[a]` for every key `a` of `row`. */
  function AddRow(acc: Row, row: Row): (r: Row)
    requires row.Keys <= acc.Keys
    ensures r.Keys == acc.Keys
  {
    map k | k in acc :: if k in row then acc[k] + row[k] else acc[k]
  }

  /** One node of the `update_sigma` pass: regret matching on `r_cum`, added to `sigma_cum`. */
  function UpdateStep(user: int, rCum: Table): (Node, Strategy) -> Strategy
  {
    (n: Node, st: Strategy) =>
      if Updates(n, user) && Ready(n, st, rCum) then
        var s := n.InfoSet();
        var row := RegretMatch(rCum[s], st.sigma[s].Keys, n.Keys());
        Strategy(st.sigma[s := row], st.sigmaCum[s := AddRow(st.sigmaCum[s], row)])
      else st
  }

  /** `update_sigma`: the pass from the root; `r_cum` is only read. */
  function UpdatePass(user: int, rCum: Table, st: Strategy): Strategy
  {
    PreWalk(UpdateStep(user, rCum), ROOT, st)
  }

  /** The regret-matched row of information set `s`. */
  function Matched(rCum: Table, s: string): (row: Row)
    requires s in rCum && KeySet(KeysOf(s)) <= rCum[s].Keys
    ensures row.Keys == KeySet(KeysOf(s))
  {
    RegretMatch(rCum[s], KeySet(KeysOf(s)), KeysOf(s))
  }

  /** The information sets `update_sigma` rewrites among `ns`. */
  ghost function UpdatedSets(ns: seq<Node>, user: int): set<string>
  {
    set n | n in ns && Updates(n, user) :: n.InfoSet()
  }

  lemma UpdatedSetsCons(ns: seq<Node>, user: int)
    requires ns != []
    ensures UpdatedSets(ns, user) ==
      (if Updates(ns[0], user) then {ns[0].InfoSet()} else {}) + UpdatedSets(ns[1..], user)
  {
    assert ns == [ns[0]] + ns[1..];
  }

  /** How many nodes of `ns` with information set `s` the pass rewrites. */
  function Visits(ns: seq<Node>, user: int, s: string): nat
  {
    if ns == [] then 0
    else (if Updates(ns[0], user) && ns[0].InfoSet() == s then 1 else 0) + Visits(ns[1..], user, s)
  }

  lemma {:induction false} VisitsPositive(ns: seq<Node>, user: int, s: string)
    ensures s in UpdatedSets(ns, user) <==> Visits(ns, user, s) > 0
  {
    if ns != [] {
      VisitsPositive(ns[1..], user, s);
      UpdatedSetsCons(ns, user);
    }
  }

  /** `row` after `c` additions of `m`. */
  function Grown(row: Row, c: nat, m: Row): (r: Row)
    ensures r.Keys == row.Keys
  {
    map k | k in row :: if k in m then row[k] + c as real * m[k] else row[k]
  }

  lemma GrownStep(row: Row, c: nat, m: Row)
    requires m.Keys <= row.Keys
    ensures Grown(AddRow(row, m), c, m) == Grown(row, c + 1, m)
    ensures Grown(row, 0, m) == row
  {
    var a, b := Grown(AddRow(row, m), c, m), Grown(row, c + 1, m);
    forall k | k in row
      ensures a[k] == b[k]
    {
      if k in m {
        assert (c + 1) as real * m[k] == c as real * m[k] + m[k];
      }
    }
    assert a == b;
    var z := Grown(row, 0, m);
    forall k | k in row
      ensures z[k] == row[k]
    {
      if k in m {
        assert 0 as real * m[k] == 0.0;
      }
    }
    assert z == row;
  }

  lemma GrownOnce(row: Row, m: Row)
    requires m.Keys <= row.Keys
    ensures AddRow(row, m) == Grown(row, 1, m)
  {
    GrownStep(AddRow(row, m), 0, m);
    GrownStep(row, 0, m);
  }

  /** One node of the pass on covering tables: a rewrite of its information set exactly when it `Updates`. */
  lemma UpdateStepAt(user: int, rCum: Table, n: Node, st: Strategy)
    requires n in TREE && Covers(rCum) && Covers(st.sigma) && Covers(st.sigmaCum)
    ensures var s := n.InfoSet();
      && s in rCum && KeySet(KeysOf(s)) <= rCum[s].Keys && s in st.sigma && s in st.sigmaCum
      && Matched(rCum, s).Keys <= st.sigmaCum[s].Keys
      && UpdateStep(user, rCum)(n, st) ==
           if Updates(n, user) then
             Strategy(st.sigma[s := Matched(rCum, s)], st.sigmaCum[s := AddRow(st.sigmaCum[s], Matched(rCum, s))])
           else st
    ensures Covers(UpdateStep(user, rCum)(n, st).sigma) && Covers(UpdateStep(user, rCum)(n, st).sigmaCum)
  {
    var s := n.InfoSet();
    NodeFacts(n);
    CoversRow(rCum, n);
    CoversRow(st.sigma, n);
    CoversRow(st.sigmaCum, n);
    if Updates(n, user) {
      assert Ready(n, st, rCum);
      CoversWrite(st.sigma, s, Matched(rCum, s));
      CoversWrite(st.sigmaCum, s, AddRow(st.sigmaCum[s], Matched(rCum, s)));
    }
  }

  /** The rows the pass leaves alone: those of information sets it never rewrites. */
  ghost predicate Untouched(user: int, ns: seq<Node>, st: Strategy, r: Strategy)
  {
    && r.sigma.Keys == st.sigma.Keys && r.sigmaCum.Keys == st.sigmaCum.Keys
    && (forall s :: s in st.sigma && Visits(ns, user, s) == 0 ==> r.sigma[s] == st.sigma[s])
    && (forall s :: s in st.sigmaCum && Visits(ns, user, s) == 0 ==> r.sigmaCum[s] == st.sigmaCum[s])
  }

  /** The rows the pass rewrites: regret matching in `sigma`, one addition per visit in `sigma_cum`. */
  ghost predicate Rewritten(user: int, rCum: Table, ns: seq<Node>, st: Strategy, r: Strategy)
  {
    forall s :: Visits(ns, user, s) > 0 ==>
      && s in rCum && KeySet(KeysOf(s)) <= rCum[s].Keys && s in st.sigma && s in st.sigmaCum
      && s in r.sigma && s in r.sigmaCum
      && r.sigma[s] == Matched(rCum, s)
      && r.sigmaCum[s] == Grown(st.sigmaCum[s], Visits(ns, user, s), Matched(rCum, s))
  }

  /** The invariant of the `update_sigma` fold over any run of tree nodes. */
  ghost predicate UpdatedFrom(user: int, rCum: Table, ns: seq<Node>, st: Strategy, r: Strategy)
  {
    Untouched(user, ns, st, r) && Rewritten(user, rCum, ns, st, r)
  }

  /** What one node of the pass does to the tables, when they cover its information set. */
  ghost predicate StepRel(user: int, rCum: Table, n: Node, st: Strategy, st': Strategy)
  {
    var s0 := n.InfoSet();
    && s0 in rCum && KeySet(KeysOf(s0)) <= rCum[s0].Keys && s0 in st.sigma && s0 in st.sigmaCum
    && Matched(rCum, s0).Keys <= st.sigmaCum[s0].Keys
    && st' == if Updates(n, user) then
         Strategy(st.sigma[s0 := Matched(rCum, s0)], st.sigmaCum[s0 := AddRow(st.sigmaCum[s0], Matched(rCum, s0))])
       else st
  }

  lemma UpdateFoldFirst(user: int, rCum: Table, ns: seq<Node>, st: Strategy, st': Strategy, r: Strategy, s: string)
    requires ns != [] && StepRel(user, rCum, ns[0], st, st')
    requires UpdatedFrom(user, rCum, ns[1..], st', r)
    requires Updates(ns[0], user) && s == ns[0].InfoSet()
    ensures r.sigmaCum[s] == Grown(st.sigmaCum[s], Visits(ns, user, s), Matched(rCum, s))
  {
    var m := Matched(rCum, s);
    var c := Visits(ns[1..], user, s);
    assert Visits(ns, user, s) == c + 1;
    if c == 0 {
      assert r.sigmaCum[s] == AddRow(st.sigmaCum[s], m);
      GrownOnce(st.sigmaCum[s], m);
    } else {
      assert r.sigmaCum[s] == Grown(AddRow(st.sigmaCum[s], m), c, m);
      GrownStep(st.sigmaCum[s], c, m);
    }
  }

  lemma UpdateFoldLater(user: int, rCum: Table, ns: seq<Node>, st: Strategy, st': Strategy, r: Strategy, s: string)
    requires ns != [] && StepRel(user, rCum, ns[0], st, st')
    requires UpdatedFrom(user, rCum, ns[1..], st', r)
    requires Visits(ns, user, s) > 0 && !(Updates(ns[0], user) && s == ns[0].InfoSet())
    ensures r.sigmaCum[s] == Grown(st.sigmaCum[s], Visits(ns, user, s), Matched(rCum, s))
  {
  }

  lemma UpdateFoldKeys(user: int, rCum: Table, ns: seq<Node>, st: Strategy, st': Strategy, r: Strategy)
    requires ns != [] && StepRel(user, rCum, ns[0], st, st')
    requires r.sigma.Keys == st'.sigma.Keys && r.sigmaCum.Keys == st'.sigmaCum.Keys
    ensures r.sigma.Keys == st.sigma.Keys && r.sigmaCum.Keys == st.sigmaCum.Keys
  {
    var s0 := ns[0].InfoSet();
    if Updates(ns[0], user) {
      assert st'.sigma.Keys == st.sigma.Keys + {s0} == st.sigma.Keys;
      assert st'.sigmaCum.Keys == st.sigmaCum.Keys + {s0} == st.sigmaCum.Keys;
    }
  }

  lemma VisitsNone(ns: seq<Node>, user: int, s: string)
    requires ns != [] && Visits(ns, user, s) == 0
    ensures Visits(ns[1..], user, s) == 0 && !(Updates(ns[0], user) && s == ns[0].InfoSet())
  {
  }

  /** A step leaves the rows of every other information set alone. */
  lemma StepKeeps(user: int, rCum: Table, n: Node, st: Strategy, st': Strategy, s: string)
    requires StepRel(user, rCum, n, st, st')
    requires !(Updates(n, user) && s == n.InfoSet())
    ensures s in st.sigma ==> s in st'.sigma && st'.sigma[s] == st.sigma[s]
    ensures s in st.sigmaCum ==> s in st'.sigmaCum && st'.sigmaCum[s] == st.sigmaCum[s]
  {
    if Updates(n, user) {
      var s0 := n.InfoSet();
      WriteKeeps(st, s0, Matched(rCum, s0), s);
    }
  }

  /** Writing the row of `s0` leaves the rows of `s` alone. */
  lemma WriteKeeps(st: Strategy, s0: string, row: Row, s: string)
    requires s0 in st.sigmaCum && row.Keys <= st.sigmaCum[s0].Keys && s != s0
    ensures var st' := Strategy(st.sigma[s0 := row], st.sigmaCum[s0 := AddRow(st.sigmaCum[s0], row)]);
      && (s in st.sigma ==> s in st'.sigma && st'.sigma[s] == st.sigma[s])
      && (s in st.sigmaCum ==> s in st'.sigmaCum && st'.sigmaCum[s] == st.sigmaCum[s])
  {
  }

  lemma UpdateFoldUntouchedAt(user: int, rCum: Table, ns: seq<Node>, st: Strategy, st': Strategy, r: Strategy, s: string)
    requires ns != [] && StepRel(user, rCum, ns[0], st, st')
    requires Untouched(user, ns[1..], st', r)
    requires Visits(ns, user, s) == 0
    ensures s in st.sigma ==> s in r.sigma && r.sigma[s] == st.sigma[s]
    ensures s in st.sigmaCum ==> s in r.sigmaCum && r.sigmaCum[s] == st.sigmaCum[s]
  {
    VisitsNone(ns, user, s);
    StepKeeps(user, rCum, ns[0], st, st', s);
  }

  lemma UpdateFoldUntouched(user: int, rCum: Table, ns: seq<Node>, st: Strategy, st': Strategy, r: Strategy)
    requires ns != [] && StepRel(user, rCum, ns[0], st, st')
    requires Untouched(user, ns[1..], st', r)
    ensures Untouched(user, ns, st, r)
  {
    UpdateFoldKeys(user, rCum, ns, st, st', r);
    forall s | Visits(ns, user, s) == 0
      ensures s in st.sigma ==> r.sigma[s] == st.sigma[s]
      ensures s in st.sigmaCum ==> r.sigmaCum[s] == st.sigmaCum[s]
    {
      UpdateFoldUntouchedAt(user, rCum, ns, st, st', r, s);
    }
  }

  lemma UpdateFoldRewritten(user: int, rCum: Table, ns: seq<Node>, st: Strategy, st': Strategy, r: Strategy)
    requires ns != [] && StepRel(user, rCum, ns[0], st, st')
    requires UpdatedFrom(user, rCum, ns[1..], st', r)
    ensures Rewritten(user, rCum, ns, st, r)
  {
    forall s | Visits(ns, user, s) > 0
      ensures s in rCum && KeySet(KeysOf(s)) <= rCum[s].Keys && s in st.sigma && s in st.sigmaCum
      ensures s in r.sigma && s in r.sigmaCum
      ensures r.sigma[s] == Matched(rCum, s)
      ensures r.sigmaCum[s] == Grown(st.sigmaCum[s], Visits(ns, user, s), Matched(rCum, s))
    {
      if Updates(ns[0], user) && s == ns[0].InfoSet() {
        UpdateFoldFirst(user, rCum, ns, st, st', r, s);
      } else {
        UpdateFoldLater(user, rCum, ns, st, st', r, s);
      }
    }
  }

  lemma {:induction false} UpdateFold(user: int, rCum: Table, ns: seq<Node>, st: Strategy)
    requires forall n :: n in ns ==> n in TREE
    requires Covers(rCum) && Covers(st.sigma) && Covers(st.sigmaCum)
    ensures var r := FoldNodes(UpdateStep(user, rCum), ns, st);
      Covers(r.sigma) && Covers(r.sigmaCum) && UpdatedFrom(user, rCum, ns, st, r)
  {
    if ns != [] {
      UpdateStepAt(user, rCum, ns[0], st);
      var st' := UpdateStep(user, rCum)(ns[0], st);
      assert StepRel(user, rCum, ns[0], st, st');
      UpdateFold(user, rCum, ns[1..], st');
      var r := FoldNodes(UpdateStep(user, rCum), ns[1..], st');
      UpdateFoldUntouched(user, rCum, ns, st, st', r);
      UpdateFoldRewritten(user, rCum, ns, st, st', r);
    }
  }

  /**
    After `update_sigma`, every information set the pass rewrites holds the regret-matched
    row of `r_cum`, and its `sigma_cum` grew by that row once per node sharing the
    information set; every other row of `sigma` and `sigma_cum` (the root, the terminals,
    the user's) is untouched.
  */
  lemma UpdatePassContents(user: int, rCum: Table, st: Strategy)
    requires Covers(rCum) && Covers(st.sigma) && Covers(st.sigmaCum)
    ensures var r := UpdatePass(user, rCum, st);
      Covers(r.sigma) && Covers(r.sigmaCum) && UpdatedFrom(user, rCum, TREE, st, r)
  {
    PreWalkIsFold(UpdateStep(user, rCum), ROOT, st);
    UpdateFold(user, rCum, TREE, st);
  }

  lemma RewrittenAt(user: int, rCum: Table, ns: seq<Node>, st: Strategy, r: Strategy, s: string)
    requires Rewritten(user, rCum, ns, st, r) && s in UpdatedSets(ns, user)
    ensures s in rCum && KeySet(KeysOf(s)) <= rCum[s].Keys && s in r.sigma && r.sigma[s] == Matched(rCum, s)
  {
    VisitsPositive(ns, user, s);
  }

  /** After `update_sigma`, each rewritten information set is a probability distribution over its actions. */
  lemma UpdatedRowsAreDistributions(user: int, rCum: Table, st: Strategy, n: Node)
    requires Covers(rCum) && Covers(st.sigma) && Covers(st.sigmaCum)
    requires n in TREE && Updates(n, user)
    ensures var t := UpdatePass(user, rCum, st).sigma;
      n.InfoSet() in t && IsDistribution(t[n.InfoSet()], n.Keys())
  {
    var s := n.InfoSet();
    UpdatePassContents(user, rCum, st);
    assert s in UpdatedSets(TREE, user);
    RewrittenAt(user, rCum, TREE, st, UpdatePass(user, rCum, st), s);
    NodeFacts(n);
    RegretMatchIsDistribution(rCum[s], n.Keys());
  }

  // ---------------------------------------------------------------------------
  // compute_ne

  /** One node of `compute_ne`: the user's row at a user node, normalised `sigma_cum` at the others. */
  function NeStep(user: int, userSigma: Table, sigma: Table, sigmaCum: Table): (Node, Table) -> Table
  {
    (n: Node, ne: Table) =>
      var s := n.InfoSet();
      if n.IsRoot() || n.IsTerminal() then ne
      else if n.Player() == user then ne[s := if s in userSigma then userSigma[s] else map[]]
      else if s in sigma && s in sigmaCum && KeySet(n.Keys()) <= sigmaCum[s].Keys && sigma[s].Keys <= sigmaCum[s].Keys then
        ne[s := Normalise(sigmaCum[s], sigma[s].Keys, n.Keys())]
      else ne
  }

  /** `compute_ne`: the table filled by the walk from the root. */
  function ComputeNe(user: int, userSigma: Table, sigma: Table, sigmaCum: Table): Table
  {
    PreWalk(NeStep(user, userSigma, sigma, sigmaCum), ROOT, map[])
  }

  /** The acting player a decision information set names in its first character. */
  function PlayerOf(s: string): int
  {
    if |s| > 0 && s[0] == '1' then 1 else 2
  }

  /**
    The entry `compute_ne` writes for decision information set `s`: the user's row (or an empty
    one) at the user's information sets, `sigma_cum` normalised at the others. On covering tables
    the row of `s` always exists; without it there is no entry to normalise.
  */
  function NeRow(user: int, userSigma: Table, sigmaCum: Table, s: string): Row
  {
    if PlayerOf(s) == user then (if s in userSigma then userSigma[s] else map[])
    else if s in sigmaCum && KeySet(KeysOf(s)) <= sigmaCum[s].Keys then
      Normalise(sigmaCum[s], KeySet(KeysOf(s)), KeysOf(s))
    else map[]
  }

  /** `NeRow` as a function of the information set. */
  function NeRows(user: int, userSigma: Table, sigmaCum: Table): string -> Row
  {
    s => NeRow(user, userSigma, sigmaCum, s)
  }

  /** Neither the root nor a terminal: a node where a betting player acts. */
  predicate IsDecision(n: Node)
  {
    !n.IsRoot() && !n.IsTerminal()
  }

  /** The information sets of the decision nodes among `ns`. */
  ghost function DecisionSets(ns: seq<Node>): set<string>
  {
    SetsWhere(ns, IsDecision)
  }

  lemma DecisionNode(n: Node)
    requires n in TREE && !n.IsRoot() && !n.IsTerminal()
    ensures n.Player() == PlayerOf(n.InfoSet())
    ensures n.Keys() == KeysOf(n.InfoSet())
  {
    NodeFacts(n);
    InfoSetHead(n);
    assert n.InfoSet()[0] == IntToString(n.player)[0];
  }

  lemma NeStepSkip(user: int, userSigma: Table, sigma: Table, sigmaCum: Table, n: Node, m: Table)
    requires n in TREE && Covers(sigmaCum) && (n.IsRoot() || n.IsTerminal())
    ensures var s := n.InfoSet(); s in sigmaCum && KeySet(KeysOf(s)) <= sigmaCum[s].Keys
    ensures NeStep(user, userSigma, sigma, sigmaCum)(n, m) == m
  {
    NodeFacts(n);
    CoversRow(sigmaCum, n);
  }

  lemma NeStepUser(user: int, userSigma: Table, sigma: Table, sigmaCum: Table, n: Node, m: Table)
    requires n in TREE && Covers(sigmaCum)
    requires !n.IsRoot() && !n.IsTerminal() && n.Player() == user
    ensures var s := n.InfoSet();
      && s in sigmaCum && KeySet(KeysOf(s)) <= sigmaCum[s].Keys
      && NeStep(user, userSigma, sigma, sigmaCum)(n, m) == m[s := NeRow(user, userSigma, sigmaCum, s)]
  {
    CoversRow(sigmaCum, n);
    DecisionNode(n);
  }

  lemma NeStepOther(user: int, userSigma: Table, sigma: Table, sigmaCum: Table, n: Node, m: Table)
    requires n in TREE && Covers(sigma) && Covers(sigmaCum)
    requires !n.IsRoot() && !n.IsTerminal() && n.Player() != user
    ensures var s := n.InfoSet();
      && s in sigmaCum && KeySet(KeysOf(s)) <= sigmaCum[s].Keys
      && NeStep(user, userSigma, sigma, sigmaCum)(n, m) == m[s := NeRow(user, userSigma, sigmaCum, s)]
  {
    CoversRow(sigma, n);
    CoversRow(sigmaCum, n);
    DecisionNode(n);
  }

  /** One node of `compute_ne` on covering tables writes `NeRow` exactly at a decision node. */
  lemma NeStepAt(user: int, userSigma: Table, sigma: Table, sigmaCum: Table, n: Node, m: Table)
    requires n in TREE && Covers(sigma) && Covers(sigmaCum)
    ensures var s := n.InfoSet();
      && s in sigmaCum && KeySet(KeysOf(s)) <= sigmaCum[s].Keys
      && NeStep(user, userSigma, sigma, sigmaCum)(n, m) ==
           if IsDecision(n) then m[s := NeRow(user, userSigma, sigmaCum, s)] else m
  {
    if n.IsRoot() || n.IsTerminal() {
      NeStepSkip(user, userSigma, sigma, sigmaCum, n, m);
    } else if n.Player() == user {
      NeStepUser(user, userSigma, sigma, sigmaCum, n, m);
    } else {
      NeStepOther(user, userSigma, sigma, sigmaCum, n, m);
    }
  }

  lemma NeSteps(user: int, userSigma: Table, sigma: Table, sigmaCum: Table)
    requires Covers(sigma) && Covers(sigmaCum)
    ensures WritesAt(NeStep(user, userSigma, sigma, sigmaCum), IsDecision, NeRows(user, userSigma, sigmaCum), TREE)
  {
    forall n, t | n in TREE
      ensures NeStep(user, userSigma, sigma, sigmaCum)(n, t) ==
        if IsDecision(n) then t[n.InfoSet() := NeRow(user, userSigma, sigmaCum, n.InfoSet())] else t
    {
      NeStepAt(user, userSigma, sigma, sigmaCum, n, t);
    }
  }

  /**
    `compute_ne` has an entry for exactly the information sets of decision nodes: the
    user's own row (or an empty one) at the user's information sets, and `sigma_cum`
    normalised, uniform when its total is not positive, at the others.
  */
  lemma ComputeNeContents(user: int, userSigma: Table, sigma: Table, sigmaCum: Table)
    requires Covers(sigma) && Covers(sigmaCum)
    ensures var ne := ComputeNe(user, userSigma, sigma, sigmaCum);
      && ne.Keys == DecisionSets(TREE)
      && forall s :: s in ne ==> ne[s] == NeRow(user, userSigma, sigmaCum, s)
  {
    var step := NeStep(user, userSigma, sigma, sigmaCum);
    NeSteps(user, userSigma, sigma, sigmaCum);
    PreWalkIsFold(step, ROOT, map[]);
    WriteFold(step, IsDecision, NeRows(user, userSigma, sigmaCum), TREE, map[]);
  }

  /** Where `sigma_cum` is non-negative, every non-user entry of `compute_ne` is a probability distribution. */
  lemma ComputeNeDistributions(user: int, userSigma: Table, sigma: Table, sigmaCum: Table, n: Node)
    requires Covers(sigma) && Covers(sigmaCum) && NonNegTable(sigmaCum)
    requires n in TREE && !n.IsRoot() && !n.IsTerminal() && n.Player() != user
    ensures var ne := ComputeNe(user, userSigma, sigma, sigmaCum);
      n.InfoSet() in ne && IsDistribution(ne[n.InfoSet()], n.Keys())
  {
    ComputeNeContents(user, userSigma, sigma, sigmaCum);
    DecisionNode(n);
    CoversRow(sigmaCum, n);
    assert n.InfoSet() in DecisionSets(TREE);
    NormaliseIsDistribution(sigmaCum[n.InfoSet()], n.Keys());
  }
}
