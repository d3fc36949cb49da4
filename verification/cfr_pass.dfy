/**
  `compute_u`, the utility-and-regret walk of the CFR+ and chance-sampling solvers (and of
  their bot twins, whose `compute_u` is the same code). The walk returns the expected payoff
  to player 1 under the current strategy `sigma` and, at every decision node, adds the
  counterfactual regret of each action to `r_cum` and the reach-weighted strategy to
  `sigma_cum`. CFR+ (`Plus`) averages all six dealings at the root and thresholds `r_cum`
  at 0 after each addition; chance sampling (`ChanceSampling`) walks the one dealing drawn
  at the root and adds regrets as they are.

  The draw of `deal_cards` is the parameter `deal`, the position of the drawn child.
  A node whose tables lack its row (a KeyError in the source) leaves everything as it was;
  on the tree and covering tables that never happens.
*/
module CfrPass {
  import opened Common
  import opened KuhnGame
  import opened CfrStore

  datatype Mode = Plus | ChanceSampling

  /** `r_cum` and `sigma_cum`, the two tables `compute_u` updates. */
  datatype Acc = Acc(rCum: Table, sigmaCum: Table)

  /** What a call of `compute_u` returns, with the tables it leaves. */
  datatype Walk = Walk(u: real, acc: Acc)

  /** The state of the loop over a decision node's actions: `u_actions`, `u_tot` and the tables. */
  datatype Kids = Kids(uActs: Row, uTot: real, acc: Acc)

  /** `node.eval()` at a terminal, as a real. */
  function Payoff(n: Node): real
  {
    if Evaluable(n) && n.IsTerminal() then Eval(n).value as real else 0.0
  }

  /** The strategy row of a decision node exists and has its keys. */
  predicate Decides(n: Node, sigma: Table)
  {
    n.InfoSet() in sigma && |n.children| == |n.Keys()| && KeySet(n.Keys()) <= sigma[n.InfoSet()].Keys
  }

  /** `max(x, 0)` under CFR+, `x` under chance sampling. */
  function Threshold(mode: Mode, x: real): real
  {
    if mode == Plus then Max0(x) else x
  }

  /** `(1 if node.player == 1 else -1)`. */
  function Sign(player: int): real
  {
    if player == 1 then 1.0 else -1.0
  }

  /** `x * y`, kept as a named term so that sums of products unfold predictably. */
  function Times(x: real, y: real): real
  {
    x * y
  }

  /** The reach of the child along an action of probability `q`: only the acting player's reach takes `q`. */
  function Reach(player: int, who: int, r: real, q: real): real
  {
    if player == who then r * q else r
  }

  /** The counterfactual regret of an action worth `ua` at a node worth `u`, for a player with sign `sign` whose opponent reaches the node with `other`. */
  function Regret(other: real, ua: real, u: real, sign: real): real
  {
    other * (ua - u) * sign
  }

  /** `r_cum[s][a]` after the regret `other * (u_a - u_tot) * sign` is added, for each action `a` in `ks`. */
  function RegretRow(mode: Mode, prev: Row, ks: set<Key>, uActs: Row, uTot: real, other: real, sign: real): (row: Row)
    requires ks <= uActs.Keys
    ensures row.Keys == prev.Keys
    ensures forall k :: k in prev && k !in ks ==> row[k] == prev[k]
    ensures forall k :: k in prev && k in ks ==> row[k] == Threshold(mode, prev[k] + Regret(other, uActs[k], uTot, sign))
  {
    map k | k in prev :: if k in ks then Threshold(mode, prev[k] + Regret(other, uActs[k], uTot, sign)) else prev[k]
  }

  /** `sigma_cum[s][a] += own * sigma[s][a]` for each action `a` in `ks`. */
  function CumRow(prev: Row, ks: set<Key>, sr: Row, own: real): (row: Row)
    requires ks <= sr.Keys
    ensures row.Keys == prev.Keys
    ensures forall k :: k in prev ==> row[k] == if k in ks then prev[k] + Times(own, sr[k]) else prev[k]
  {
    map k | k in prev :: if k in ks then prev[k] + Times(own, sr[k]) else prev[k]
  }

  /**
    The closing loop of `compute_u` at a decision node: the reaches are swapped to
    (own, other) for player 2, then regret and reach-weighted strategy are added per action.
  */
  function NodeUpdate(mode: Mode, n: Node, p: real, pc: real, sr: Row, uActs: Row, uTot: real, acc: Acc): Acc
  {
    var s := n.InfoSet();
    var ks := KeySet(n.Keys());
    var own := if n.Player() == 1 then p else pc;
    var other := if n.Player() == 1 then pc else p;
    if s in acc.rCum && s in acc.sigmaCum && ks <= uActs.Keys && ks <= sr.Keys then
      Acc(acc.rCum[s := RegretRow(mode, acc.rCum[s], ks, uActs, uTot, other, Sign(n.Player()))],
          acc.sigmaCum[s := CumRow(acc.sigmaCum[s], ks, sr, own)])
    else acc
  }

  /** `compute_u(node, p, p_cfr)`. */
  function UWalk(mode: Mode, deal: nat, n: Node, p: real, pc: real, sigma: Table, acc: Acc): Walk
    requires deal < 6
    decreases n, 1, 0
  {
    if n.IsRoot() then
      if mode == Plus then
        var w := RootKids(mode, deal, n, 0, p, pc, sigma, acc, 0.0);
        Walk((1.0 / 6.0) * w.u, w.acc)
      else UWalk(mode, deal, n.children[deal], 1.0, 1.0, sigma, acc)
    else if n.IsTerminal() then Walk(Payoff(n), acc)
    else if Decides(n, sigma) then
      var sr := sigma[n.InfoSet()];
      var k := KidsWalk(mode, deal, n, 0, p, pc, sigma, acc, map[], 0.0);
      Walk(k.uTot, NodeUpdate(mode, n, p, pc, sr, k.uActs, k.uTot, k.acc))
    else Walk(0.0, acc)
  }

  /** The CFR+ root loop from child `i` on: `u_tot += compute_u(child, p, p_cfr)`. */
  function RootKids(mode: Mode, deal: nat, n: Node, i: nat, p: real, pc: real, sigma: Table, acc: Acc, uTot: real): Walk
    requires deal < 6 && i <= |n.children|
    decreases n, 0, |n.children| - i
  {
    if i == |n.children| then Walk(uTot, acc)
    else
      var w := UWalk(mode, deal, n.children[i], p, pc, sigma, acc);
      RootKids(mode, deal, n, i + 1, p, pc, sigma, w.acc, uTot + w.u)
  }

  /** The decision-node loop from action `i` on: recurse with the child's reaches, record `u_actions[a]`, add to `u_tot`. */
  function KidsWalk(mode: Mode, deal: nat, n: Node, i: nat, p: real, pc: real, sigma: Table, acc: Acc, uActs: Row, uTot: real): Kids
    requires deal < 6 && i <= |n.children| && Decides(n, sigma)
    decreases n, 0, |n.children| - i
  {
    if i == |n.children| then Kids(uActs, uTot, acc)
    else
      var a := n.Keys()[i];
      var q := sigma[n.InfoSet()][a];
      var w := UWalk(mode, deal, n.children[i], Reach(n.Player(), 1, p, q), Reach(n.Player(), 2, pc, q), sigma, acc);
      KidsWalk(mode, deal, n, i + 1, p, pc, sigma, w.acc, uActs[a := w.u], uTot + Times(q, w.u))
  }

  // ---------------------------------------------------------------------------
  // The value the walk returns

  /**
    The expected payoff to player 1 of the subtree below `n` when both players follow `sigma`:
    the average over the six dealings at the root (the drawn dealing under chance sampling),
    the payoff at a terminal and the sigma-weighted sum over the actions elsewhere.
  */
  function Utility(mode: Mode, deal: nat, n: Node, sigma: Table): real
    requires deal < 6
    decreases n, 1, 0
  {
    if n.IsRoot() then
      if mode == Plus then (1.0 / 6.0) * DealSum(mode, deal, n, 0, sigma)
      else Utility(mode, deal, n.children[deal], sigma)
    else if n.IsTerminal() then Payoff(n)
    else if Decides(n, sigma) then Expected(mode, deal, n, 0, sigma)
    else 0.0
  }

  /** The sum of the children's utilities from child `i` on. */
  function DealSum(mode: Mode, deal: nat, n: Node, i: nat, sigma: Table): real
    requires deal < 6 && i <= |n.children|
    decreases n, 0, |n.children| - i
  {
    if i == |n.children| then 0.0
    else Utility(mode, deal, n.children[i], sigma) + DealSum(mode, deal, n, i + 1, sigma)
  }

  /** The sigma-weighted sum of the children's utilities from action `i` on. */
  function Expected(mode: Mode, deal: nat, n: Node, i: nat, sigma: Table): real
    requires deal < 6 && i <= |n.children| && Decides(n, sigma)
    decreases n, 0, |n.children| - i
  {
    if i == |n.children| then 0.0
    else Times(sigma[n.InfoSet()][n.Keys()[i]], Utility(mode, deal, n.children[i], sigma)) + Expected(mode, deal, n, i + 1, sigma)
  }

  /**
    `compute_u` returns the expected payoff of the current strategy profile: the value does not
    depend on the reach probabilities passed down nor on the tables the walk updates.
  */
  lemma {:induction false} WalkUtility(mode: Mode, deal: nat, n: Node, p: real, pc: real, sigma: Table, acc: Acc)
    requires deal < 6
    ensures UWalk(mode, deal, n, p, pc, sigma, acc).u == Utility(mode, deal, n, sigma)
    decreases n, 1, 0
  {
    if n.IsRoot() {
      if mode == Plus {
        RootKidsUtility(mode, deal, n, 0, p, pc, sigma, acc, 0.0);
      } else {
        WalkUtility(mode, deal, n.children[deal], 1.0, 1.0, sigma, acc);
      }
    } else if !n.IsTerminal() && Decides(n, sigma) {
      KidsWalkUtility(mode, deal, n, 0, p, pc, sigma, acc, map[], 0.0);
    }
  }

  lemma {:induction false} RootKidsUtility(mode: Mode, deal: nat, n: Node, i: nat, p: real, pc: real, sigma: Table, acc: Acc, uTot: real)
    requires deal < 6 && i <= |n.children|
    ensures RootKids(mode, deal, n, i, p, pc, sigma, acc, uTot).u == uTot + DealSum(mode, deal, n, i, sigma)
    decreases n, 0, |n.children| - i
  {
    if i < |n.children| {
      var w := UWalk(mode, deal, n.children[i], p, pc, sigma, acc);
      WalkUtility(mode, deal, n.children[i], p, pc, sigma, acc);
      RootKidsUtility(mode, deal, n, i + 1, p, pc, sigma, w.acc, uTot + w.u);
    }
  }

  lemma {:induction false} KidsWalkUtility(mode: Mode, deal: nat, n: Node, i: nat, p: real, pc: real, sigma: Table, acc: Acc, uActs: Row, uTot: real)
    requires deal < 6 && i <= |n.children| && Decides(n, sigma)
    ensures KidsWalk(mode, deal, n, i, p, pc, sigma, acc, uActs, uTot).uTot == uTot + Expected(mode, deal, n, i, sigma)
    decreases n, 0, |n.children| - i
  {
    if i < |n.children| {
      var a := n.Keys()[i];
      assert a in KeySet(n.Keys());
      var q := sigma[n.InfoSet()][a];
      var w := UWalk(mode, deal, n.children[i], Reach(n.Player(), 1, p, q), Reach(n.Player(), 2, pc, q), sigma, acc);
      KidsWalkStep(mode, deal, n, i, p, pc, sigma, acc, uActs, uTot, w);
      ExpectedStep(mode, deal, n, i, sigma);
      KidsUtilityStep(mode, deal, n, i, p, pc, sigma, acc, uActs, uTot, w);
    }
  }

  /** One action of `KidsWalkUtility`: the child's walk adds its weighted utility. */
  lemma {:induction false} KidsUtilityStep(mode: Mode, deal: nat, n: Node, i: nat, p: real, pc: real, sigma: Table, acc: Acc, uActs: Row, uTot: real, w: Walk)
    requires deal < 6 && i < |n.children| && Decides(n, sigma)
    requires var q := sigma[n.InfoSet()][n.Keys()[i]];
      w == UWalk(mode, deal, n.children[i], Reach(n.Player(), 1, p, q), Reach(n.Player(), 2, pc, q), sigma, acc)
    ensures var q := sigma[n.InfoSet()][n.Keys()[i]];
      KidsWalk(mode, deal, n, i + 1, p, pc, sigma, w.acc, uActs[n.Keys()[i] := w.u], uTot + Times(q, w.u)).uTot
        == uTot + Times(q, Utility(mode, deal, n.children[i], sigma)) + Expected(mode, deal, n, i + 1, sigma)
    decreases n, 0, |n.children| - i, 0
  {
    var q := sigma[n.InfoSet()][n.Keys()[i]];
    WalkUtility(mode, deal, n.children[i], Reach(n.Player(), 1, p, q), Reach(n.Player(), 2, pc, q), sigma, acc);
    KidsWalkUtility(mode, deal, n, i + 1, p, pc, sigma, w.acc, uActs[n.Keys()[i] := w.u], uTot + Times(q, w.u));
  }

  /** One turn of the decision-node loop, with `w` the child's walk. */
  lemma KidsWalkStep(mode: Mode, deal: nat, n: Node, i: nat, p: real, pc: real, sigma: Table, acc: Acc, uActs: Row, uTot: real, w: Walk)
    requires deal < 6 && i < |n.children| && Decides(n, sigma)
    requires var q := sigma[n.InfoSet()][n.Keys()[i]];
      w == UWalk(mode, deal, n.children[i], Reach(n.Player(), 1, p, q), Reach(n.Player(), 2, pc, q), sigma, acc)
    ensures KidsWalk(mode, deal, n, i, p, pc, sigma, acc, uActs, uTot)
      == KidsWalk(mode, deal, n, i + 1, p, pc, sigma, w.acc, uActs[n.Keys()[i] := w.u],
                  uTot + Times(sigma[n.InfoSet()][n.Keys()[i]], w.u))
  {
  }

  /** `KidsWalkStep` with the child's walk given by its value `ua` and tables `acc2`. */
  lemma KidsWalkStepOf(mode: Mode, deal: nat, n: Node, i: nat, p: real, pc: real, sigma: Table, acc: Acc, uActs: Row, uTot: real, ua: real, acc2: Acc)
    requires deal < 6 && i < |n.children| && Decides(n, sigma)
    requires var q := sigma[n.InfoSet()][n.Keys()[i]];
      && ua == UWalk(mode, deal, n.children[i], Reach(n.Player(), 1, p, q), Reach(n.Player(), 2, pc, q), sigma, acc).u
      && acc2 == UWalk(mode, deal, n.children[i], Reach(n.Player(), 1, p, q), Reach(n.Player(), 2, pc, q), sigma, acc).acc
    ensures KidsWalk(mode, deal, n, i, p, pc, sigma, acc, uActs, uTot)
      == KidsWalk(mode, deal, n, i + 1, p, pc, sigma, acc2, uActs[n.Keys()[i] := ua],
                  uTot + Times(sigma[n.InfoSet()][n.Keys()[i]], ua))
  {
    var q := sigma[n.InfoSet()][n.Keys()[i]];
    var w := UWalk(mode, deal, n.children[i], Reach(n.Player(), 1, p, q), Reach(n.Player(), 2, pc, q), sigma, acc);
    assert w == Walk(ua, acc2);
    KidsWalkStep(mode, deal, n, i, p, pc, sigma, acc, uActs, uTot, Walk(ua, acc2));
  }

  /** The action loop ends with the values and tables it has gathered. */
  lemma KidsWalkDone(mode: Mode, deal: nat, n: Node, i: nat, p: real, pc: real, sigma: Table, acc: Acc, uActs: Row, uTot: real)
    requires deal < 6 && i == |n.children| && Decides(n, sigma)
    ensures KidsWalk(mode, deal, n, i, p, pc, sigma, acc, uActs, uTot) == Kids(uActs, uTot, acc)
  {
  }

  /** One turn of the CFR+ root loop, with `w` the child's walk. */
  lemma RootKidsStep(mode: Mode, deal: nat, n: Node, i: nat, p: real, pc: real, sigma: Table, acc: Acc, uTot: real, w: Walk)
    requires deal < 6 && i < |n.children|
    requires w == UWalk(mode, deal, n.children[i], p, pc, sigma, acc)
    ensures RootKids(mode, deal, n, i, p, pc, sigma, acc, uTot) == RootKids(mode, deal, n, i + 1, p, pc, sigma, w.acc, uTot + w.u)
  {
  }

  /** `compute_u` at the root: the average over the dealings under CFR+, the drawn dealing under chance sampling. */
  lemma RootWalk(mode: Mode, deal: nat, n: Node, p: real, pc: real, sigma: Table, acc: Acc)
    requires deal < 6 && n.IsRoot()
    ensures mode == Plus ==> var w := RootKids(mode, deal, n, 0, p, pc, sigma, acc, 0.0);
      UWalk(mode, deal, n, p, pc, sigma, acc) == Walk((1.0 / 6.0) * w.u, w.acc)
    ensures mode == ChanceSampling ==>
      UWalk(mode, deal, n, p, pc, sigma, acc) == UWalk(mode, deal, n.children[deal], 1.0, 1.0, sigma, acc)
  {
  }

  lemma ExpectedStep(mode: Mode, deal: nat, n: Node, i: nat, sigma: Table)
    requires deal < 6 && i < |n.children| && Decides(n, sigma)
    ensures Expected(mode, deal, n, i, sigma)
      == Times(sigma[n.InfoSet()][n.Keys()[i]], Utility(mode, deal, n.children[i], sigma)) + Expected(mode, deal, n, i + 1, sigma)
  {
  }

  // ---------------------------------------------------------------------------
  // What the walk does to the tables

  /**
    The walk's invariant on the tables: every row keeps its keys; under CFR+ non-negative
    regrets stay non-negative; and, when `grow` holds, no entry of `sigma_cum` decreases.
  */
  predicate Keeps(mode: Mode, grow: bool, a: Acc, a2: Acc)
  {
    && SameShape(a.rCum, a2.rCum) && SameShape(a.sigmaCum, a2.sigmaCum)
    && (mode == Plus && NonNegTable(a.rCum) ==> NonNegTable(a2.rCum))
    && (grow ==> Grows(a.sigmaCum, a2.sigmaCum))
  }

  lemma KeepsTrans(mode: Mode, grow: bool, a: Acc, b: Acc, c: Acc)
    requires Keeps(mode, grow, a, b) && Keeps(mode, grow, b, c)
    ensures Keeps(mode, grow, a, c)
  {
  }

  lemma MulNonNeg(x: real, y: real)
    requires x >= 0.0 && y >= 0.0
    ensures x * y >= 0.0
  {
  }

  lemma RegretRowNonNeg(prev: Row, ks: set<Key>, uActs: Row, uTot: real, other: real, sign: real)
    requires ks <= uActs.Keys && NonNegRow(prev)
    ensures NonNegRow(RegretRow(Plus, prev, ks, uActs, uTot, other, sign))
  {
  }

  lemma CumRowGrows(prev: Row, ks: set<Key>, sr: Row, own: real)
    requires ks <= sr.Keys && NonNegRow(sr) && own >= 0.0
    ensures forall k :: k in prev ==> CumRow(prev, ks, sr, own)[k] >= prev[k]
  {
    forall k | k in prev && k in ks
      ensures Times(own, sr[k]) >= 0.0
    {
      MulNonNeg(own, sr[k]);
    }
  }

  /** The closing loop rewrites one row of each table with the same keys, thresholded under CFR+, grown by non-negative mass. */
  lemma NodeUpdateKeeps(mode: Mode, n: Node, p: real, pc: real, sr: Row, uActs: Row, uTot: real, acc: Acc, grow: bool)
    requires grow ==> NonNegRow(sr) && p >= 0.0 && pc >= 0.0
    ensures Keeps(mode, grow, acc, NodeUpdate(mode, n, p, pc, sr, uActs, uTot, acc))
  {
    var s := n.InfoSet();
    var ks := KeySet(n.Keys());
    var own := if n.Player() == 1 then p else pc;
    var other := if n.Player() == 1 then pc else p;
    if s in acc.rCum && s in acc.sigmaCum && ks <= uActs.Keys && ks <= sr.Keys {
      var rr := RegretRow(mode, acc.rCum[s], ks, uActs, uTot, other, Sign(n.Player()));
      var cr := CumRow(acc.sigmaCum[s], ks, sr, own);
      assert NodeUpdate(mode, n, p, pc, sr, uActs, uTot, acc) == Acc(acc.rCum[s := rr], acc.sigmaCum[s := cr]);
      WriteSameShape(acc.rCum, s, rr);
      WriteSameShape(acc.sigmaCum, s, cr);
      if mode == Plus && NonNegTable(acc.rCum) {
        RegretRowNonNeg(acc.rCum[s], ks, uActs, uTot, other, Sign(n.Player()));
        WriteNonNeg(acc.rCum, s, rr);
      }
      if grow {
        CumRowGrows(acc.sigmaCum[s], ks, sr, own);
        WriteGrows(acc.sigmaCum, s, cr);
      }
    }
  }

  /** Non-negative strategy rows keep the children's reaches non-negative. */
  lemma ReachNonNeg(n: Node, sigma: Table, i: nat, p: real, pc: real)
    requires Decides(n, sigma) && i < |n.children| && NonNegTable(sigma) && p >= 0.0 && pc >= 0.0
    ensures var q := sigma[n.InfoSet()][n.Keys()[i]];
      Reach(n.Player(), 1, p, q) >= 0.0 && Reach(n.Player(), 2, pc, q) >= 0.0
  {
    var s, k := n.InfoSet(), n.Keys()[i];
    assert k in KeySet(n.Keys());
    var q := sigma[s][k];
    assert q >= 0.0;
    MulNonNeg(p, q);
    MulNonNeg(pc, q);
  }

  /**
    The walk keeps the tables' shape and, under CFR+, non-negative regrets; with non-negative
    strategies and reaches (`grow`), `sigma_cum` only grows.
  */
  lemma {:induction false} WalkKeeps(mode: Mode, deal: nat, n: Node, p: real, pc: real, sigma: Table, acc: Acc, grow: bool)
    requires deal < 6
    requires grow ==> NonNegTable(sigma) && p >= 0.0 && pc >= 0.0
    ensures Keeps(mode, grow, acc, UWalk(mode, deal, n, p, pc, sigma, acc).acc)
    decreases n, 1, 0
  {
    if n.IsRoot() {
      if mode == Plus {
        RootKidsKeeps(mode, deal, n, 0, p, pc, sigma, acc, 0.0, grow);
      } else {
        WalkKeeps(mode, deal, n.children[deal], 1.0, 1.0, sigma, acc, grow);
      }
    } else if !n.IsTerminal() && Decides(n, sigma) {
      var sr := sigma[n.InfoSet()];
      var k := KidsWalk(mode, deal, n, 0, p, pc, sigma, acc, map[], 0.0);
      KidsWalkKeeps(mode, deal, n, 0, p, pc, sigma, acc, map[], 0.0, grow);
      NodeUpdateKeeps(mode, n, p, pc, sr, k.uActs, k.uTot, k.acc, grow);
      KeepsTrans(mode, grow, acc, k.acc, NodeUpdate(mode, n, p, pc, sr, k.uActs, k.uTot, k.acc));
    }
  }

  lemma {:induction false} RootKidsKeeps(mode: Mode, deal: nat, n: Node, i: nat, p: real, pc: real, sigma: Table, acc: Acc, uTot: real, grow: bool)
    requires deal < 6 && i <= |n.children|
    requires grow ==> NonNegTable(sigma) && p >= 0.0 && pc >= 0.0
    ensures Keeps(mode, grow, acc, RootKids(mode, deal, n, i, p, pc, sigma, acc, uTot).acc)
    decreases n, 0, |n.children| - i
  {
    if i < |n.children| {
      var w := UWalk(mode, deal, n.children[i], p, pc, sigma, acc);
      WalkKeeps(mode, deal, n.children[i], p, pc, sigma, acc, grow);
      RootKidsKeeps(mode, deal, n, i + 1, p, pc, sigma, w.acc, uTot + w.u, grow);
      KeepsTrans(mode, grow, acc, w.acc, RootKids(mode, deal, n, i, p, pc, sigma, acc, uTot).acc);
    }
  }

  lemma {:induction false} KidsWalkKeeps(mode: Mode, deal: nat, n: Node, i: nat, p: real, pc: real, sigma: Table, acc: Acc, uActs: Row, uTot: real, grow: bool)
    requires deal < 6 && i <= |n.children| && Decides(n, sigma)
    requires grow ==> NonNegTable(sigma) && p >= 0.0 && pc >= 0.0
    ensures Keeps(mode, grow, acc, KidsWalk(mode, deal, n, i, p, pc, sigma, acc, uActs, uTot).acc)
    decreases n, 0, |n.children| - i
  {
    if i < |n.children| {
      var a := n.Keys()[i];
      assert a in KeySet(n.Keys());
      var q := sigma[n.InfoSet()][a];
      var p', pc' := Reach(n.Player(), 1, p, q), Reach(n.Player(), 2, pc, q);
      var w := UWalk(mode, deal, n.children[i], p', pc', sigma, acc);
      KidsWalkStep(mode, deal, n, i, p, pc, sigma, acc, uActs, uTot, w);
      if grow {
        ReachNonNeg(n, sigma, i, p, pc);
      }
      KidsKeepsStep(mode, deal, n, i, p, pc, sigma, acc, uActs, uTot, grow, w);
    }
  }

  /** One action of `KidsWalkKeeps`: the child's walk, then the rest of the loop. */
  lemma {:induction false} KidsKeepsStep(mode: Mode, deal: nat, n: Node, i: nat, p: real, pc: real, sigma: Table, acc: Acc, uActs: Row, uTot: real, grow: bool, w: Walk)
    requires deal < 6 && i < |n.children| && Decides(n, sigma)
    requires var q := sigma[n.InfoSet()][n.Keys()[i]];
      && w == UWalk(mode, deal, n.children[i], Reach(n.Player(), 1, p, q), Reach(n.Player(), 2, pc, q), sigma, acc)
      && (grow ==> NonNegTable(sigma) && p >= 0.0 && pc >= 0.0 && Reach(n.Player(), 1, p, q) >= 0.0 && Reach(n.Player(), 2, pc, q) >= 0.0)
    ensures Keeps(mode, grow, acc, KidsWalk(mode, deal, n, i + 1, p, pc, sigma, w.acc, uActs[n.Keys()[i] := w.u],
                  uTot + Times(sigma[n.InfoSet()][n.Keys()[i]], w.u)).acc)
    decreases n, 0, |n.children| - i, 0
  {
    var a := n.Keys()[i];
    var q := sigma[n.InfoSet()][a];
    WalkKeeps(mode, deal, n.children[i], Reach(n.Player(), 1, p, q), Reach(n.Player(), 2, pc, q), sigma, acc, grow);
    var k := KidsWalk(mode, deal, n, i + 1, p, pc, sigma, w.acc, uActs[a := w.u], uTot + Times(q, w.u));
    KidsWalkKeeps(mode, deal, n, i + 1, p, pc, sigma, w.acc, uActs[a := w.u], uTot + Times(q, w.u), grow);
    KeepsTrans(mode, grow, acc, w.acc, k.acc);
  }

  // ---------------------------------------------------------------------------
  // The regrets the walk adds

  /** `u_actions` after the loop from action `i` on: each action's child utility recorded under its key. */
  function Values(mode: Mode, deal: nat, n: Node, i: nat, sigma: Table, uActs: Row): Row
    requires deal < 6 && i <= |n.children| && |n.children| == |n.Keys()|
    decreases |n.children| - i
  {
    if i == |n.children| then uActs
    else Values(mode, deal, n, i + 1, sigma, uActs[n.Keys()[i] := Utility(mode, deal, n.children[i], sigma)])
  }

  /** The loop's `u_actions` are the children's expected payoffs. */
  lemma {:induction false} KidsWalkValues(mode: Mode, deal: nat, n: Node, i: nat, p: real, pc: real, sigma: Table, acc: Acc, uActs: Row, uTot: real)
    requires deal < 6 && i <= |n.children| && Decides(n, sigma)
    ensures KidsWalk(mode, deal, n, i, p, pc, sigma, acc, uActs, uTot).uActs == Values(mode, deal, n, i, sigma, uActs)
    decreases n, 0, |n.children| - i
  {
    if i < |n.children| {
      var a := n.Keys()[i];
      assert a in KeySet(n.Keys());
      var q := sigma[n.InfoSet()][a];
      var w := UWalk(mode, deal, n.children[i], Reach(n.Player(), 1, p, q), Reach(n.Player(), 2, pc, q), sigma, acc);
      KidsWalkStep(mode, deal, n, i, p, pc, sigma, acc, uActs, uTot, w);
      KidsValuesStep(mode, deal, n, i, p, pc, sigma, acc, uActs, uTot, w);
    }
  }

  /** One action of `KidsWalkValues`: the child's walk records the child's utility. */
  lemma {:induction false} KidsValuesStep(mode: Mode, deal: nat, n: Node, i: nat, p: real, pc: real, sigma: Table, acc: Acc, uActs: Row, uTot: real, w: Walk)
    requires deal < 6 && i < |n.children| && Decides(n, sigma)
    requires var q := sigma[n.InfoSet()][n.Keys()[i]];
      w == UWalk(mode, deal, n.children[i], Reach(n.Player(), 1, p, q), Reach(n.Player(), 2, pc, q), sigma, acc)
    ensures KidsWalk(mode, deal, n, i + 1, p, pc, sigma, w.acc, uActs[n.Keys()[i] := w.u],
                     uTot + Times(sigma[n.InfoSet()][n.Keys()[i]], w.u)).uActs
      == Values(mode, deal, n, i, sigma, uActs)
    decreases n, 0, |n.children| - i, 0
  {
    var a := n.Keys()[i];
    var q := sigma[n.InfoSet()][a];
    WalkUtility(mode, deal, n.children[i], Reach(n.Player(), 1, p, q), Reach(n.Player(), 2, pc, q), sigma, acc);
    assert uActs[a := w.u] == uActs[a := Utility(mode, deal, n.children[i], sigma)];
    KidsWalkValues(mode, deal, n, i + 1, p, pc, sigma, w.acc, uActs[a := w.u], uTot + Times(q, w.u));
  }

  /** With distinct keys, every action from `i` on ends up holding its own child's utility. */
  lemma {:induction false} ValuesAt(mode: Mode, deal: nat, n: Node, i: nat, sigma: Table, uActs: Row, j: nat)
    requires deal < 6 && i <= j < |n.children| && |n.children| == |n.Keys()| && Distinct(n.Keys())
    ensures var r := Values(mode, deal, n, i, sigma, uActs);
      n.Keys()[j] in r && r[n.Keys()[j]] == Utility(mode, deal, n.children[j], sigma)
    decreases |n.children| - i
  {
    var u := uActs[n.Keys()[i] := Utility(mode, deal, n.children[i], sigma)];
    if i < j {
      ValuesAt(mode, deal, n, i + 1, sigma, u, j);
    } else {
      ValuesKeep(mode, deal, n, i + 1, sigma, u, n.Keys()[j]);
    }
  }

  /** A key the loop no longer visits keeps its value. */
  lemma {:induction false} ValuesKeep(mode: Mode, deal: nat, n: Node, i: nat, sigma: Table, uActs: Row, key: Key)
    requires deal < 6 && i <= |n.children| && |n.children| == |n.Keys()|
    requires key in uActs && forall j :: i <= j < |n.children| ==> n.Keys()[j] != key
    ensures var r := Values(mode, deal, n, i, sigma, uActs); key in r && r[key] == uActs[key]
    decreases |n.children| - i
  {
    if i < |n.children| {
      ValuesKeep(mode, deal, n, i + 1, sigma, uActs[n.Keys()[i] := Utility(mode, deal, n.children[i], sigma)], key);
    }
  }

  /** The weights `sigma(a)` of the actions from `i` on, in key order. */
  function Weights(n: Node, i: nat, sigma: Table): (w: seq<real>)
    requires i <= |n.children| && Decides(n, sigma)
    ensures |w| == |n.children| - i
    decreases |n.children| - i
  {
    if i == |n.children| then []
    else
      assert n.Keys()[i] in KeySet(n.Keys());
      [sigma[n.InfoSet()][n.Keys()[i]]] + Weights(n, i + 1, sigma)
  }

  /** The values `u_a` of the actions from `i` on, in key order. */
  function ActionValues(mode: Mode, deal: nat, n: Node, i: nat, sigma: Table): (v: seq<real>)
    requires deal < 6 && i <= |n.children|
    ensures |v| == |n.children| - i
    decreases |n.children| - i
  {
    if i == |n.children| then []
    else [Utility(mode, deal, n.children[i], sigma)] + ActionValues(mode, deal, n, i + 1, sigma)
  }

  /** The sum of `w[k] * v[k]`. */
  function Dot(w: seq<real>, v: seq<real>): real
    requires |w| == |v|
  {
    if w == [] then 0.0 else Times(w[0], v[0]) + Dot(w[1..], v[1..])
  }

  /** The sum of `w[k]`. */
  function Total(w: seq<real>): real
  {
    if w == [] then 0.0 else w[0] + Total(w[1..])
  }

  /** The sum of `w[k] * (v[k] - u)`: the regret mass a strategy `w` puts on values `v` against `u`. */
  function Mass(w: seq<real>, v: seq<real>, u: real): real
    requires |w| == |v|
  {
    if w == [] then 0.0 else Times(w[0], v[0] - u) + Mass(w[1..], v[1..], u)
  }

  /** The regret mass splits into the expected value minus `u` times the total weight. */
  lemma {:induction false} MassSplit(w: seq<real>, v: seq<real>, u: real)
    requires |w| == |v|
    ensures Mass(w, v, u) == Dot(w, v) - Times(u, Total(w))
  {
    if w != [] {
      MassSplit(w[1..], v[1..], u);
      MassArith(w[0], v[0], u, Total(w[1..]), Dot(w[1..], v[1..]), Mass(w[1..], v[1..], u));
    }
  }

  /** The arithmetic of one step of `MassSplit`. */
  lemma MassArith(x: real, y: real, u: real, rest: real, erest: real, mrest: real)
    requires mrest == erest - Times(u, rest)
    ensures Times(x, y - u) + mrest == Times(x, y) + erest - Times(u, x + rest)
  {
  }

  /** `Expected` is the weighted sum of the action values. */
  lemma {:induction false} ExpectedDot(mode: Mode, deal: nat, n: Node, i: nat, sigma: Table)
    requires deal < 6 && i <= |n.children| && Decides(n, sigma)
    ensures Expected(mode, deal, n, i, sigma) == Dot(Weights(n, i, sigma), ActionValues(mode, deal, n, i, sigma))
    decreases |n.children| - i
  {
    if i < |n.children| {
      ExpectedDot(mode, deal, n, i + 1, sigma);
      var w, v := Weights(n, i, sigma), ActionValues(mode, deal, n, i, sigma);
      assert w[1..] == Weights(n, i + 1, sigma);
      assert v[1..] == ActionValues(mode, deal, n, i + 1, sigma);
    }
  }

  /** The weights total the strategy's sum over the keys from `i` on. */
  lemma {:induction false} WeightsTotal(n: Node, i: nat, sigma: Table)
    requires i <= |n.children| && Decides(n, sigma)
    ensures KeySet(n.Keys()[i..]) <= sigma[n.InfoSet()].Keys
    ensures Total(Weights(n, i, sigma)) == Sum(sigma[n.InfoSet()], n.Keys()[i..])
    decreases |n.children| - i
  {
    var ks, sr := n.Keys(), sigma[n.InfoSet()];
    SuffixKeys(ks, i, sr);
    if i < |n.children| {
      WeightsTotal(n, i + 1, sigma);
      assert ks[i..][0] == ks[i] && ks[i..][1..] == ks[i + 1..];
      assert Weights(n, i, sigma)[1..] == Weights(n, i + 1, sigma);
    } else {
      assert ks[i..] == [];
    }
  }

  lemma SuffixKeys(ks: seq<Key>, i: nat, sr: Row)
    requires i <= |ks| && KeySet(ks) <= sr.Keys
    ensures KeySet(ks[i..]) <= sr.Keys
  {
    forall k | k in ks[i..]
      ensures k in sr
    {
      assert k in KeySet(ks);
    }
  }

  /**
    The regrets a decision node adds are balanced: weighted by a strategy that sums to 1,
    the actions' values minus the node's value sum to 0.
  */
  lemma RegretBalance(mode: Mode, deal: nat, n: Node, sigma: Table)
    requires deal < 6 && Decides(n, sigma) && !n.IsRoot() && !n.IsTerminal()
    requires Sum(sigma[n.InfoSet()], n.Keys()) == 1.0
    ensures Mass(Weights(n, 0, sigma), ActionValues(mode, deal, n, 0, sigma), Utility(mode, deal, n, sigma)) == 0.0
  {
    var w, v, u := Weights(n, 0, sigma), ActionValues(mode, deal, n, 0, sigma), Utility(mode, deal, n, sigma);
    MassSplit(w, v, u);
    ExpectedDot(mode, deal, n, 0, sigma);
    WeightsTotal(n, 0, sigma);
    assert n.Keys()[0..] == n.Keys();
  }

  /** Once every action has been walked, `u_actions` has a value for each key. */
  lemma ValuesHaveKeys(mode: Mode, deal: nat, n: Node, sigma: Table)
    requires deal < 6 && |n.children| == |n.Keys()| && Distinct(n.Keys())
    ensures KeySet(n.Keys()) <= Values(mode, deal, n, 0, sigma, map[]).Keys
  {
    forall key | key in KeySet(n.Keys())
      ensures key in Values(mode, deal, n, 0, sigma, map[])
    {
      var m :| 0 <= m < |n.Keys()| && n.Keys()[m] == key;
      ValuesAt(mode, deal, n, 0, sigma, map[], m);
    }
  }

  /** The closing loop writes each action's regret into the node's `r_cum` row. */
  lemma NodeUpdateFires(mode: Mode, n: Node, p: real, pc: real, sr: Row, uActs: Row, uTot: real, acc: Acc, j: nat)
    requires KeySet(n.Keys()) <= sr.Keys && KeySet(n.Keys()) <= uActs.Keys && j < |n.Keys()|
    requires n.InfoSet() in acc.rCum && n.InfoSet() in acc.sigmaCum && n.Keys()[j] in acc.rCum[n.InfoSet()]
    ensures var s, a := n.InfoSet(), n.Keys()[j];
      var other := if n.Player() == 1 then pc else p;
      var r := NodeUpdate(mode, n, p, pc, sr, uActs, uTot, acc).rCum;
      s in r && a in r[s] && r[s][a] == Threshold(mode, acc.rCum[s][a] + Regret(other, uActs[a], uTot, Sign(n.Player())))
  {
    var s, a := n.InfoSet(), n.Keys()[j];
    var other := if n.Player() == 1 then pc else p;
    var ks := KeySet(n.Keys());
    assert a in ks;
    var row := RegretRow(mode, acc.rCum[s], ks, uActs, uTot, other, Sign(n.Player()));
    assert row[a] == Threshold(mode, acc.rCum[s][a] + Regret(other, uActs[a], uTot, Sign(n.Player())));
  }

  /**
    At a decision node whose rows exist, the walk adds to `r_cum[s][a]` the counterfactual
    regret of action `a`: the opponent's reach times the gap between the child's and the
    node's expected payoff, signed for the acting player, thresholded under CFR+. The row is
    read as the children's walks left it (`k`, the result of the loop over the actions).
  */
  lemma NodeRegret(mode: Mode, deal: nat, n: Node, p: real, pc: real, sigma: Table, acc: Acc, j: nat, k: Kids, w: Walk)
    requires deal < 6 && Decides(n, sigma) && !n.IsRoot() && !n.IsTerminal() && Distinct(n.Keys())
    requires j < |n.children|
    requires k == KidsWalk(mode, deal, n, 0, p, pc, sigma, acc, map[], 0.0) && w == UWalk(mode, deal, n, p, pc, sigma, acc)
    requires n.InfoSet() in k.acc.rCum && n.InfoSet() in k.acc.sigmaCum && n.Keys()[j] in k.acc.rCum[n.InfoSet()]
    ensures n.InfoSet() in w.acc.rCum && n.Keys()[j] in w.acc.rCum[n.InfoSet()]
    ensures w.acc.rCum[n.InfoSet()][n.Keys()[j]]
      == Threshold(mode, k.acc.rCum[n.InfoSet()][n.Keys()[j]] + Regret(if n.Player() == 1 then pc else p, Utility(mode, deal, n.children[j], sigma), Utility(mode, deal, n, sigma), Sign(n.Player())))
  {
    DecisionValues(mode, deal, n, p, pc, sigma, acc, j);
    assert KeySet(n.Keys()) <= sigma[n.InfoSet()].Keys;
    assert KeySet(n.Keys()) <= k.uActs.Keys;
    assert k.uActs[n.Keys()[j]] == Utility(mode, deal, n.children[j], sigma);
    assert k.uTot == Utility(mode, deal, n, sigma);
    assert w.acc == NodeUpdate(mode, n, p, pc, sigma[n.InfoSet()], k.uActs, k.uTot, k.acc);
    RegretOf(mode, n, p, pc, sigma[n.InfoSet()], k, w.acc, Utility(mode, deal, n.children[j], sigma), Utility(mode, deal, n, sigma), j);
  }

  /** `NodeRegret` with the walk's values given by name. */
  lemma RegretOf(mode: Mode, n: Node, p: real, pc: real, sr: Row, k: Kids, after: Acc, uChild: real, uNode: real, j: nat)
    requires KeySet(n.Keys()) <= sr.Keys && KeySet(n.Keys()) <= k.uActs.Keys && j < |n.Keys()|
    requires n.InfoSet() in k.acc.rCum && n.InfoSet() in k.acc.sigmaCum && n.Keys()[j] in k.acc.rCum[n.InfoSet()]
    requires k.uActs[n.Keys()[j]] == uChild && k.uTot == uNode
    requires after == NodeUpdate(mode, n, p, pc, sr, k.uActs, k.uTot, k.acc)
    ensures n.InfoSet() in after.rCum && n.Keys()[j] in after.rCum[n.InfoSet()]
    ensures after.rCum[n.InfoSet()][n.Keys()[j]]
      == Threshold(mode, k.acc.rCum[n.InfoSet()][n.Keys()[j]] + Regret(if n.Player() == 1 then pc else p, uChild, uNode, Sign(n.Player())))
  {
    NodeUpdateFires(mode, n, p, pc, sr, k.uActs, k.uTot, k.acc, j);
  }

  /** What the closing loop of a decision node reads: the children's and the node's expected payoffs. */
  lemma DecisionValues(mode: Mode, deal: nat, n: Node, p: real, pc: real, sigma: Table, acc: Acc, j: nat)
    requires deal < 6 && Decides(n, sigma) && !n.IsRoot() && !n.IsTerminal() && Distinct(n.Keys())
    requires j < |n.children|
    ensures var k := KidsWalk(mode, deal, n, 0, p, pc, sigma, acc, map[], 0.0);
      && k.uTot == Utility(mode, deal, n, sigma)
      && KeySet(n.Keys()) <= k.uActs.Keys
      && n.Keys()[j] in k.uActs && k.uActs[n.Keys()[j]] == Utility(mode, deal, n.children[j], sigma)
      && UWalk(mode, deal, n, p, pc, sigma, acc).acc == NodeUpdate(mode, n, p, pc, sigma[n.InfoSet()], k.uActs, k.uTot, k.acc)
  {
    KidsWalkValues(mode, deal, n, 0, p, pc, sigma, acc, map[], 0.0);
    ValuesAt(mode, deal, n, 0, sigma, map[], j);
    ValuesHaveKeys(mode, deal, n, sigma);
    KidsWalkUtility(mode, deal, n, 0, p, pc, sigma, acc, map[], 0.0);
    DecisionWalk(mode, deal, n, p, pc, sigma, acc);
  }

  /** `compute_u` at a decision node: walk the actions, then run the closing loop. */
  lemma DecisionWalk(mode: Mode, deal: nat, n: Node, p: real, pc: real, sigma: Table, acc: Acc)
    requires deal < 6 && Decides(n, sigma) && !n.IsRoot() && !n.IsTerminal()
    ensures var k := KidsWalk(mode, deal, n, 0, p, pc, sigma, acc, map[], 0.0);
      UWalk(mode, deal, n, p, pc, sigma, acc) == Walk(k.uTot, NodeUpdate(mode, n, p, pc, sigma[n.InfoSet()], k.uActs, k.uTot, k.acc))
    ensures Utility(mode, deal, n, sigma) == Expected(mode, deal, n, 0, sigma)
  {
  }
}
