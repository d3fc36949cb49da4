/**
  The CFR solvers of `cfr_algos.py` as one class. The four Python classes differ in two
  choices: how `compute_u` treats the root and the regrets (`Mode`: CFR+ or chance sampling)
  and whether one player's strategy is frozen (the bots, with `user` and `user_sigma`).
  The plain solvers are the solvers whose `user` is `NO_USER`, a player no betting node has,
  with an empty `user_sigma`: every check `node.player == self.user` and
  `info_set in self.user_sigma` then fails, exactly as the plain solvers' code, which has
  no such checks, behaves.

  The three tables are fields rewritten by the passes; each pass is a recursive method whose
  loops walk the children in the order of `node.actions` and which is proved equal to the pure
  pass of `CfrSpec` or `CfrPass` that states what it computes.
*/
module CfrSolver {
  import opened Common
  import opened KuhnGame
  import opened KuhnTree
  import opened CfrStore
  import opened CfrSpec
  import opened CfrPass
  import opened KuhnSample
  import opened KuhnPlay

  /** The `user` of the plain solvers: the chance player, who acts at no betting node. */
  const NO_USER: int := CHANCE

  /** The three tables a solver holds. */
  datatype Tables = Tables(sigma: Table, sigmaCum: Table, rCum: Table)

  /** The tables the constructor builds: `init_map("prob")` and twice `init_map("zero")`. */
  function Initial(userSigma: Table): Tables
  {
    Tables(InitMap(userSigma, "prob"), InitMap(userSigma, "zero"), InitMap(userSigma, "zero"))
  }

  /** The invariant of a solver's tables: rows for every information set, with its keys; CFR+ regrets non-negative. */
  ghost predicate Sound(mode: Mode, t: Tables)
  {
    Covers(t.sigma) && Covers(t.sigmaCum) && Covers(t.rCum) && (mode == Plus ==> NonNegTable(t.rCum))
  }

  /**
    One training round: `compute_u(root)` (on the dealing `deal` under chance sampling), then
    `update_sigma()` on the regrets it left.
  */
  function Round(mode: Mode, user: int, deal: nat, t: Tables): Tables
    requires deal < 6
  {
    var w := UWalk(mode, deal, ROOT, 1.0, 1.0, t.sigma, Acc(t.rCum, t.sigmaCum));
    var st := UpdatePass(user, w.acc.rCum, Strategy(t.sigma, w.acc.sigmaCum));
    Tables(st.sigma, st.sigmaCum, w.acc.rCum)
  }

  predicate Deals(deals: seq<nat>)
  {
    forall i :: 0 <= i < |deals| ==> deals[i] < 6
  }

  /** The rounds run with the dealings `deals`, oldest first. */
  function Rounds(mode: Mode, user: int, deals: seq<nat>, t: Tables): Tables
    requires Deals(deals)
  {
    if deals == [] then t
    else Round(mode, user, deals[|deals| - 1], Rounds(mode, user, deals[..|deals| - 1], t))
  }

  lemma CoversShape(t: Table, t2: Table)
    requires Covers(t) && SameShape(t, t2)
    ensures Covers(t2)
  {
  }

  /** A round keeps the solver's invariant: the walk keeps every row's keys and CFR+ regrets non-negative, the update keeps coverage. */
  lemma RoundSound(mode: Mode, user: int, deal: nat, t: Tables)
    requires deal < 6 && Sound(mode, t)
    ensures Sound(mode, Round(mode, user, deal, t))
  {
    var acc := Acc(t.rCum, t.sigmaCum);
    var w := UWalk(mode, deal, ROOT, 1.0, 1.0, t.sigma, acc);
    WalkKeeps(mode, deal, ROOT, 1.0, 1.0, t.sigma, acc, false);
    CoversShape(t.rCum, w.acc.rCum);
    CoversShape(t.sigmaCum, w.acc.sigmaCum);
    UpdatePassContents(user, w.acc.rCum, Strategy(t.sigma, w.acc.sigmaCum));
  }

  lemma {:induction false} RoundsSound(mode: Mode, user: int, deals: seq<nat>, t: Tables)
    requires Deals(deals) && Sound(mode, t)
    ensures Sound(mode, Rounds(mode, user, deals, t))
  {
    if deals != [] {
      RoundsSound(mode, user, deals[..|deals| - 1], t);
      RoundSound(mode, user, deals[|deals| - 1], Rounds(mode, user, deals[..|deals| - 1], t));
    }
  }

  lemma ZeroRowNonNeg(userSigma: Table, s: string)
    ensures NonNegRow(InitRowOf(userSigma, s, "zero"))
  {
  }

  /** `init_map("zero")` holds no negative entry. */
  lemma ZeroMapNonNeg(userSigma: Table)
    ensures NonNegTable(InitMap(userSigma, "zero"))
  {
    InitMapContents(userSigma, "zero");
    var z := InitMap(userSigma, "zero");
    forall s | s in z
      ensures NonNegRow(z[s])
    {
      ZeroRowNonNeg(userSigma, s);
    }
  }

  /** A fresh solver is sound: `init_map` covers every information set, and zero regrets are non-negative. */
  lemma InitialSound(mode: Mode, userSigma: Table)
    ensures Sound(mode, Initial(userSigma))
  {
    InitMapContents(userSigma, "prob");
    InitMapContents(userSigma, "zero");
    ZeroMapNonNeg(userSigma);
  }

  /**
    One round of `play`: the hand dealt at `dealt` and sampled with `draws` from the strategy of
    `t` pays `reward`, and training on the dealing `deal` turns `t` into `t2`.
  */
  predicate Played(mode: Mode, user: int, t: Tables, t2: Tables, deal: nat, dealt: nat, draws: nat -> real, reward: int)
  {
    deal < 6 && dealt < 6 && t2 == Round(mode, user, deal, t) && Some(reward) == PlayOut(user, t.sigma, t.sigma, Dealt(dealt), draws, 0)
  }

  /** A played round pays what a hand of Kuhn Poker can pay. */
  lemma PlayedReward(mode: Mode, user: int, t: Tables, t2: Tables, deal: nat, dealt: nat, draws: nat -> real, reward: int)
    requires Played(mode, user, t, t2, deal, dealt, draws, reward)
    ensures reward in {-2, -1, 1, 2}
  {
  }

  /**
    `rewards` and `history` record the first `|rewards|` rounds of `play`: round `e` starts from
    `history[e]`, pays `rewards[e]` and leaves `history[e + 1]`.
  */
  predicate PlayedAll(mode: Mode, user: int, history: seq<Tables>, deals: seq<nat>, dealt: seq<nat>, draws: seq<nat -> real>, rewards: seq<int>)
  {
    && |history| == |rewards| + 1 && |rewards| <= |deals| && |rewards| <= |dealt| && |rewards| <= |draws|
    && forall e :: 0 <= e < |rewards| ==> Played(mode, user, history[e], history[e + 1], deals[e], dealt[e], draws[e], rewards[e])
  }

  lemma PlayedExtend(mode: Mode, user: int, history: seq<Tables>, deals: seq<nat>, dealt: seq<nat>, draws: seq<nat -> real>,
                     rewards: seq<int>, t2: Tables, reward: int)
    requires PlayedAll(mode, user, history, deals, dealt, draws, rewards)
    requires |rewards| < |deals| && |rewards| < |dealt| && |rewards| < |draws|
    requires Played(mode, user, history[|rewards|], t2, deals[|rewards|], dealt[|rewards|], draws[|rewards|], reward)
    ensures PlayedAll(mode, user, history + [t2], deals, dealt, draws, rewards + [reward])
  {
    var h, rs := history + [t2], rewards + [reward];
    forall e | 0 <= e < |rs|
      ensures Played(mode, user, h[e], h[e + 1], deals[e], dealt[e], draws[e], rs[e])
    {
      if e < |rewards| {
        assert Played(mode, user, history[e], history[e + 1], deals[e], dealt[e], draws[e], rewards[e]);
        assert h[e] == history[e] && h[e + 1] == history[e + 1] && rs[e] == rewards[e];
      } else {
        assert e == |rewards| && h[e] == history[e] && h[e + 1] == t2 && rs[e] == reward;
      }
    }
  }

  /** The tables before round `e` of `play` are those of `e` training rounds on the same dealings. */
  lemma {:induction false} PlayedRounds(mode: Mode, user: int, history: seq<Tables>, deals: seq<nat>, dealt: seq<nat>,
                                        draws: seq<nat -> real>, rewards: seq<int>, e: nat)
    requires PlayedAll(mode, user, history, deals, dealt, draws, rewards) && Deals(deals) && e <= |rewards|
    ensures history[e] == Rounds(mode, user, deals[..e], history[0])
  {
    if e > 0 {
      PlayedRounds(mode, user, history, deals, dealt, draws, rewards, e - 1);
      assert Played(mode, user, history[e - 1], history[e], deals[e - 1], dealt[e - 1], draws[e - 1], rewards[e - 1]);
      assert deals[..e][..e - 1] == deals[..e - 1];
      assert deals[..e][e - 1] == deals[e - 1];
    }
  }

  // ---------------------------------------------------------------------------
  // init_map

  /** `init_map(fill)`: fill a fresh table by the walk from the root. */
  method BuildMap(userSigma: Table, fill: string) returns (m: Table)
    ensures m == InitMap(userSigma, fill)
  {
    m := InitMapRec(userSigma, fill, ROOT, map[]);
  }

  /** `init_map_rec(node, fill)`: write the node's row, then walk its children in order. */
  method InitMapRec(userSigma: Table, fill: string, n: Node, m0: Table) returns (m: Table)
    ensures m == PreWalk(InitStep(userSigma, fill), n, m0)
    decreases n
  {
    ghost var step := InitStep(userSigma, fill);
    m := m0[n.InfoSet() := InitRowAt(userSigma, n, fill)];
    assert PreKids(step, n, 0, m) == PreWalk(step, n, m0) by {
      assert m == step(n, m0);
      PreWalkStart(step, n, m0);
    }
    var i := 0;
    while i < |n.children|
      invariant i <= |n.children|
      invariant PreKids(step, n, i, m) == PreWalk(step, n, m0)
    {
      PreKidsNext(step, n, i, m);
      ghost var before := m;
      m := InitMapRec(userSigma, fill, n.children[i], m);
      assert m == PreWalk(step, n.children[i], before);
      i := i + 1;
    }
    PreKidsNext(step, n, i, m);
  }

  class Solver {
    const mode: Mode
    const user: int
    const userSigma: Table
    var sigma: Table
    var sigmaCum: Table
    var rCum: Table

    function State(): Tables
      reads this
    {
      Tables(sigma, sigmaCum, rCum)
    }

    ghost predicate Valid()
      reads this
    {
      Sound(mode, State())
    }

    /** `CFRPlus(root)` or `CsCFR(root)`: uniform strategies, zero regrets and mass. */
    constructor Plain(mode: Mode)
      ensures this.mode == mode && user == NO_USER && userSigma == map[]
      ensures State() == Initial(map[])
      ensures Valid()
    {
      this.mode := mode;
      user := NO_USER;
      userSigma := map[];
      var s := BuildMap(map[], "prob");
      var z := BuildMap(map[], "zero");
      sigma, sigmaCum, rCum := s, z, z;
      new;
      InitialSound(mode, map[]);
    }

    /** `CFRPlusBot(root, user, user_sigma)` or `CsCFRBot(...)`: the user's rows start as `user_sigma`. */
    constructor Bot(mode: Mode, user: int, userSigma: Table)
      ensures this.mode == mode && this.user == user && this.userSigma == userSigma
      ensures State() == Initial(userSigma)
      ensures Valid()
    {
      this.mode := mode;
      this.user := user;
      this.userSigma := userSigma;
      var s := BuildMap(userSigma, "prob");
      var z := BuildMap(userSigma, "zero");
      sigma, sigmaCum, rCum := s, z, z;
      new;
      InitialSound(mode, userSigma);
    }

    // -------------------------------------------------------------------------
    // update_sigma

    /** `update_sigma()`: regret matching at every node the pass updates; `r_cum` is only read. */
    method UpdateSigma()
      modifies this
      ensures Strategy(sigma, sigmaCum) == UpdatePass(user, rCum, old(Strategy(sigma, sigmaCum)))
      ensures rCum == old(rCum)
    {
      UpdateRec(ROOT);
    }

    method UpdateRec(n: Node)
      modifies this
      ensures Strategy(sigma, sigmaCum) == PreWalk(UpdateStep(user, rCum), n, old(Strategy(sigma, sigmaCum)))
      ensures rCum == old(rCum)
      decreases n
    {
      ghost var step := UpdateStep(user, rCum);
      ghost var st0 := Strategy(sigma, sigmaCum);
      if Updates(n, user) && Ready(n, Strategy(sigma, sigmaCum), rCum) {
        var s := n.InfoSet();
        var row := RegretMatch(rCum[s], sigma[s].Keys, n.Keys());
        sigma := sigma[s := row];
        sigmaCum := sigmaCum[s := AddRow(sigmaCum[s], row)];
      }
      assert Strategy(sigma, sigmaCum) == step(n, st0);
      PreWalkStart(step, n, st0);
      var i := 0;
      while i < |n.children|
        invariant i <= |n.children| && rCum == old(rCum)
        invariant PreKids(step, n, i, Strategy(sigma, sigmaCum)) == PreWalk(step, n, st0)
      {
        PreKidsNext(step, n, i, Strategy(sigma, sigmaCum));
        UpdateRec(n.children[i]);
        i := i + 1;
      }
      PreKidsNext(step, n, i, Strategy(sigma, sigmaCum));
    }

    // -------------------------------------------------------------------------
    // compute_u

    /**
      `compute_u(node, p, p_cfr)` of the CFR+ and chance-sampling classes (and their bots):
      returns the walk's value and leaves `r_cum` and `sigma_cum` as the walk does; `sigma`
      is only read. `deal` is the position of the dealing `deal_cards` draws at the root.
    */
    method ComputeU(n: Node, p: real, pc: real, deal: nat) returns (u: real)
      requires deal < 6
      modifies this
      ensures sigma == old(sigma)
      ensures u == UWalk(mode, deal, n, p, pc, sigma, old(Acc(rCum, sigmaCum))).u
      ensures Acc(rCum, sigmaCum) == UWalk(mode, deal, n, p, pc, sigma, old(Acc(rCum, sigmaCum))).acc
      decreases n, 2
    {
      if n.IsRoot() {
        RootWalk(mode, deal, n, p, pc, sigma, Acc(rCum, sigmaCum));
        if mode == Plus {
          u := RootU(n, p, pc, deal);
        } else {
          u := ComputeU(n.children[deal], 1.0, 1.0, deal);
        }
      } else if n.IsTerminal() {
        u := Payoff(n);
      } else if Decides(n, sigma) {
        DecisionWalk(mode, deal, n, p, pc, sigma, Acc(rCum, sigmaCum));
        u := DecisionU(n, p, pc, deal);
      } else {
        u := 0.0;
      }
    }

    /** The CFR+ root: the average of `compute_u` over the six dealings. */
    method RootU(n: Node, p: real, pc: real, deal: nat) returns (u: real)
      requires deal < 6 && n.IsRoot()
      modifies this
      ensures sigma == old(sigma)
      ensures var w := RootKids(mode, deal, n, 0, p, pc, sigma, old(Acc(rCum, sigmaCum)), 0.0);
        u == (1.0 / 6.0) * w.u && Acc(rCum, sigmaCum) == w.acc
      decreases n, 1
    {
      ghost var acc0 := Acc(rCum, sigmaCum);
      var uTot := 0.0;
      var i := 0;
      while i < |n.children|
        invariant i <= |n.children| && sigma == old(sigma)
        invariant RootKids(mode, deal, n, i, p, pc, sigma, Acc(rCum, sigmaCum), uTot)
          == RootKids(mode, deal, n, 0, p, pc, sigma, acc0, 0.0)
      {
        ghost var acc := Acc(rCum, sigmaCum);
        var ui := ComputeU(n.children[i], p, pc, deal);
        RootKidsStep(mode, deal, n, i, p, pc, sigma, acc, uTot, Walk(ui, Acc(rCum, sigmaCum)));
        uTot := uTot + ui;
        i := i + 1;
      }
      u := (1.0 / 6.0) * uTot;
    }

    /** A decision node: walk the actions, then add the regrets and the reach-weighted strategy. */
    method DecisionU(n: Node, p: real, pc: real, deal: nat) returns (u: real)
      requires deal < 6 && Decides(n, sigma)
      modifies this
      ensures sigma == old(sigma)
      ensures var k := KidsWalk(mode, deal, n, 0, p, pc, sigma, old(Acc(rCum, sigmaCum)), map[], 0.0);
        u == k.uTot && Acc(rCum, sigmaCum) == NodeUpdate(mode, n, p, pc, sigma[n.InfoSet()], k.uActs, k.uTot, k.acc)
      decreases n, 1
    {
      ghost var goal := KidsWalk(mode, deal, n, 0, p, pc, sigma, Acc(rCum, sigmaCum), map[], 0.0);
      var uActs: Row := map[];
      var uTot := 0.0;
      var i := 0;
      while i < |n.children|
        invariant i <= |n.children| && sigma == old(sigma)
        invariant KidsWalk(mode, deal, n, i, p, pc, sigma, Acc(rCum, sigmaCum), uActs, uTot) == goal
      {
        uActs, uTot := ActionU(n, p, pc, deal, i, uActs, uTot);
        i := i + 1;
      }
      KidsWalkDone(mode, deal, n, i, p, pc, sigma, Acc(rCum, sigmaCum), uActs, uTot);
      var acc := NodeUpdate(mode, n, p, pc, sigma[n.InfoSet()], uActs, uTot, Acc(rCum, sigmaCum));
      rCum, sigmaCum := acc.rCum, acc.sigmaCum;
      u := uTot;
    }

    /** One turn of the action loop: `u_a = compute_u(child, ...)`, recorded and added to `u_tot` with weight `sigma[a]`. */
    method ActionU(n: Node, p: real, pc: real, deal: nat, i: nat, uActs: Row, uTot: real) returns (uActs': Row, uTot': real)
      requires deal < 6 && Decides(n, sigma) && i < |n.children|
      modifies this
      ensures sigma == old(sigma)
      ensures KidsWalk(mode, deal, n, i + 1, p, pc, sigma, Acc(rCum, sigmaCum), uActs', uTot')
        == KidsWalk(mode, deal, n, i, p, pc, sigma, old(Acc(rCum, sigmaCum)), uActs, uTot)
      decreases n, 0
    {
      ghost var acc, sg := Acc(rCum, sigmaCum), sigma;
      var a := n.Keys()[i];
      assert a in KeySet(n.Keys());
      var q := sigma[n.InfoSet()][a];
      var ua := ComputeU(n.children[i], Reach(n.Player(), 1, p, q), Reach(n.Player(), 2, pc, q), deal);
      ghost var acc2 := Acc(rCum, sigmaCum);
      assert sigma == sg;
      KidsWalkStepOf(mode, deal, n, i, p, pc, sg, acc, uActs, uTot, ua, acc2);
      uActs' := uActs[a := ua];
      uTot' := uTot + Times(q, ua);
    }

    // -------------------------------------------------------------------------
    // train, play

    /** The body of the training loop: `compute_u(root)`, then `update_sigma()`. */
    method TrainRound(deal: nat)
      requires deal < 6
      modifies this
      ensures State() == Round(mode, user, deal, old(State()))
      ensures old(Valid()) ==> Valid()
    {
      var _ := ComputeU(ROOT, 1.0, 1.0, deal);
      UpdateSigma();
      if old(Valid()) {
        RoundSound(mode, user, deal, old(State()));
      }
    }

    /**
      `train(n_rounds)`: each round runs `compute_u(root)` and then `update_sigma()`;
      `deals[e]` is the dealing drawn at the root in round `e` (used under chance sampling).
    */
    method Train(nRounds: nat, deals: seq<nat>)
      requires |deals| == nRounds && Deals(deals)
      modifies this
      ensures State() == Rounds(mode, user, deals, old(State()))
      ensures old(Valid()) ==> Valid()
    {
      ghost var t0 := State();
      var epoch := 0;
      while epoch < nRounds
        invariant epoch <= nRounds
        invariant State() == Rounds(mode, user, deals[..epoch], t0)
      {
        TrainRound(deals[epoch]);
        assert deals[..epoch + 1][..epoch] == deals[..epoch];
        epoch := epoch + 1;
      }
      assert deals[..epoch] == deals;
      if Sound(mode, t0) {
        RoundsSound(mode, user, deals, t0);
      }
    }

    /**
      `traverse_tree()`: play one hand from the dealing at position `deal`, sampling every
      action from `sigma`; `draws(t)` is the uniform draw of the `t`-th sampled action.
    */
    method TraverseTree(deal: nat, draws: nat -> real) returns (r: Option<int>)
      requires deal < 6
      ensures r == PlayOut(user, sigma, sigma, Dealt(deal), draws, 0)
    {
      r := PlayHand(user, sigma, sigma, deal, draws);
    }

    /**
      The body of the loop of `play`: play a hand against the current strategy, then train
      one round. The hand always ends with a payoff, since a sound solver's strategy covers
      every information set.
    */
    method PlayRound(deal: nat, draws: nat -> real, trainDeal: nat) returns (reward: int)
      requires deal < 6 && trainDeal < 6 && Valid()
      modifies this
      ensures Valid()
      ensures Played(mode, user, old(State()), State(), trainDeal, deal, draws, reward)
    {
      CoversReady(user, sigma);
      PlayOutPays(user, sigma, sigma, Dealt(deal), draws, 0);
      var r := TraverseTree(deal, draws);
      reward := r.value;
      TrainRound(trainDeal);
    }

    /**
      `play(n_rounds, tracking)` of the bots: each round plays a hand against the current
      strategy (`dealt[e]`, `draws[e]`), then trains one round (`deals[e]`). The rewards are
      returned when `tracking` is set; each is the payoff of the hand played with the tables
      the earlier rounds left, and always exists since those tables cover every information set.
    */
    method PlayRounds(nRounds: nat, tracking: bool, dealt: seq<nat>, draws: seq<nat -> real>, deals: seq<nat>)
      returns (rewards: Option<seq<int>>, ghost played: seq<int>, ghost history: seq<Tables>)
      requires Valid()
      requires |dealt| == nRounds && |draws| == nRounds && |deals| == nRounds && Deals(dealt) && Deals(deals)
      modifies this
      ensures Valid()
      ensures State() == Rounds(mode, user, deals, old(State()))
      ensures |played| == nRounds && PlayedAll(mode, user, history, deals, dealt, draws, played)
      ensures history[0] == old(State()) && State() == history[nRounds]
      ensures rewards == if tracking then Some(played) else None
    {
      var rs: seq<int> := [];
      history := [State()];
      var epoch := 0;
      while epoch < nRounds
        invariant epoch <= nRounds && |rs| == epoch && |history| == epoch + 1
        invariant Valid() && history[0] == old(State()) && State() == history[epoch]
        invariant PlayedAll(mode, user, history, deals, dealt, draws, rs)
      {
        var r := PlayRound(dealt[epoch], draws[epoch], deals[epoch]);
        PlayedExtend(mode, user, history, deals, dealt, draws, rs, State(), r);
        rs := rs + [r];
        history := history + [State()];
        epoch := epoch + 1;
      }
      PlayedRounds(mode, user, history, deals, dealt, draws, rs, nRounds);
      assert deals[..nRounds] == deals;
      played := rs;
      rewards := if tracking then Some(rs) else None;
    }

    // -------------------------------------------------------------------------
    // compute_ne

    /** `compute_ne()`: the average strategy, read from the tables. */
    method ComputeNe() returns (ne: Table)
      ensures ne == CfrSpec.ComputeNe(user, userSigma, sigma, sigmaCum)
    {
      ne := NeRec(ROOT, map[]);
    }

    method NeRec(n: Node, ne0: Table) returns (ne: Table)
      ensures ne == PreWalk(NeStep(user, userSigma, sigma, sigmaCum), n, ne0)
      decreases n, 1
    {
      ghost var step := NeStep(user, userSigma, sigma, sigmaCum);
      ne := NeNode(n, ne0);
      if n.IsTerminal() {
        PreWalkLeaf(step, n, ne0);
        return;
      }
      PreWalkStart(step, n, ne0);
      var i := 0;
      while i < |n.children|
        invariant i <= |n.children|
        invariant PreKids(step, n, i, ne) == PreWalk(step, n, ne0)
      {
        PreKidsNext(step, n, i, ne);
        ne := NeRec(n.children[i], ne);
        i := i + 1;
      }
      PreKidsNext(step, n, i, ne);
    }

    /** The entry `compute_ne_rec` writes at one node: none at the root or a terminal. */
    method NeNode(n: Node, ne0: Table) returns (ne: Table)
      ensures ne == NeStep(user, userSigma, sigma, sigmaCum)(n, ne0)
      decreases n, 0
    {
      ne := ne0;
      var s := n.InfoSet();
      if n.IsRoot() {
      } else if n.IsTerminal() {
      } else if n.Player() == user {
        ne := ne[s := if s in userSigma then userSigma[s] else map[]];
      } else if s in sigma && s in sigmaCum && KeySet(n.Keys()) <= sigmaCum[s].Keys && sigma[s].Keys <= sigmaCum[s].Keys {
        ne := ne[s := Normalise(sigmaCum[s], sigma[s].Keys, n.Keys())];
      }
    }
  }
}
