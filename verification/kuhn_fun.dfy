/**
  The helpers of `kuhn_fun.py` (and their copy `src/kuhn/kuhn_utils.py`) around the
  solvers: `evaluate` plays hands between a fixed bot strategy and the user's,
  `get_all_info_sets` lists the user's information sets, `train_bot` and `simulate` build a
  solver or a bot from its name, and `simulate` keeps the bot's part of the equilibrium.
  Random draws are parameters: `dealt[e]` is the dealing `deal_cards` draws in round `e`,
  `draws[e](t)` the uniform draw of the `t`-th action sampled in that round, and `deals[e]` the
  dealing chance-sampling training draws in round `e`.
*/
module KuhnFun {
  import opened Common
  import opened KuhnGame
  import opened KuhnTree
  import opened CfrStore
  import opened CfrSpec
  import opened CfrPass
  import opened KuhnSample
  import opened KuhnPlay
  import opened CfrSolver

  // ---------------------------------------------------------------------------
  // get_all_info_sets

  /** The body of `get_sets_rec`: append the node's information set if the user acts there and it is new. */
  function SetsStep(user: int): (Node, seq<string>) -> seq<string>
  {
    (n: Node, sets: seq<string>) => if n.Player() == user && n.InfoSet() !in sets then sets + [n.InfoSet()] else sets
  }

  /** What `get_all_info_sets(user)` returns: the walk from the root with an empty list. */
  function AllInfoSets(user: int): seq<string>
  {
    PreWalk(SetsStep(user), ROOT, [])
  }

  /** The information sets of the nodes of `ns` where `user` acts. */
  ghost function UserSets(ns: seq<Node>, user: int): set<string>
  {
    set n | n in ns && n.Player() == user :: n.InfoSet()
  }

  lemma UserSetsCons(ns: seq<Node>, user: int)
    requires ns != []
    ensures UserSets(ns, user) == (if ns[0].Player() == user then {ns[0].InfoSet()} else {}) + UserSets(ns[1..], user)
  {
    assert ns == [ns[0]] + ns[1..];
  }

  /** Folding the step over `ns` keeps the list free of repeats and adds exactly the user's new sets, after the old ones. */
  lemma {:induction false} SetsFold(user: int, ns: seq<Node>, acc: seq<string>)
    requires Distinct(acc)
    ensures var r := FoldNodes(SetsStep(user), ns, acc);
      && Distinct(r) && |acc| <= |r| && r[..|acc|] == acc
      && forall s :: s in r <==> s in acc || s in UserSets(ns, user)
  {
    if ns != [] {
      var acc' := SetsStep(user)(ns[0], acc);
      UserSetsCons(ns, user);
      SetsFold(user, ns[1..], acc');
      var r := FoldNodes(SetsStep(user), ns[1..], acc');
      assert r[..|acc'|] == acc';
      assert acc'[..|acc|] == acc;
      assert r[..|acc|] == acc'[..|acc|];
    }
  }

  /** `get_all_info_sets(user)` lists each information set where `user` acts, once each, and nothing else. */
  lemma AllInfoSetsContents(user: int)
    ensures Distinct(AllInfoSets(user))
    ensures forall s :: s in AllInfoSets(user) <==> s in UserSets(TREE, user)
  {
    PreWalkIsFold(SetsStep(user), ROOT, []);
    SetsFold(user, TREE, []);
  }

  /** Player 1 acts first and after PASS-BET, holding J, Q or K. */
  const PLAYER1_SETS: set<string> :=
    {"1:J-.", "1:Q-.", "1:K-.", "1:J-PASS-BET-.", "1:Q-PASS-BET-.", "1:K-PASS-BET-."}

  /** Player 2 acts after BET and after PASS, holding J, Q or K. */
  const PLAYER2_SETS: set<string> :=
    {"2:J-BET-.", "2:Q-BET-.", "2:K-BET-.", "2:J-PASS-.", "2:Q-PASS-.", "2:K-PASS-."}

  /** The information set of a betting node where player p, holding c, acts after the history h. */
  function BettingSet(p: int, c: Card, h: seq<Action>): string
  {
    IntToString(p) + ":" + [CardChar(c)] + "-" + JoinActions(h) + (if |h| != 0 then "-." else ".")
  }

  /** The betting nodes below a dealing and their information sets, by position in pre-order. */
  lemma DealNodeSets(d: Deal)
    ensures var ns := DealNodes(d);
      && ns[0].Player() == 1 && ns[0].InfoSet() == BettingSet(1, d.first, [])
      && ns[5].Player() == 1 && ns[5].InfoSet() == BettingSet(1, d.first, [PASS, BET])
      && ns[1].Player() == 2 && ns[1].InfoSet() == BettingSet(2, d.second, [BET])
      && ns[4].Player() == 2 && ns[4].InfoSet() == BettingSet(2, d.second, [PASS])
      && forall k :: 0 <= k < 9 && k !in {0, 1, 4, 5} ==> ns[k].Player() == TERMINAL
  {
  }

  lemma SpelledJ()
    ensures BettingSet(1, J, []) == "1:J-." && BettingSet(1, J, [PASS, BET]) == "1:J-PASS-BET-."
    ensures BettingSet(2, J, [BET]) == "2:J-BET-." && BettingSet(2, J, [PASS]) == "2:J-PASS-."
  {
    Spelling();
  }

  lemma SpelledQ()
    ensures BettingSet(1, Q, []) == "1:Q-." && BettingSet(1, Q, [PASS, BET]) == "1:Q-PASS-BET-."
    ensures BettingSet(2, Q, [BET]) == "2:Q-BET-." && BettingSet(2, Q, [PASS]) == "2:Q-PASS-."
  {
    Spelling();
  }

  lemma SpelledK()
    ensures BettingSet(1, K, []) == "1:K-." && BettingSet(1, K, [PASS, BET]) == "1:K-PASS-BET-."
    ensures BettingSet(2, K, [BET]) == "2:K-BET-." && BettingSet(2, K, [PASS]) == "2:K-PASS-."
  {
    Spelling();
  }

  lemma Spelling()
    ensures IntToString(1) == "1" && IntToString(2) == "2"
    ensures JoinActions([]) == "" && JoinActions([BET]) == "BET" && JoinActions([PASS]) == "PASS"
    ensures JoinActions([PASS, BET]) == "PASS-BET"
  {
    assert [PASS, BET][1..] == [BET];
  }

  /** The subtree below the i-th dealing lies in the tree. */
  lemma DealNodesInTree(i: nat)
    requires i < 6
    ensures forall n :: n in DealNodes(DEALINGS[i]) ==> n in TREE
  {
    var d := DEALINGS[i];
    ChildInTree(ROOT, i);
    DealSubtreeShape(d);
    var t := DealTree(d);
    assert ROOT.children[i] == t;
    ChildInTree(t, 0);
    ChildInTree(t, 1);
    var b, p := t.children[0], t.children[1];
    ChildInTree(b, 0);
    ChildInTree(b, 1);
    ChildInTree(p, 0);
    ChildInTree(p, 1);
    ChildInTree(p.children[0], 0);
    ChildInTree(p.children[0], 1);
  }

  /** The sets a card's holder can be in are among the six listed for each player. */
  lemma SpelledIn(c: Card)
    ensures BettingSet(1, c, []) in PLAYER1_SETS && BettingSet(1, c, [PASS, BET]) in PLAYER1_SETS
    ensures BettingSet(2, c, [BET]) in PLAYER2_SETS && BettingSet(2, c, [PASS]) in PLAYER2_SETS
  {
    match c
    case J => SpelledJ();
    case Q => SpelledQ();
    case K => SpelledK();
  }

  /** Below a dealing, player 1 acts holding the first card before any bet or after PASS-BET, and player 2 holding the second card after BET or PASS. */
  lemma InDealSets(d: Deal, n: Node)
    requires n in DealNodes(d)
    ensures n.Player() == 1 ==> n.InfoSet() == BettingSet(1, d.first, []) || n.InfoSet() == BettingSet(1, d.first, [PASS, BET])
    ensures n.Player() == 2 ==> n.InfoSet() == BettingSet(2, d.second, [BET]) || n.InfoSet() == BettingSet(2, d.second, [PASS])
  {
    DealNodeSets(d);
    var k :| 0 <= k < 9 && DealNodes(d)[k] == n;
    assert k in {0, 1, 4, 5} || n.Player() == TERMINAL;
  }

  /** Every information set where player 1 or 2 acts is one of the six listed for that player. */
  lemma UserSetsWithin(n: Node)
    requires n in TREE
    ensures n.Player() == 1 ==> n.InfoSet() in PLAYER1_SETS
    ensures n.Player() == 2 ==> n.InfoSet() in PLAYER2_SETS
  {
    TreeMember(n);
    if n != ROOT {
      var i :| 0 <= i < 6 && n in Preorder(MakeGame(1, DEALINGS[i], [], KUHN_ACTIONS));
      var d := DEALINGS[i];
      DealSubtreeShape(d);
      DealTreePreorder(d);
      InDealSets(d, n);
      SpelledIn(d.first);
      SpelledIn(d.second);
    }
  }

  /** The k-th node below the i-th dealing is in the tree, so its information set is one of its player's. */
  lemma Reached(i: nat, k: nat)
    requires i < 6 && k < 9
    ensures DealNodes(DEALINGS[i])[k].InfoSet() in UserSets(TREE, DealNodes(DEALINGS[i])[k].Player())
  {
    DealNodesInTree(i);
    assert DealNodes(DEALINGS[i])[k] in TREE;
  }

  /** Below the i-th dealing, the four betting sets of its two cards are reached. */
  lemma DealReached(i: nat)
    requires i < 6
    ensures var d := DEALINGS[i];
      && BettingSet(1, d.first, []) in UserSets(TREE, 1)
      && BettingSet(1, d.first, [PASS, BET]) in UserSets(TREE, 1)
      && BettingSet(2, d.second, [BET]) in UserSets(TREE, 2)
      && BettingSet(2, d.second, [PASS]) in UserSets(TREE, 2)
  {
    DealNodeSets(DEALINGS[i]);
    Reached(i, 0);
    Reached(i, 5);
    Reached(i, 1);
    Reached(i, 4);
  }

  /** Each of the six listed sets of player 1 is reached in the tree. */
  lemma Player1Reached()
    ensures PLAYER1_SETS <= UserSets(TREE, 1)
  {
    Player1ReachedJ();
    Player1ReachedQ();
    Player1ReachedK();
  }

  lemma Player1ReachedJ()
    ensures "1:J-." in UserSets(TREE, 1) && "1:J-PASS-BET-." in UserSets(TREE, 1)
  {
    SpelledJ();
    DealReached(0);
  }

  lemma Player1ReachedQ()
    ensures "1:Q-." in UserSets(TREE, 1) && "1:Q-PASS-BET-." in UserSets(TREE, 1)
  {
    SpelledQ();
    DealReached(2);
  }

  lemma Player1ReachedK()
    ensures "1:K-." in UserSets(TREE, 1) && "1:K-PASS-BET-." in UserSets(TREE, 1)
  {
    SpelledK();
    DealReached(4);
  }

  /** Each of the six listed sets of player 2 is reached in the tree. */
  lemma Player2Reached()
    ensures PLAYER2_SETS <= UserSets(TREE, 2)
  {
    Player2ReachedJ();
    Player2ReachedQ();
    Player2ReachedK();
  }

  lemma Player2ReachedJ()
    ensures "2:J-BET-." in UserSets(TREE, 2) && "2:J-PASS-." in UserSets(TREE, 2)
  {
    SpelledJ();
    DealReached(2);
  }

  lemma Player2ReachedQ()
    ensures "2:Q-BET-." in UserSets(TREE, 2) && "2:Q-PASS-." in UserSets(TREE, 2)
  {
    SpelledQ();
    DealReached(0);
  }

  lemma Player2ReachedK()
    ensures "2:K-BET-." in UserSets(TREE, 2) && "2:K-PASS-." in UserSets(TREE, 2)
  {
    SpelledK();
    DealReached(1);
  }

  /** The information sets where player 1 acts: "1:X-." and "1:X-PASS-BET-." for each card X. */
  lemma UserSetsOfPlayer1()
    ensures UserSets(TREE, 1) == PLAYER1_SETS
  {
    forall s | s in UserSets(TREE, 1)
      ensures s in PLAYER1_SETS
    {
      var n :| n in TREE && n.Player() == 1 && n.InfoSet() == s;
      UserSetsWithin(n);
    }
    Player1Reached();
  }

  /** The information sets where player 2 acts: "2:X-BET-." and "2:X-PASS-." for each card X. */
  lemma UserSetsOfPlayer2()
    ensures UserSets(TREE, 2) == PLAYER2_SETS
  {
    forall s | s in UserSets(TREE, 2)
      ensures s in PLAYER2_SETS
    {
      var n :| n in TREE && n.Player() == 2 && n.InfoSet() == s;
      UserSetsWithin(n);
    }
    Player2Reached();
  }

  /** `get_all_info_sets(user)` lists each information set of `user` once, so it has as many entries as there are sets. */
  lemma AllInfoSetsCount(user: int)
    ensures |AllInfoSets(user)| == |UserSets(TREE, user)|
  {
    AllInfoSetsContents(user);
    DistinctCount(AllInfoSets(user));
    assert (set s | s in AllInfoSets(user)) == UserSets(TREE, user);
  }

  /** `get_all_info_sets(1)` lists, once each, the six sets "1:X-." and "1:X-PASS-BET-." for X in J, Q, K. */
  lemma AllInfoSetsOfPlayer1()
    ensures Distinct(AllInfoSets(1)) && |AllInfoSets(1)| == 6
    ensures forall s :: s in AllInfoSets(1) <==> s in PLAYER1_SETS
  {
    UserSetsOfPlayer1();
    AllInfoSetsContents(1);
    AllInfoSetsCount(1);
    PlayerSetsSize();
  }

  /** `get_all_info_sets(2)` lists, once each, the six sets "2:X-BET-." and "2:X-PASS-." for X in J, Q, K. */
  lemma AllInfoSetsOfPlayer2()
    ensures Distinct(AllInfoSets(2)) && |AllInfoSets(2)| == 6
    ensures forall s :: s in AllInfoSets(2) <==> s in PLAYER2_SETS
  {
    UserSetsOfPlayer2();
    AllInfoSetsContents(2);
    AllInfoSetsCount(2);
    PlayerSetsSize();
  }

  lemma PlayerSetsSize()
    ensures |PLAYER1_SETS| == 6 && |PLAYER2_SETS| == 6
  {
  }

  /** A list without repeats is as long as the set of its elements is large. */
  lemma {:induction false} DistinctCount<T>(l: seq<T>)
    requires Distinct(l)
    ensures |set x | x in l| == |l|
  {
    if l != [] {
      DistinctCount(l[1..]);
      assert (set x | x in l) == {l[0]} + (set x | x in l[1..]);
      assert l[0] !in l[1..];
    }
  }

  /** `get_all_info_sets(user)`. */
  method GetAllInfoSets(user: int) returns (sets: seq<string>)
    ensures sets == AllInfoSets(user)
  {
    sets := GetSetsRec(user, ROOT, []);
  }

  /** `get_sets_rec(node)`: visit the node, then each child in order. */
  method GetSetsRec(user: int, n: Node, sets0: seq<string>) returns (sets: seq<string>)
    ensures sets == PreWalk(SetsStep(user), n, sets0)
    decreases n
  {
    ghost var step := SetsStep(user);
    sets := sets0;
    if n.Player() == user && n.InfoSet() !in sets {
      sets := sets + [n.InfoSet()];
    }
    assert sets == step(n, sets0);
    PreWalkStart(step, n, sets0);
    var i := 0;
    while i < |n.children|
      invariant i <= |n.children|
      invariant PreKids(step, n, i, sets) == PreWalk(step, n, sets0)
    {
      PreKidsNext(step, n, i, sets);
      sets := GetSetsRec(user, n.children[i], sets);
      i := i + 1;
    }
    PreKidsNext(step, n, i, sets);
  }

  // ---------------------------------------------------------------------------
  // evaluate

  /** One hand of `evaluate`: the payoff when the dealing `deal` is played out with the draws `draw`. */
  function Hand(user: int, userSigma: Table, botSigma: Table, deal: nat, draw: nat -> real): (r: Option<int>)
    requires deal < 6
    ensures r.Some? ==> r.value in {-2, -1, 1, 2}
  {
    PlayOut(user, userSigma, botSigma, Dealt(deal), draw, 0)
  }

  /** The hands of all rounds, in order. */
  function Hands(user: int, userSigma: Table, botSigma: Table, dealt: seq<nat>, draws: seq<nat -> real>): (hs: seq<Option<int>>)
    requires Deals(dealt) && |draws| == |dealt|
    ensures |hs| == |dealt|
    ensures forall e :: 0 <= e < |dealt| ==> hs[e] == Hand(user, userSigma, botSigma, dealt[e], draws[e])
  {
    seq(|dealt|, e requires 0 <= e < |dealt| => Hand(user, userSigma, botSigma, dealt[e], draws[e]))
  }

  /** The list of results when every round produced one (`None` as soon as one raised). */
  function Collect(hs: seq<Option<int>>): (r: Option<seq<int>>)
    ensures r.Some? <==> forall e :: 0 <= e < |hs| ==> hs[e].Some?
    ensures r.Some? ==> |r.value| == |hs| && forall e :: 0 <= e < |hs| ==> hs[e] == Some(r.value[e])
  {
    if hs == [] then Some([])
    else match (hs[0], Collect(hs[1..]))
      case (Some(v), Some(rest)) => Some([v] + rest)
      case _ => None
  }

  /** When every betting node is playable, `evaluate` returns the payoff of every hand, in order. */
  lemma HandsPay(user: int, userSigma: Table, botSigma: Table, dealt: seq<nat>, draws: seq<nat -> real>)
    requires Deals(dealt) && |draws| == |dealt| && AllPlayable(user, userSigma, botSigma)
    ensures Collect(Hands(user, userSigma, botSigma, dealt, draws)).Some?
  {
    var hs := Hands(user, userSigma, botSigma, dealt, draws);
    forall e | 0 <= e < |hs|
      ensures hs[e].Some?
    {
      PlayOutPays(user, userSigma, botSigma, Dealt(dealt[e]), draws[e], 0);
    }
  }

  /** The results `rs` so far are the first hands of `hs`. */
  predicate Agree(rs: seq<int>, hs: seq<Option<int>>)
  {
    |rs| <= |hs| && forall i :: 0 <= i < |rs| ==> hs[i] == Some(rs[i])
  }

  lemma AgreeExtend(rs: seq<int>, hs: seq<Option<int>>, v: int)
    requires Agree(rs, hs) && |rs| < |hs| && hs[|rs|] == Some(v)
    ensures Agree(rs + [v], hs)
  {
  }

  lemma AgreeAll(rs: seq<int>, hs: seq<Option<int>>)
    requires Agree(rs, hs) && |rs| == |hs|
    ensures Collect(hs) == Some(rs)
  {
    assert Collect(hs).Some?;
    assert Collect(hs).value == rs;
  }

  lemma AgreeNone(hs: seq<Option<int>>, e: nat)
    requires e < |hs| && hs[e].None?
    ensures Collect(hs).None?
  {
  }

  /**
    `evaluate(bot_sigma, user, user_sigma, n_rounds)`: in each round deal the cards and play
    the hand out, sampling from `user_sigma` at the user's nodes and from `bot_sigma` elsewhere.
  */
  method Evaluate(botSigma: Table, user: int, userSigma: Table, nRounds: nat, dealt: seq<nat>, draws: seq<nat -> real>)
    returns (rewards: Option<seq<int>>)
    requires |dealt| == nRounds && |draws| == nRounds && Deals(dealt)
    ensures rewards == Collect(Hands(user, userSigma, botSigma, dealt, draws))
  {
    ghost var hands := Hands(user, userSigma, botSigma, dealt, draws);
    var rs: seq<int> := [];
    var e := 0;
    while e < nRounds
      invariant e <= nRounds && |rs| == e
      invariant Agree(rs, hands)
    {
      var r := PlayHand(user, userSigma, botSigma, dealt[e], draws[e]);
      assert r == hands[e];
      if r.None? {
        AgreeNone(hands, e);
        return None;
      }
      AgreeExtend(rs, hands, r.value);
      rs := rs + [r.value];
      e := e + 1;
    }
    AgreeAll(rs, hands);
    rewards := Some(rs);
  }

  // ---------------------------------------------------------------------------
  // train_bot

  /** The variant a bot name selects: "CFR +" picks CFR+, every other name chance sampling. */
  function ModeOf(botType: string): (m: Mode)
    ensures m == Plus <==> botType == "CFR +"
  {
    if botType == "CFR +" then Plus else ChanceSampling
  }

  /**
    `train_bot(bot_type, bot_exp)`: a plain solver of the named variant, trained for `bot_exp`
    rounds from its initial tables (`deals[e]` is the dealing round `e` samples).
  */
  method TrainBot(botType: string, botExp: nat, deals: seq<nat>) returns (bot: Solver)
    requires |deals| == botExp && Deals(deals)
    ensures fresh(bot) && bot.mode == ModeOf(botType) && bot.user == NO_USER && bot.userSigma == map[]
    ensures bot.State() == Rounds(ModeOf(botType), NO_USER, deals, Initial(map[]))
    ensures bot.Valid()
  {
    bot := new Solver.Plain(ModeOf(botType));
    bot.Train(botExp, deals);
  }

  // ---------------------------------------------------------------------------
  // simulate

  /** `int(info_set[0])` succeeds: the information set starts with a decimal digit. */
  predicate DigitLed(s: string)
  {
    |s| > 0 && '0' <= s[0] <= '9'
  }

  /** The value of the leading digit. */
  function Digit(s: string): (d: int)
    requires DigitLed(s)
    ensures 0 <= d <= 9
  {
    s[0] as int - '0' as int
  }

  /**
    The filter at the end of `simulate`: the entries of `ne` whose leading digit is not the
    user's, or `None` when some information set has no leading digit (`int` raises).
  */
  function BotNe(ne: Table, user: int): (r: Option<Table>)
  {
    if forall s :: s in ne ==> DigitLed(s) then Some(map s | s in ne && DigitLed(s) && Digit(s) != user :: ne[s])
    else None
  }

  /** The loop of `simulate` that copies the bot's entries of `ne`, one information set at a time. */
  method FilterBotNe(ne: Table, user: int) returns (r: Option<Table>)
    ensures r == BotNe(ne, user)
    ensures r.Some? <==> forall s :: s in ne ==> DigitLed(s)
    ensures r.Some? ==> forall s :: s in r.value <==> s in ne && Digit(s) != user
    ensures r.Some? ==> forall s :: s in r.value ==> r.value[s] == ne[s]
  {
    var todo := ne.Keys;
    var botNe: Table := map[];
    while todo != {}
      invariant todo <= ne.Keys
      invariant forall s :: s in ne.Keys - todo ==> DigitLed(s)
      invariant botNe == map s | s in ne.Keys - todo && DigitLed(s) && Digit(s) != user :: ne[s]
      decreases |todo|
    {
      var s :| s in todo;
      if !DigitLed(s) {
        return None;
      }
      if Digit(s) != user {
        botNe := botNe[s := ne[s]];
      }
      todo := todo - {s};
    }
    assert ne.Keys - todo == ne.Keys;
    r := Some(botNe);
  }

  /** A decision information set starts with the digit of the player acting there. */
  lemma DecisionSetHead(s: string)
    requires s in DecisionSets(TREE)
    ensures DigitLed(s) && Digit(s) == PlayerOf(s) && (PlayerOf(s) == 1 || PlayerOf(s) == 2)
  {
    var n :| n in TREE && IsDecision(n) && n.InfoSet() == s;
    DecisionNode(n);
    InfoSetLead(n);
    if n.player == 1 {
      assert IntToString(1) == "1";
    } else {
      assert IntToString(2) == "2";
    }
  }

  /**
    The bot's part of `compute_ne` after any training: the filter never raises, and it keeps
    exactly the decision information sets where the bot acts, each with its normalised
    `sigma_cum` row.
  */
  lemma BotNeOfSolver(user: int, userSigma: Table, sigma: Table, sigmaCum: Table)
    requires Covers(sigma) && Covers(sigmaCum)
    ensures var r := BotNe(ComputeNe(user, userSigma, sigma, sigmaCum), user);
      && r.Some?
      && (forall s :: s in r.value <==> s in DecisionSets(TREE) && PlayerOf(s) != user)
      && forall s :: s in r.value ==> r.value[s] == NeRow(user, userSigma, sigmaCum, s)
  {
    var ne := ComputeNe(user, userSigma, sigma, sigmaCum);
    ComputeNeContents(user, userSigma, sigma, sigmaCum);
    forall s | s in ne
      ensures DigitLed(s) && Digit(s) == PlayerOf(s)
    {
      DecisionSetHead(s);
    }
  }

  /**
    `simulate(bot_type, user, user_sigma, n_rounds)`: a bot of the named variant plays and trains
    for `n_rounds` rounds against `user_sigma`, and returns the rewards of the hands and the bot's
    part of its equilibrium (`dealt`, `draws` and `deals` are the random draws of the rounds).
  */
  method Simulate(botType: string, user: int, userSigma: Table, nRounds: nat, dealt: seq<nat>, draws: seq<nat -> real>, deals: seq<nat>)
    returns (rewards: seq<int>, botNe: Table, ghost history: seq<Tables>)
    requires |dealt| == nRounds && |draws| == nRounds && |deals| == nRounds && Deals(dealt) && Deals(deals)
    ensures |rewards| == nRounds && forall e :: 0 <= e < nRounds ==> rewards[e] in {-2, -1, 1, 2}
    ensures PlayedAll(ModeOf(botType), user, history, deals, dealt, draws, rewards) && history[0] == Initial(userSigma)
    ensures var final := Rounds(ModeOf(botType), user, deals, Initial(userSigma));
      && history[nRounds] == final
      && BotNe(ComputeNe(user, userSigma, final.sigma, final.sigmaCum), user) == Some(botNe)
    ensures forall s :: s in botNe <==> s in DecisionSets(TREE) && PlayerOf(s) != user
  {
    var bot := new Solver.Bot(ModeOf(botType), user, userSigma);
    var tracked;
    ghost var played;
    tracked, played, history := bot.PlayRounds(nRounds, true, dealt, draws, deals);
    rewards := tracked.value;
    forall e | 0 <= e < nRounds
      ensures rewards[e] in {-2, -1, 1, 2}
    {
      PlayedReward(ModeOf(botType), user, history[e], history[e + 1], deals[e], dealt[e], draws[e], rewards[e]);
    }
    var ne := bot.ComputeNe();
    BotNeOfSolver(user, userSigma, bot.sigma, bot.sigmaCum);
    var r := FilterBotNe(ne, user);
    botNe := r.value;
  }
}
