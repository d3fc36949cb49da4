/**
  The Kuhn Poker game tree. `BuildRoot` materialises the whole tree at once, as the
  `RootNode` constructor does: a chance root with one child per dealing, below it the
  betting nodes of players 1 and 2, and terminal leaves that carry the payoff to player 1.
  Children are kept in the order of the node's keys (dealings at the root, actions below).
*/
module KuhnGame {
  import opened Common

  datatype Action = BET | PASS
  datatype Card = J | Q | K

  /** A dealing: the first card goes to player 1, the second to player 2. */
  datatype Deal = Deal(first: Card, second: Card)

  /** A key of a node's `children` dict: a dealing at the root, an action elsewhere. */
  datatype Key = DealKey(deal: Deal) | ActKey(action: Action)

  const KUHN_ACTIONS: seq<Action> := [BET, PASS]
  const CARDS: seq<Card> := [J, Q, K]
  const DEALINGS: seq<Deal> :=
    [Deal(J, Q), Deal(J, K), Deal(Q, J), Deal(Q, K), Deal(K, J), Deal(K, Q)]
  const MAP_REWARDS: map<Deal, int> :=
    map[Deal(J, Q) := -1, Deal(J, K) := -1, Deal(Q, K) := -1,
        Deal(Q, J) := 1, Deal(K, J) := 1, Deal(K, Q) := 1]

  /** Player sentinels: the chance player at the root and the "nobody" player at terminals. */
  const CHANCE: int := 0
  const TERMINAL: int := -1

  /** A node of the materialised tree (the parent back-pointer is not modelled). */
  datatype Node =
    | Root(dealings: seq<Deal>, children: seq<Node>)
    | Game(player: int, cards: Deal, hist: seq<Action>, actions: seq<Action>, children: seq<Node>)
  {
    /** `is_root`: structural, exactly six children. */
    predicate IsRoot() { |children| == 6 }

    /** `is_terminal`: structural, no children. */
    predicate IsTerminal() { |children| == 0 }

    /** The acting player: CHANCE at the root. */
    function Player(): int { if Root? then CHANCE else player }

    /** The keys of `children`, in insertion order. */
    function Keys(): seq<Key>
    {
      if Root? then DealKeys(dealings) else ActKeys(actions)
    }

    /** The visible card(s): the acting player's own card, or the whole dealing at a terminal. */
    function CardViz(): string
      requires Game?
    {
      if IsTerminal() || (player != 1 && player != 2) then DealString(cards)
      else [CardChar(if player == 1 then cards.first else cards.second)]
    }

    /** The information-set key: "." at the root, "{player}:{card_viz}-{hist}" plus "-." or "." below. */
    function InfoSet(): (s: string)
    {
      if Root? then "."
      else IntToString(player) + ":" + CardViz() + "-" + JoinActions(hist)
           + (if |hist| != 0 then "-." else ".")
    }
  }

  function DealKeys(ds: seq<Deal>): (ks: seq<Key>)
    ensures |ks| == |ds|
    ensures forall i :: 0 <= i < |ds| ==> ks[i] == DealKey(ds[i])
  {
    if ds == [] then [] else [DealKey(ds[0])] + DealKeys(ds[1..])
  }

  function ActKeys(acts: seq<Action>): (ks: seq<Key>)
    ensures |ks| == |acts|
    ensures forall i :: 0 <= i < |acts| ==> ks[i] == ActKey(acts[i])
  {
    if acts == [] then [] else [ActKey(acts[0])] + ActKeys(acts[1..])
  }

  function CardChar(c: Card): char
  {
    match c
    case J => 'J'
    case Q => 'Q'
    case K => 'K'
  }

  /** A dealing written as in DEALINGS, e.g. "QJ". */
  function DealString(d: Deal): string
  {
    [CardChar(d.first), CardChar(d.second)]
  }

  function ActionString(a: Action): string
  {
    match a
    case BET => "BET"
    case PASS => "PASS"
  }

  /** `"-".join(hist)`. */
  function JoinActions(hist: seq<Action>): string
  {
    if hist == [] then ""
    else if |hist| == 1 then ActionString(hist[0])
    else ActionString(hist[0]) + "-" + JoinActions(hist[1..])
  }

  /** The rank order J < Q < K. */
  function Rank(c: Card): nat
  {
    match c
    case J => 0
    case Q => 1
    case K => 2
  }

  function Other(player: int): int
  {
    if player == 1 then 2 else 1
  }

  /** `get_next_node_actions`: the actions of the child reached by `a` from a node with history `hist`. */
  function NextActions(hist: seq<Action>, a: Action): seq<Action>
  {
    if |hist| == 0 then KUHN_ACTIONS
    else if |hist| == 1 then (if hist[0] == PASS && a == BET then KUHN_ACTIONS else [])
    else []
  }

  /** The measure that bounds the depth of the subtree below a node. */
  function Height(hist: seq<Action>, actions: seq<Action>): nat
  {
    (if actions == [] then 0 else 1) + (if |hist| < 2 then 2 - |hist| else 0)
  }

  /** `GameNode.__init__`: builds the node and, recursively, its whole subtree. */
  function MakeGame(player: int, cards: Deal, hist: seq<Action>, actions: seq<Action>): (n: Node)
    requires player == 1 || player == 2
    ensures n.Game? && n.cards == cards && n.hist == hist && n.actions == actions
    ensures |n.children| == |actions|
    ensures n.player == (if actions == [] then TERMINAL else player)
    decreases Height(hist, actions)
  {
    var kids := seq(|actions|, i requires 0 <= i < |actions| =>
      MakeGame(Other(player), cards, hist + [actions[i]], NextActions(hist, actions[i])));
    Game(if |kids| == 0 then TERMINAL else player, cards, hist, actions, kids)
  }

  /** `RootNode.__init__`: one player-1 child per dealing, each with an empty history. */
  function BuildRoot(dealings: seq<Deal>): (n: Node)
    requires Distinct(dealings)
    ensures n.Root? && n.dealings == dealings && |n.children| == |dealings|
    ensures n.InfoSet() == "."
    ensures forall i :: 0 <= i < |dealings| ==> n.children[i] == MakeGame(1, dealings[i], [], KUHN_ACTIONS)
  {
    Root(dealings, seq(|dealings|, i requires 0 <= i < |dealings| => MakeGame(1, dealings[i], [], KUHN_ACTIONS)))
  }

  /** The position of `k` among `ks`, when present. */
  function IndexOf(ks: seq<Key>, k: Key): (r: Option<nat>)
    ensures r.Some? ==> r.value < |ks| && ks[r.value] == k
    ensures r.None? <==> k !in ks
  {
    if ks == [] then None
    else if ks[0] == k then Some(0)
    else match IndexOf(ks[1..], k)
      case None => None
      case Some(j) => Some(j + 1)
  }

  /** `play(action)`: the child stored under `k`; `None` stands for the KeyError of a missing key. */
  function Play(n: Node, k: Key): (r: Option<Node>)
    requires |n.children| == |n.Keys()|
    ensures r.Some? <==> k in n.Keys()
    ensures r.Some? ==> exists i :: 0 <= i < |n.children| && n.Keys()[i] == k && r.value == n.children[i]
  {
    match IndexOf(n.Keys(), k)
    case None => None
    case Some(i) => Some(n.children[i])
  }

  /** The precondition of `eval` that the tree guarantees: a terminal has two actions and a known dealing. */
  predicate Evaluable(n: Node)
  {
    n.Game? && (n.IsTerminal() ==> |n.hist| >= 2 && n.cards in MAP_REWARDS)
  }

  /** `eval`: `None` at a non-terminal node, otherwise the payoff to player 1. */
  function Eval(n: Node): (r: Option<int>)
    requires Evaluable(n)
    ensures r.Some? <==> n.IsTerminal()
    ensures r.Some? ==> r.value in {-2, -1, 1, 2}
  {
    if !n.IsTerminal() then None
    else
      var h := n.hist;
      if h[|h| - 2] == BET && h[|h| - 1] == BET then Some(MAP_REWARDS[n.cards] * 2)
      else if h[|h| - 2] == BET then Some(if |h| == 2 then 1 else -1)
      else if h[|h| - 1] == BET then Some(-1)
      else Some(MAP_REWARDS[n.cards])
  }

  /** All nodes of the subtree in depth-first pre-order, the order of the source's recursive walks. */
  function Preorder(n: Node): (s: seq<Node>)
    ensures |s| >= 1 && s[0] == n
  {
    [n] + Flatten(seq(|n.children|, i requires 0 <= i < |n.children| => Preorder(n.children[i])))
  }

  function Flatten<T>(ss: seq<seq<T>>): seq<T>
  {
    if ss == [] then [] else ss[0] + Flatten(ss[1..])
  }

  // ---------------------------------------------------------------------------
  // The shape of the tree

  function Leaf(d: Deal, h: seq<Action>): Node
  {
    Game(TERMINAL, d, h, [], [])
  }

  function Inner(p: int, d: Deal, h: seq<Action>, kids: seq<Node>): Node
  {
    Game(p, d, h, KUHN_ACTIONS, kids)
  }

  /** The betting subtree below one dealing, written out. */
  function DealTree(d: Deal): Node
  {
    Inner(1, d, [], [
      Inner(2, d, [BET], [Leaf(d, [BET, BET]), Leaf(d, [BET, PASS])]),
      Inner(2, d, [PASS], [
        Inner(1, d, [PASS, BET], [Leaf(d, [PASS, BET, BET]), Leaf(d, [PASS, BET, PASS])]),
        Leaf(d, [PASS, PASS])])])
  }

  /** The histories that end a hand. */
  const TERMINAL_HISTORIES: set<seq<Action>> :=
    {[BET, BET], [BET, PASS], [PASS, PASS], [PASS, BET, BET], [PASS, BET, PASS]}

  lemma MakeLeaf(p: int, d: Deal, h: seq<Action>)
    requires p == 1 || p == 2
    ensures MakeGame(p, d, h, []) == Leaf(d, h)
  {
  }

  lemma MakePair(p: int, d: Deal, h: seq<Action>)
    requires p == 1 || p == 2
    ensures MakeGame(p, d, h, KUHN_ACTIONS) == Inner(p, d, h, [
      MakeGame(Other(p), d, h + [BET], NextActions(h, BET)),
      MakeGame(Other(p), d, h + [PASS], NextActions(h, PASS))])
  {
    var n := MakeGame(p, d, h, KUHN_ACTIONS);
    assert n.children[0] == MakeGame(Other(p), d, h + [BET], NextActions(h, BET));
    assert n.children[1] == MakeGame(Other(p), d, h + [PASS], NextActions(h, PASS));
  }

  /** The constructor builds exactly the betting subtree written out in `DealTree`. */
  lemma {:induction false} DealSubtreeShape(d: Deal)
    ensures MakeGame(1, d, [], KUHN_ACTIONS) == DealTree(d)
  {
    assert [] + [BET] == [BET] && [] + [PASS] == [PASS];
    assert [BET] + [BET] == [BET, BET] && [BET] + [PASS] == [BET, PASS];
    assert [PASS] + [BET] == [PASS, BET] && [PASS] + [PASS] == [PASS, PASS];
    assert [PASS, BET] + [BET] == [PASS, BET, BET] && [PASS, BET] + [PASS] == [PASS, BET, PASS];
    MakePair(1, d, [PASS, BET]);
    MakeLeaf(2, d, [PASS, BET, BET]);
    MakeLeaf(2, d, [PASS, BET, PASS]);
    MakeLeaf(1, d, [PASS, PASS]);
    MakePair(2, d, [PASS]);
    MakeLeaf(1, d, [BET, BET]);
    MakeLeaf(1, d, [BET, PASS]);
    MakePair(2, d, [BET]);
    MakePair(1, d, []);
  }

  lemma PreorderLeaf(n: Node)
    requires n.children == []
    ensures Preorder(n) == [n]
  {
  }

  lemma PreorderPair(n: Node)
    requires |n.children| == 2
    ensures Preorder(n) == [n] + Preorder(n.children[0]) + Preorder(n.children[1])
  {
    var ss := seq(|n.children|, i requires 0 <= i < |n.children| => Preorder(n.children[i]));
    assert Preorder(n) == [n] + Flatten(ss);
    assert ss == [Preorder(n.children[0]), Preorder(n.children[1])];
    assert ss[1..][1..] == [];
    assert Flatten(ss[1..]) == ss[1] + Flatten(ss[1..][1..]) == ss[1];
    assert Flatten(ss) == ss[0] + Flatten(ss[1..]);
  }

  /** The nine nodes below one dealing, in pre-order. */
  function DealNodes(d: Deal): seq<Node>
  {
    var t := DealTree(d);
    var b, p := t.children[0], t.children[1];
    var pb := p.children[0];
    [t, b, b.children[0], b.children[1], p, pb, pb.children[0], pb.children[1], p.children[1]]
  }

  lemma {:induction false} DealTreePreorder(d: Deal)
    ensures Preorder(DealTree(d)) == DealNodes(d)
  {
    var t := DealTree(d);
    var b, p := t.children[0], t.children[1];
    var pb := p.children[0];
    PreorderLeaf(b.children[0]);
    PreorderLeaf(b.children[1]);
    PreorderPair(b);
    PreorderLeaf(pb.children[0]);
    PreorderLeaf(pb.children[1]);
    PreorderPair(pb);
    PreorderLeaf(p.children[1]);
    PreorderPair(p);
    PreorderPair(t);
  }

  /**
    Below a dealing the players alternate 1, 2, 1, ..., the actions follow the betting rule,
    and a node is terminal (player -1, no actions) exactly at the five hand-ending histories.
  */
  lemma DealNodeFacts(d: Deal, n: Node)
    requires n in Preorder(MakeGame(1, d, [], KUHN_ACTIONS))
    ensures n.Game? && n.cards == d && |n.children| == |n.actions|
    ensures n.IsTerminal() <==> n.hist in TERMINAL_HISTORIES
    ensures n.IsTerminal() ==> n.player == TERMINAL && n.actions == []
    ensures !n.IsTerminal() ==> n.actions == KUHN_ACTIONS && n.player == 1 + |n.hist| % 2
    ensures |n.hist| <= 3
  {
    DealSubtreeShape(d);
    DealTreePreorder(d);
    DealNodesOk(d);
    assert DealNodeOk(d, n);
  }

  /** The facts `DealNodeFacts` states about one node below the dealing `d`. */
  predicate DealNodeOk(d: Deal, n: Node)
  {
    && n.Game? && n.cards == d && |n.children| == |n.actions|
    && (n.IsTerminal() <==> n.hist in TERMINAL_HISTORIES)
    && (n.IsTerminal() ==> n.player == TERMINAL && n.actions == [])
    && (!n.IsTerminal() ==> n.actions == KUHN_ACTIONS && n.player == 1 + |n.hist| % 2)
    && |n.hist| <= 3
  }

  lemma LeafOk(d: Deal, h: seq<Action>)
    requires h in TERMINAL_HISTORIES
    ensures DealNodeOk(d, Leaf(d, h))
  {
  }

  lemma InnerOk(p: int, d: Deal, h: seq<Action>, kids: seq<Node>)
    requires |kids| == 2 && h !in TERMINAL_HISTORIES && p == 1 + |h| % 2 && |h| <= 3
    ensures DealNodeOk(d, Inner(p, d, h, kids))
  {
  }

  lemma DealNodesOk(d: Deal)
    ensures forall n :: n in DealNodes(d) ==> DealNodeOk(d, n)
  {
    var t := DealTree(d);
    var b, p := t.children[0], t.children[1];
    var pb := p.children[0];
    assert [BET] + [BET] == [BET, BET];
    InnerOk(1, d, [], t.children);
    InnerOk(2, d, [BET], b.children);
    LeafOk(d, [BET, BET]);
    LeafOk(d, [BET, PASS]);
    InnerOk(2, d, [PASS], p.children);
    assert [PASS, BET] != [BET, BET] && [PASS, BET] != [BET, PASS] && [PASS, BET] != [PASS, PASS];
    InnerOk(1, d, [PASS, BET], pb.children);
    LeafOk(d, [PASS, BET, BET]);
    LeafOk(d, [PASS, BET, PASS]);
    LeafOk(d, [PASS, PASS]);
  }

  /** The root built from DEALINGS: six player-1 children, one per dealing, with empty history. */
  lemma RootShape()
    ensures BuildRoot(DEALINGS).IsRoot()
    ensures BuildRoot(DEALINGS).InfoSet() == "."
    ensures forall i :: 0 <= i < 6 ==>
      BuildRoot(DEALINGS).children[i] == DealTree(DEALINGS[i]) &&
      BuildRoot(DEALINGS).children[i].player == 1 &&
      BuildRoot(DEALINGS).children[i].hist == [] &&
      BuildRoot(DEALINGS).children[i].actions == [BET, PASS]
  {
    forall i | 0 <= i < 6 ensures BuildRoot(DEALINGS).children[i] == DealTree(DEALINGS[i]) {
      DealSubtreeShape(DEALINGS[i]);
    }
  }

  /** From parent to child the player switches between 1 and 2; a childless child has player -1. */
  lemma PlayersAlternate(player: int, cards: Deal, hist: seq<Action>, actions: seq<Action>, i: nat)
    requires player == 1 || player == 2
    requires i < |actions|
    ensures var c := MakeGame(player, cards, hist, actions).children[i];
      c.player == (if c.IsTerminal() then TERMINAL else Other(player)) &&
      c.hist == hist + [actions[i]] && c.actions == NextActions(hist, actions[i])
  {
  }

  /** The information set ignores the opponent's card: it depends on player, own card and history only. */
  lemma InfoSetIgnoresOpponentCard(n: Node, m: Node)
    requires n.Game? && m.Game? && !n.IsTerminal() && !m.IsTerminal()
    requires n.player == m.player == 1 || n.player == m.player == 2
    requires n.hist == m.hist
    requires n.player == 1 ==> n.cards.first == m.cards.first
    requires n.player == 2 ==> n.cards.second == m.cards.second
    ensures n.InfoSet() == m.InfoSet()
  {
  }

  /** The standard Kuhn payoff to player 1: a fold loses the ante, a showdown pays 1, or 2 after a call. */
  function KuhnPayoff(d: Deal, hist: seq<Action>): int
    requires d.first != d.second
  {
    var win := if Rank(d.first) > Rank(d.second) then 1 else -1;
    if hist == [BET, PASS] then 1
    else if hist == [PASS, BET, PASS] then -1
    else if hist == [PASS, PASS] then win
    else 2 * win
  }

  /** MAP_REWARDS is +1 exactly when player 1 holds the higher card, and reversing a dealing negates it. */
  lemma MapRewardsRanks()
    ensures MAP_REWARDS.Keys == set d | d in DEALINGS
    ensures forall d :: d in MAP_REWARDS ==>
      && d.first != d.second
      && (MAP_REWARDS[d] == 1 <==> Rank(d.first) > Rank(d.second))
      && (MAP_REWARDS[d] == 1 || MAP_REWARDS[d] == -1)
    ensures forall d :: d in MAP_REWARDS ==>
      Deal(d.second, d.first) in MAP_REWARDS && MAP_REWARDS[Deal(d.second, d.first)] == -MAP_REWARDS[d]
  {
  }

  /** DEALINGS lists every way to give the two players different cards, each exactly once. */
  lemma DealingsAll()
    ensures |DEALINGS| == 6
    ensures forall i, j :: 0 <= i < j < |DEALINGS| ==> DEALINGS[i] != DEALINGS[j]
    ensures forall d: Deal :: d in DEALINGS <==> d.first != d.second
  {
    forall d: Deal
      ensures d in DEALINGS <==> d.first != d.second
    {
      if d.first != d.second {
        match d.first
        case J => assert d == DEALINGS[0] || d == DEALINGS[1];
        case Q => assert d == DEALINGS[2] || d == DEALINGS[3];
        case K => assert d == DEALINGS[4] || d == DEALINGS[5];
      }
    }
  }

  /** At every terminal below a dealing of DEALINGS, `eval` pays what the Kuhn rules pay. */
  lemma EvalIsKuhnPayoff(d: Deal, n: Node)
    requires d in DEALINGS
    requires n in Preorder(MakeGame(1, d, [], KUHN_ACTIONS)) && n.IsTerminal()
    ensures Evaluable(n) && Eval(n) == Some(KuhnPayoff(d, n.hist))
  {
    DealNodeFacts(d, n);
    assert d in MAP_REWARDS;
    EvalOfHistory(n);
  }

  /** `eval` at a terminal history of the Kuhn rules pays `KuhnPayoff`. */
  lemma EvalOfHistory(n: Node)
    requires n.Game? && n.IsTerminal() && n.cards in MAP_REWARDS && n.hist in TERMINAL_HISTORIES
    ensures Evaluable(n) && Eval(n) == Some(KuhnPayoff(n.cards, n.hist))
  {
    MapRewardsRanks();
    var h := n.hist;
    if h == [BET, BET] {
    } else if h == [BET, PASS] {
    } else if h == [PASS, PASS] {
    } else if h == [PASS, BET, BET] {
    } else {
      assert h == [PASS, BET, PASS];
    }
  }
}
