/**
  Playing one hand of Kuhn Poker by sampling: from the dealt node, sample an action from
  the acting player's strategy row and follow it, until a terminal pays `eval()`. This is the
  loop of `CFRBot.traverse_tree` (one table for both players) and of the round loop of
  `evaluate` in `kuhn_fun.py` (the user's table at the user's nodes, the bot's elsewhere).
  The uniform draws are the stream `draws`, one per sampled action.
*/
module KuhnPlay {
  import opened Common
  import opened KuhnGame
  import opened KuhnTree
  import opened CfrStore
  import opened CfrSpec
  import opened KuhnSample

  /** The keys of `ks` that `row` holds, in the order of `ks`: the row's keys as the model lists them. */
  function Listed(row: Row, ks: seq<Key>): (l: seq<Key>)
    ensures KeySet(l) <= row.Keys
    ensures forall k :: k in l ==> k in ks
    ensures KeySet(ks) <= row.Keys ==> l == ks
  {
    if ks == [] then []
    else (if ks[0] in row then [ks[0]] else []) + Listed(row, ks[1..])
  }

  /** The table the sampler reads at `n`: `user_sigma` at the user's nodes, the bot's strategy elsewhere. */
  function TableFor(user: int, userSigma: Table, botSigma: Table, n: Node): Table
  {
    if n.Player() == user then userSigma else botSigma
  }

  /** A node of the tree can be played and, if terminal, evaluated. */
  lemma Playing(n: Node)
    requires n in TREE
    ensures |n.children| == |n.Keys()|
    ensures n.IsTerminal() ==> Evaluable(n)
  {
    NodeFacts(n);
  }

  /** Following a sampled key stays in the tree, and below the root never returns to it. */
  lemma PlayInTree(n: Node, k: Key)
    requires n in TREE && |n.children| == |n.Keys()| && k in n.Keys()
    ensures Play(n, k).Some? && Play(n, k).value in TREE
    ensures n != ROOT ==> Play(n, k).value != ROOT
  {
    NodeFacts(n);
    var i :| 0 <= i < |n.children| && n.Keys()[i] == k && Play(n, k).value == n.children[i];
    ChildInTree(n, i);
    RootShape();
    if n != ROOT {
      TreeMember(n);
      var d :| 0 <= d < 6 && n in Preorder(MakeGame(1, DEALINGS[d], [], KUHN_ACTIONS));
      ChildInPreorder(MakeGame(1, DEALINGS[d], [], KUHN_ACTIONS), n, i);
      DealNodeKeys(d, n.children[i]);
    }
  }

  /**
    The payoff to player 1 of the hand played out from `n`, sampling the `t`-th action with
    `draws(t)`; `None` where the source raises: a missing strategy row (`KeyError`) or an
    empty one (`argmax` of an empty array).
  */
  function PlayOut(user: int, userSigma: Table, botSigma: Table, n: Node, draws: nat -> real, t: nat): (r: Option<int>)
    requires n in TREE
    ensures r.Some? ==> r.value in {-2, -1, 1, 2}
    decreases n
  {
    Playing(n);
    if n.IsTerminal() then Eval(n)
    else
      var sigma := TableFor(user, userSigma, botSigma, n);
      var s := n.InfoSet();
      if s !in sigma then None
      else match SampleAction(sigma[s], Listed(sigma[s], n.Keys()), draws(t))
        case None => None
        case Some(a) =>
          PlayInTree(n, a);
          PlayOut(user, userSigma, botSigma, Play(n, a).value, draws, t + 1)
  }

  /** The sampler can act at `n`: its table has a row there holding one of the node's keys. */
  predicate Playable(sigma: Table, n: Node)
  {
    n.InfoSet() in sigma && Listed(sigma[n.InfoSet()], n.Keys()) != []
  }

  /** Every betting node of the tree is playable from the table its player uses. */
  ghost predicate AllPlayable(user: int, userSigma: Table, botSigma: Table)
  {
    forall n :: n in TREE && n != ROOT && !n.IsTerminal() ==> Playable(TableFor(user, userSigma, botSigma, n), n)
  }

  /** When every betting node is playable, a hand dealt below the root always ends with a payoff. */
  lemma {:induction false} PlayOutPays(user: int, userSigma: Table, botSigma: Table, n: Node, draws: nat -> real, t: nat)
    requires AllPlayable(user, userSigma, botSigma) && n in TREE && n != ROOT
    ensures PlayOut(user, userSigma, botSigma, n, draws, t).Some?
    decreases n
  {
    Playing(n);
    if !n.IsTerminal() {
      var sigma := TableFor(user, userSigma, botSigma, n);
      var s := n.InfoSet();
      assert Playable(sigma, n);
      var a := SampleAction(sigma[s], Listed(sigma[s], n.Keys()), draws(t));
      PlayInTree(n, a.value);
      PlayOutPays(user, userSigma, botSigma, Play(n, a.value).value, draws, t + 1);
    }
  }

  /** A table covering every information set (a solver's `sigma`) is playable everywhere. */
  lemma CoversReady(user: int, sigma: Table)
    requires Covers(sigma)
    ensures AllPlayable(user, sigma, sigma)
  {
    forall n | n in TREE && n != ROOT && !n.IsTerminal()
      ensures Playable(TableFor(user, sigma, sigma, n), n)
    {
      NodeFacts(n);
      CoversRow(sigma, n);
    }
  }

  /** `root.deal_cards()` when the dealing at position `deal` is drawn: a node of the tree below the root. */
  function Dealt(deal: nat): (n: Node)
    requires deal < 6
    ensures n in TREE && n != ROOT
    ensures n.Game? && n.cards == DEALINGS[deal] && n.hist == []
  {
    RootShape();
    assert ROOT in TREE;
    ChildInTree(ROOT, deal);
    NodeFacts(ROOT.children[deal]);
    ROOT.children[deal]
  }

  /**
    The hand loop shared by `traverse_tree` and `evaluate`: from the dealt node, while the
    node is not terminal, sample an action from the acting player's table and play it; at the
    terminal return `eval()`.
  */
  method PlayHand(user: int, userSigma: Table, botSigma: Table, deal: nat, draws: nat -> real) returns (r: Option<int>)
    requires deal < 6
    ensures r == PlayOut(user, userSigma, botSigma, Dealt(deal), draws, 0)
  {
    var node := Dealt(deal);
    ghost var goal := PlayOut(user, userSigma, botSigma, node, draws, 0);
    var t := 0;
    while !node.IsTerminal()
      invariant node in TREE
      invariant PlayOut(user, userSigma, botSigma, node, draws, t) == goal
      decreases node
    {
      Playing(node);
      var sigma := TableFor(user, userSigma, botSigma, node);
      var s := node.InfoSet();
      if s !in sigma {
        PlayOutStops(user, userSigma, botSigma, node, draws, t);
        return None;
      }
      var a := SampleAction(sigma[s], Listed(sigma[s], node.Keys()), draws(t));
      if a.None? {
        PlayOutStops(user, userSigma, botSigma, node, draws, t);
        return None;
      }
      PlayOutNext(user, userSigma, botSigma, node, draws, t, a.value);
      node := Play(node, a.value).value;
      t := t + 1;
    }
    PlayOutEnd(user, userSigma, botSigma, node, draws, t);
    r := Eval(node);
  }

  /** A hand stops without a payoff where the table has no row or the row no key of the node. */
  lemma PlayOutStops(user: int, userSigma: Table, botSigma: Table, n: Node, draws: nat -> real, t: nat)
    requires n in TREE && !n.IsTerminal()
    requires var sigma := TableFor(user, userSigma, botSigma, n); var s := n.InfoSet();
      s !in sigma || SampleAction(sigma[s], Listed(sigma[s], n.Keys()), draws(t)).None?
    ensures PlayOut(user, userSigma, botSigma, n, draws, t) == None
  {
  }

  /** A hand goes on from the child the sampled key leads to, with the next draw. */
  lemma PlayOutNext(user: int, userSigma: Table, botSigma: Table, n: Node, draws: nat -> real, t: nat, a: Key)
    requires n in TREE && !n.IsTerminal()
    requires var sigma := TableFor(user, userSigma, botSigma, n); var s := n.InfoSet();
      s in sigma && SampleAction(sigma[s], Listed(sigma[s], n.Keys()), draws(t)) == Some(a)
    ensures |n.children| == |n.Keys()| && Play(n, a).Some? && Play(n, a).value in TREE && Play(n, a).value in n.children
    ensures PlayOut(user, userSigma, botSigma, n, draws, t) == PlayOut(user, userSigma, botSigma, Play(n, a).value, draws, t + 1)
  {
    Playing(n);
    PlayInTree(n, a);
  }

  /** At a terminal the hand pays `eval()`. */
  lemma PlayOutEnd(user: int, userSigma: Table, botSigma: Table, n: Node, draws: nat -> real, t: nat)
    requires n in TREE && n.IsTerminal()
    ensures Evaluable(n) && PlayOut(user, userSigma, botSigma, n, draws, t) == Eval(n)
  {
    Playing(n);
  }
}
