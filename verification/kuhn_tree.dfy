/**
  The materialised Kuhn Poker tree as the solvers and helpers see it: the root built from
  DEALINGS, its 55 nodes in the pre-order of the source's recursive walks, and the
  generic pre-order walk that `init_map`, `update_sigma`, `compute_ne` and
  `get_all_info_sets` all perform (visit the node, then each child in key order).
*/
module KuhnTree {
  import opened Common
  import opened KuhnGame

  /** `RootNode(DEALINGS)`. */
  const ROOT: Node := BuildRoot(DEALINGS)

  /** Every node of the tree, in pre-order. */
  const TREE: seq<Node> := Preorder(ROOT)

  // ---------------------------------------------------------------------------
  // Pre-order walks

  /** Visit `n` with `step`, then walk each child in order. */
  function PreWalk<S>(step: (Node, S) -> S, n: Node, s: S): S
    decreases n, 1, 0
  {
    PreKids(step, n, 0, step(n, s))
  }

  /** Walk the children of `n` from position `i` on. */
  function PreKids<S>(step: (Node, S) -> S, n: Node, i: nat, s: S): S
    requires i <= |n.children|
    decreases n, 0, |n.children| - i
  {
    if i == |n.children| then s else PreKids(step, n, i + 1, PreWalk(step, n.children[i], s))
  }

  /** Apply `step` to each node of `ns` in turn. */
  function FoldNodes<S>(step: (Node, S) -> S, ns: seq<Node>, s: S): S
  {
    if ns == [] then s else FoldNodes(step, ns[1..], step(ns[0], s))
  }

  lemma {:induction false} FoldNodesAppend<S>(step: (Node, S) -> S, xs: seq<Node>, ys: seq<Node>, s: S)
    ensures FoldNodes(step, xs + ys, s) == FoldNodes(step, ys, FoldNodes(step, xs, s))
  {
    if xs != [] {
      assert (xs + ys)[0] == xs[0] && (xs + ys)[1..] == xs[1..] + ys;
      FoldNodesAppend(step, xs[1..], ys, step(xs[0], s));
    } else {
      assert xs + ys == ys;
    }
  }

  /** The children's pre-orders, the sequence that `Preorder` flattens. */
  function KidOrders(n: Node): (ss: seq<seq<Node>>)
    ensures |ss| == |n.children|
    ensures forall i :: 0 <= i < |ss| ==> ss[i] == Preorder(n.children[i])
  {
    seq(|n.children|, i requires 0 <= i < |n.children| => Preorder(n.children[i]))
  }

  lemma PreorderUnfold(n: Node)
    ensures Preorder(n) == [n] + Flatten(KidOrders(n))
  {
  }

  /** The recursive walk visits the nodes exactly in pre-order. */
  lemma {:induction false} PreWalkIsFold<S>(step: (Node, S) -> S, n: Node, s: S)
    ensures PreWalk(step, n, s) == FoldNodes(step, Preorder(n), s)
    decreases n, 1, 0
  {
    PreKidsIsFold(step, n, 0, step(n, s));
    PreorderUnfold(n);
    assert KidOrders(n)[0..] == KidOrders(n);
    assert ([n] + Flatten(KidOrders(n)))[1..] == Flatten(KidOrders(n));
  }

  lemma {:induction false} PreKidsIsFold<S>(step: (Node, S) -> S, n: Node, i: nat, s: S)
    requires i <= |n.children|
    ensures PreKids(step, n, i, s) == FoldNodes(step, Flatten(KidOrders(n)[i..]), s)
    decreases n, 0, |n.children| - i
  {
    var ss := KidOrders(n);
    if i < |n.children| {
      var c := n.children[i];
      PreWalkIsFold(step, c, s);
      PreKidsIsFold(step, n, i + 1, PreWalk(step, c, s));
      assert ss[i..][0] == Preorder(c) && ss[i..][1..] == ss[i + 1..];
      FoldNodesAppend(step, Preorder(c), Flatten(ss[i + 1..]), s);
    }
  }

  /** The walk visits `n` first, then its children. */
  lemma PreWalkStart<S>(step: (Node, S) -> S, n: Node, s: S)
    ensures PreWalk(step, n, s) == PreKids(step, n, 0, step(n, s))
  {
  }

  /** At a leaf the walk is the single step. */
  lemma PreWalkLeaf<S>(step: (Node, S) -> S, n: Node, s: S)
    requires |n.children| == 0
    ensures PreWalk(step, n, s) == step(n, s)
  {
  }

  /** The loop over the children walks child `i`, then the rest; past the last child it is done. */
  lemma PreKidsNext<S>(step: (Node, S) -> S, n: Node, i: nat, s: S)
    requires i <= |n.children|
    ensures i == |n.children| ==> PreKids(step, n, i, s) == s
    ensures i < |n.children| ==> PreKids(step, n, i, s) == PreKids(step, n, i + 1, PreWalk(step, n.children[i], s))
  {
  }

  // ---------------------------------------------------------------------------
  // Membership

  lemma {:induction false} FlattenMember<T>(ss: seq<seq<T>>, x: T)
    ensures x in Flatten(ss) <==> exists j :: 0 <= j < |ss| && x in ss[j]
  {
    if ss != [] {
      FlattenMember(ss[1..], x);
      if x in Flatten(ss[1..]) {
        var j :| 0 <= j < |ss[1..]| && x in ss[1..][j];
        assert x in ss[j + 1];
      }
      if exists j :: 0 <= j < |ss| && x in ss[j] {
        var j :| 0 <= j < |ss| && x in ss[j];
        if j > 0 {
          assert x in ss[1..][j - 1];
        }
      }
    }
  }

  /** A child of a node in a subtree is in that subtree. */
  lemma {:induction false} ChildInPreorder(t: Node, n: Node, i: nat)
    requires n in Preorder(t) && i < |n.children|
    ensures n.children[i] in Preorder(t)
    decreases t
  {
    var ss := KidOrders(t);
    PreorderUnfold(t);
    if n == t {
      FlattenMember(ss, n.children[i]);
      assert n.children[i] in ss[i];
    } else {
      FlattenMember(ss, n);
      var j :| 0 <= j < |ss| && n in ss[j];
      ChildInPreorder(t.children[j], n, i);
      FlattenMember(ss, n.children[i]);
    }
  }

  lemma ChildInTree(n: Node, i: nat)
    requires n in TREE && i < |n.children|
    ensures n.children[i] in TREE
  {
    ChildInPreorder(ROOT, n, i);
  }

  // ---------------------------------------------------------------------------
  // What every node of the tree looks like

  /** The keys an information set's nodes carry: the dealings at ".", none at terminals, both actions elsewhere. */
  function KeysOf(infoSet: string): (ks: seq<Key>)
    ensures |ks| == 6 || |ks| == 0 || |ks| == 2
  {
    if infoSet == "." then DealKeys(DEALINGS)
    else if |infoSet| > 0 && infoSet[0] == '-' then []
    else ActKeys(KUHN_ACTIONS)
  }

  /** A node of the tree is the root or a node of the betting subtree below some dealing. */
  lemma {:induction false} TreeMember(n: Node)
    requires n in TREE
    ensures n == ROOT || exists i :: 0 <= i < 6 && n in Preorder(MakeGame(1, DEALINGS[i], [], KUHN_ACTIONS))
  {
    var ss := KidOrders(ROOT);
    PreorderUnfold(ROOT);
    if n != ROOT {
      FlattenMember(ss, n);
      var i :| 0 <= i < |ss| && n in ss[i];
      assert ROOT.children[i] == MakeGame(1, DEALINGS[i], [], KUHN_ACTIONS);
    }
  }

  /** Below the root an information set starts with the first character of the player number. */
  lemma InfoSetLead(n: Node)
    requires n.Game?
    ensures n.InfoSet()[0] == IntToString(n.player)[0]
  {
    var p := IntToString(n.player);
    assert |p| >= 1;
  }

  /** Below the root an information set starts with the player number, so it is never "." and starts with '-' only at terminals. */
  lemma InfoSetHead(n: Node)
    requires n.Game?
    ensures n.InfoSet() != "."
    ensures n.InfoSet()[0] == '-' <==> n.player < 0
  {
    InfoSetLead(n);
    if n.player >= 0 {
      assert IntToString(n.player) == NatToString(n.player);
    }
  }

  lemma {:induction false} DealNodeKeys(i: nat, n: Node)
    requires i < 6 && n in Preorder(MakeGame(1, DEALINGS[i], [], KUHN_ACTIONS))
    ensures n.Game? && Evaluable(n) && n.cards in DEALINGS && |n.children| == |n.Keys()|
    ensures n.Keys() == KeysOf(n.InfoSet())
    ensures !n.IsRoot()
    ensures n.IsTerminal() ==> n.player == TERMINAL && n.Keys() == []
    ensures !n.IsTerminal() ==>
      (n.player == 1 || n.player == 2) && n.Keys() == [ActKey(BET), ActKey(PASS)]
  {
    DealNodeFacts(DEALINGS[i], n);
    InfoSetHead(n);
    assert DEALINGS[i] in MAP_REWARDS;
  }

  /**
    The facts the solvers rely on: only the root has six children; every other node is a
    betting node with known cards, an evaluable terminal, or a decision node of player 1
    or 2 with both actions; and the node's keys are determined by its information set.
  */
  lemma NodeFacts(n: Node)
    requires n in TREE
    ensures |n.children| == |n.Keys()|
    ensures n.Keys() == KeysOf(n.InfoSet())
    ensures n.IsRoot() <==> n == ROOT
    ensures n == ROOT ==> n.Root? && n.Keys() == DealKeys(DEALINGS)
    ensures n != ROOT ==> n.Game? && Evaluable(n) && n.cards in DEALINGS
    ensures n != ROOT && n.IsTerminal() ==> n.player == TERMINAL && n.Keys() == []
    ensures n != ROOT && !n.IsTerminal() ==>
      (n.player == 1 || n.player == 2) && n.Keys() == [ActKey(BET), ActKey(PASS)]
  {
    TreeMember(n);
    if n != ROOT {
      var i :| 0 <= i < 6 && n in Preorder(MakeGame(1, DEALINGS[i], [], KUHN_ACTIONS));
      DealNodeKeys(i, n);
    }
  }

  /** Nodes sharing an information set share their keys, so a table row fits all of them. */
  lemma SameInfoSetSameKeys(m: Node, n: Node)
    requires m in TREE && n in TREE && m.InfoSet() == n.InfoSet()
    ensures m.Keys() == n.Keys()
  {
    NodeFacts(m);
    NodeFacts(n);
  }
}
