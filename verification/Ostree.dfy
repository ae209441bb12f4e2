/** Order statistics trees, `src/ds/ostree.c`. */
module Ostree {
  import opened KeyOrder
  import opened TreeShape
  import opened RbShape
  import opened Bstree

  /** The count of a subtree is its number of nodes. */
  lemma {:induction false} CountIsSize(t: Tree)
    ensures Value(Counts, t) == |Inorder(t)|
  {
    if t.Node? {
      CountIsSize(t.l);
      CountIsSize(t.r);
    }
  }

  /** What the count fields show below a node in focus. */
  lemma LookCounts(tr: BTree, m: Mem, c: Ctx, t: Tree)
    requires tr.aux == Counts && tr.At(m, c, t) && t.Node? && Good(m, Counts, t)
    ensures t.id != tr.nil && t.id.left == Ptr(tr.nil, t.l) && t.id.right == Ptr(tr.nil, t.r)
    ensures t.id.left.count == |Inorder(t.l)| && t.id.right.count == |Inorder(t.r)|
    ensures t.id.count == |Inorder(t)|
  {
    tr.LookFocus(m, c, t);
    Down(m, tr.nil, tr.root, c, Left, t);
    Down(m, tr.nil, tr.root, c, Right, t);
    tr.ReadCount(m, c, t);
    tr.ReadCount(m, In(Left, t.id, t.red, t.r, c), t.l);
    tr.ReadCount(m, In(Right, t.id, t.red, t.l, c), t.r);
    CountIsSize(t);
    CountIsSize(t.l);
    CountIsSize(t.r);
  }

  /** `ostree_select` on the subtree of `node`; `null` when no such node exists. */
  method Select(tr: BTree, node: BNode, i: int, ghost m: Mem, ghost c: Ctx, ghost t: Tree) returns (r: BNode?)
    requires tr.aux == Counts && tr.At(m, c, t) && Good(m, Counts, t) && node == Ptr(tr.nil, t)
    requires |Inorder(t)| <= tr.current
    ensures r == if 0 <= i < |Inorder(t)| then Inorder(t)[i] else null
    decreases t
  {
    tr.LookFocus(m, c, t);
    if tr.current == 0 || i > tr.current - 1 || node == tr.nil {
      return null;
    }
    LookCounts(tr, m, c, t);
    Down(m, tr.nil, tr.root, c, Left, t);
    Down(m, tr.nil, tr.root, c, Right, t);
    var k := node.left.count;
    if i == k {
      return node;
    } else if i < k {
      r := Select(tr, node.left, i, m, In(Left, t.id, t.red, t.r, c), t.l);
    } else {
      r := Select(tr, node.right, i - (k + 1), m, In(Right, t.id, t.red, t.l, c), t.r);
    }
  }

  /** `ostree_rank`: the number of nodes before `node`. */
  method Rank(tr: BTree, node: BNode, ghost m: Mem, ghost c: Ctx, ghost t: Tree) returns (r: int)
    requires tr.aux == Counts && tr.At(m, c, t) && GoodAt(m, Counts, c, t) && t.Node? && node == t.id
    ensures r == |Before(c) + Inorder(t.l)|
    ensures 0 <= r < |Inorder(Plug(c, t))| && Inorder(Plug(c, t))[r] == node
  {
    LookCounts(tr, m, c, t);
    tr.LookFocus(m, c, t);
    r := node.left.count;
    var y := node;
    ghost var c', t' := c, t;
    while y != tr.root
      invariant tr.At(m, c', t') && GoodAt(m, Counts, c', t') && t'.Node?
      invariant if y == tr.root then c'.Top? && r == |Before(c)| + |Inorder(t.l)|
                else y == t'.id && r + |Before(c')| == |Before(c)| + |Inorder(t.l)|
      decreases Depth(c'), y != tr.root
    {
      tr.LookFocus(m, c', t');
      if c'.In? { RankStep(tr, m, c', t'); }
      if y == y.parent.right {
        r := r + y.parent.left.count + 1;
      }
      if c'.In? { c', t' := c'.up, Mk(c'.side, c'.id, c'.red, t', c'.sib); }
      y := y.parent;
    }
    PlugOrder(c, t);
  }

  lemma RankStep(tr: BTree, m: Mem, c: Ctx, t: Tree)
    requires tr.aux == Counts && tr.At(m, c, t) && GoodAt(m, Counts, c, t) && t.Node? && c.In?
    ensures t.id.parent == c.id && c.id in m && (t.id == c.id.right <==> c.side == Right)
    ensures c.side == Right ==> c.id.left.count == |Inorder(c.sib)|
    ensures tr.At(m, c.up, Mk(c.side, c.id, c.red, t, c.sib))
    ensures GoodAt(m, Counts, c.up, Mk(c.side, c.id, c.red, t, c.sib))
  {
    tr.LookFocus(m, c, t);
    tr.LookAbove(m, c, t);
    Up(m, tr.nil, tr.root, c, t);
    UpGood(m, Counts, c, t);
    var p := Mk(c.side, c.id, c.red, t, c.sib);
    tr.LookFocus(m, c.up, p);
    LookCounts(tr, m, c.up, p);
  }

  // ----- Whole trees -----

  /** What the order says of two places. */
  lemma TwoPlaces(cmp: Compare, s: seq<BNode>, i: nat, j: nat)
    requires Sorted(cmp, s) && OrderOn(cmp, KeysOf(s)) && i < |s| && j < |s|
    ensures cmp(s[i].key, s[j].key) < 0 <==> i < j
    ensures s[i].key == s[j].key <==> i == j
  {
    assert s[i].key in KeysOf(s) && s[j].key in KeysOf(s);
    assert j < i ==> cmp(s[j].key, s[i].key) < 0;
  }

  ghost predicate Different(s: seq<BNode>) {
    forall i, j :: 0 <= i < j < |s| ==> s[i].key != s[j].key
  }

  lemma {:induction false} CountDistinct(s: seq<BNode>)
    requires Different(s)
    ensures |KeysOf(s)| == |s|
  {
    if s == [] {
      assert KeysOf(s) == {};
    } else {
      var init, last := s[..|s| - 1], s[|s| - 1];
      CountDistinct(init);
      assert s == init + [last];
      assert KeysOf(s) == KeysOf(init) + {last.key};
      assert last.key !in KeysOf(init);
    }
  }

  /** The node at place `i` is the one with exactly `i` smaller keys. */
  lemma SmallerKeys(cmp: Compare, s: seq<BNode>, i: nat)
    requires Sorted(cmp, s) && OrderOn(cmp, KeysOf(s)) && i < |s|
    ensures |set k | k in KeysOf(s) && cmp(k, s[i].key) < 0| == i
  {
    hide Sorted, OrderOn;
    forall j, k | 0 <= j < |s| && 0 <= k < |s|
      ensures (cmp(s[j].key, s[k].key) < 0 <==> j < k) && (s[j].key == s[k].key <==> j == k)
    {
      TwoPlaces(cmp, s, j, k);
    }
    CountDistinct(s[..i]);
    assert (set k | k in KeysOf(s) && cmp(k, s[i].key) < 0) == KeysOf(s[..i]);
  }

  /** Selection from the real root gives the `i`-th smallest key, and ranking undoes it. */
  method SelectThenRank(tr: BTree, i: int) returns (node: BNode?, r: int)
    requires tr.aux == Counts && tr.Valid() && tr.sound
    ensures node == null <==> !(0 <= i < tr.current)
    ensures node != null ==> node in Inorder(tr.shape) && r == i
    ensures node != null && tr.Ordered() ==> |set k | k in tr.Keys() && tr.cmp(k, node.key) < 0| == i
  {
    var t, m := tr.shape, tr.mem;
    tr.LookFocus(m, Top, t);
    node := Select(tr, tr.root.left, i, m, Top, t);
    r := 0;
    if node != null {
      if tr.Ordered() { SmallerKeys(tr.cmp, Inorder(t), i); }
      r := RankOf(tr, node);
      SamePlaceOf(tr, r, i);
    }
  }

  /** Each node is in one place. */
  lemma SamePlaceOf(tr: BTree, i: nat, j: nat)
    requires tr.Valid() && i < |Inorder(tr.shape)| && j < |Inorder(tr.shape)|
    requires Inorder(tr.shape)[i] == Inorder(tr.shape)[j]
    ensures i == j
  {
    InorderNoRepeat(tr.shape);
  }

  /** The rank of any node of the tree. */
  method RankOf(tr: BTree, node: BNode) returns (r: int)
    requires tr.aux == Counts && tr.Valid() && tr.sound && node in Inorder(tr.shape)
    ensures 0 <= r < tr.current && Inorder(tr.shape)[r] == node
  {
    InorderIds(tr.shape);
    ghost var c, u := FindFocus(tr.shape, node);
    PlugHolds(tr.mem, tr.nil, tr.root, c, u);
    UnplugGood(tr.mem, c, u);
    r := Rank(tr, node, tr.mem, c, u);
  }

  /** Ranking a node and selecting that place gives the node back. */
  method RankThenSelect(tr: BTree, node: BNode) returns (r: int, again: BNode?)
    requires tr.aux == Counts && tr.Valid() && tr.sound && node in Inorder(tr.shape)
    ensures 0 <= r < tr.current && again == node
  {
    r := RankOf(tr, node);
    tr.LookFocus(tr.mem, Top, tr.shape);
    again := Select(tr, tr.root.left, r, tr.mem, Top, tr.shape);
  }

  lemma {:induction false} UnplugGood(m: Mem, c: Ctx, t: Tree)
    requires GoodAt(m, Counts, Top, Plug(c, t))
    ensures GoodAt(m, Counts, c, t)
  {
    if c.In? {
      UnplugGood(m, c.up, Mk(c.side, c.id, c.red, t, c.sib));
      UpGood(m, Counts, c, t);
    }
  }
}
