/** The height of a red-black tree, `bstree_node_height` of `src/ds/bstree_node.c`. */
module Height {
  import opened TreeShape
  import opened RbShape
  import opened Bstree

  /** Nodes on the longest path down. */
  function Levels(t: Tree): nat {
    if t.Leaf? then 0 else Max(Levels(t.l), Levels(t.r)) + 1
  }

  /** These nodes, from the top of `t` down, are each a child of the one before. */
  predicate IsPath(t: Tree, path: seq<BNode>) {
    path == [] || (t.Node? && path[0] == t.id && (IsPath(t.l, path[1..]) || IsPath(t.r, path[1..])))
  }

  /** No path down has more nodes... */
  lemma {:induction false} NoLongerPath(t: Tree, path: seq<BNode>)
    requires IsPath(t, path)
    ensures |path| <= Levels(t)
  {
    if path != [] {
      if IsPath(t.l, path[1..]) { NoLongerPath(t.l, path[1..]); } else { NoLongerPath(t.r, path[1..]); }
    }
  }

  /** ...and one has as many. */
  lemma {:induction false} LongestPath(t: Tree) returns (path: seq<BNode>)
    ensures IsPath(t, path) && |path| == Levels(t)
  {
    if t.Leaf? {
      path := [];
    } else {
      var rest := LongestPath(if Levels(t.l) >= Levels(t.r) then t.l else t.r);
      path := [t.id] + rest;
      assert path[1..] == rest;
    }
  }

  function Pow2(k: nat): nat {
    if k == 0 then 1 else 2 * Pow2(k - 1)
  }

  lemma {:induction false} Pow2Adds(a: nat, b: nat)
    ensures Pow2(a + b) == Pow2(a) * Pow2(b)
  {
    if a > 0 {
      Pow2Adds(a - 1, b);
      DoubleMul(Pow2(a - 1), Pow2(b));
    }
  }

  lemma DoubleMul(x: nat, y: nat)
    ensures (2 * x) * y == 2 * (x * y)
  {
  }

  lemma {:induction false} Pow2Monotone(a: nat, b: nat)
    requires a <= b
    ensures 1 <= Pow2(a) <= Pow2(b)
  {
    if a < b {
      Pow2Monotone(a, b - 1);
    } else if a > 0 {
      Pow2Monotone(a - 1, a - 1);
    }
  }

  /** At least every other node of a path is black. */
  lemma {:induction false} BlackHeightBoundsLevels(t: Tree)
    requires RedBlack(t)
    ensures Levels(t) <= 2 * BlackHeight(t) + if Red(t) then 1 else 0
  {
    if t.Node? {
      BlackHeightBoundsLevels(t.l);
      BlackHeightBoundsLevels(t.r);
    }
  }

  /** The topmost black levels are full. */
  lemma {:induction false} BlackHeightBoundsSize(t: Tree)
    requires RedBlack(t)
    ensures Pow2(BlackHeight(t)) <= |Inorder(t)| + 1
  {
    if t.Node? {
      BlackHeightBoundsSize(t.l);
      BlackHeightBoundsSize(t.r);
    }
  }

  /** Twice the logarithm of one more than the size bounds the height. */
  lemma LevelsLogarithmic(t: Tree)
    requires RedBlack(t) && !Red(t)
    ensures Pow2(Levels(t)) <= (|Inorder(t)| + 1) * (|Inorder(t)| + 1)
  {
    hide Levels, BlackHeight, Inorder, RedBlack, Pow2;
    var b := BlackHeight(t);
    BlackHeightBoundsLevels(t);
    BlackHeightBoundsSize(t);
    Pow2Monotone(Levels(t), b + b);
    Pow2Adds(b, b);
    SquareOrder(Pow2(b), |Inorder(t)| + 1);
  }

  lemma SquareOrder(a: nat, b: nat)
    requires a <= b
    ensures a * a <= b * b
  {
  }

  /** `bstree_node_height`. */
  method NodeHeight(tr: BTree, node: BNode, ghost m: Mem, ghost c: Ctx, ghost t: Tree) returns (h: nat)
    requires tr.At(m, c, t) && node == Ptr(tr.nil, t)
    ensures h == Levels(t)
    decreases t
  {
    tr.LookFocus(m, c, t);
    if node.parent == node || node.left == node || node.right == node {
      return 0;
    }
    Down(m, tr.nil, tr.root, c, Left, t);
    Down(m, tr.nil, tr.root, c, Right, t);
    var l := NodeHeight(tr, node.left, m, In(Left, t.id, t.red, t.r, c), t.l);
    var r := NodeHeight(tr, node.right, m, In(Right, t.id, t.red, t.l, c), t.r);
    return Max(l, r) + 1;
  }

  /** The height of a whole tree, whatever operations built it. */
  method TreeHeight(tr: BTree) returns (h: nat)
    requires tr.Valid()
    ensures Pow2(h) <= (tr.current + 1) * (tr.current + 1)
    ensures exists path :: IsPath(tr.shape, path) && |path| == h
    ensures forall path :: IsPath(tr.shape, path) ==> |path| <= h
  {
    tr.LookFocus(tr.mem, Top, tr.shape);
    h := NodeHeight(tr, tr.root.left, tr.mem, Top, tr.shape);
    ghost var longest := LongestPath(tr.shape);
    forall path | IsPath(tr.shape, path) ensures |path| <= h { NoLongerPath(tr.shape, path); }
    LevelsLogarithmic(tr.shape);
  }
}
