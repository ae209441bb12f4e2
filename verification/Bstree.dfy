/** The mutable tree of `src/ds/bstree.c` with the red-black repairs of `src/ds/rbtree.c`. The
    mirrored left and right branches of the source are one branch here, taken on a side. */
module Bstree {
  import opened KeyOrder
  import opened TreeShape
  import opened RbShape

  datatype Status = OK | ERROR

  /** `inttree_init` replaces the callback by its own. */
  function Callback(aux: Aux, cmp: Compare): Compare {
    if aux == Intervals then (a: int, b: int) => CmpKey(a, b) else cmp
  }

  class BTree {
    /** The sentinel whose left child is the real root. */
    const root: BNode
    const nil: BNode
    const aux: Aux
    /** The callback that compares keys. Keys that it finds equal are one key here. */
    const cmp: Compare
    var current: nat
    /** What every node but `nil` holds, and the tree these nodes form, between operations. */
    ghost var mem: Mem
    ghost var shape: Tree
    /** Whether the augmented fields are right; a removal gives no such promise. */
    ghost var sound: bool

    constructor (aux: Aux, cmp: Compare)
      ensures Valid() && sound && Ordered() && Inorder(shape) == []
      ensures this.aux == aux && this.cmp == Callback(aux, cmp)
      ensures fresh(mem.Keys) && fresh(nil)
    {
      var n := new BNode.Nil(INT_MIN, INT_MIN);
      var r := new BNode.Create(n, n, 0, INT_MIN);
      nil, root := n, r;
      this.aux := aux;
      this.cmp := Callback(aux, cmp);
      current := 0;
      mem := map[r := Cell(n, n, n, false, 0, 0)];
      shape := Leaf;
      sound := true;
      new;
      assert CellOf(root) == Cell(n, n, n, false, 0, 0);
      assert mem.Keys == Ids(Leaf) + CtxIds(Top) + {root};
      assert Keys() == {};
    }

    /** Which augmented fields the tree keeps right. */
    ghost function Claim(): Aux
      reads this`sound
    {
      if sound then aux else NoAux
    }

    /** `nil` is black and leads back to itself; its parent link may be anything. */
    ghost predicate NilOk()
      reads nil
    {
      nil.left == nil && nil.right == nil && nil.count == 0 && nil.maxHigh == INT_MIN && nil.data == INT_MIN
    }

    ghost predicate Agrees(m: Mem)
      reads m.Keys, nil
    {
      nil !in m && NilOk() && forall n :: n in m ==> CellOf(n) == m[n]
    }

    /** Attention is on subtree `t` in context `c`, and the heap holds exactly these. */
    ghost predicate At(m: Mem, c: Ctx, t: Tree)
      reads m.Keys, nil
    {
      Agrees(m) && Holds(m, nil, root, c, t)
    }

    /** The heap holds a red-black tree of `n` nodes with a black root and a black `nil`, and its
        augmented fields are as claimed. */
    ghost predicate Proper(m: Mem, t: Tree, n: nat)
      reads m.Keys, nil, this`sound
    {
      && At(m, Top, t) && !nil.red && RedBlack(t) && !Red(t)
      && n == |Inorder(t)| && GoodAt(m, Claim(), Top, t)
    }

    ghost predicate Valid()
      reads this, mem.Keys, nil
    {
      Proper(mem, shape, current)
    }

    /** What the tree stores: the pairs of a key and its datablock, and the keys. */
    ghost function Entries(): set<(int, int)>
      reads this
    {
      EntriesOf(Inorder(shape))
    }

    ghost function Keys(): set<int>
      reads this
    {
      KeysOf(Inorder(shape))
    }

    /** It is a search tree, for a callback that orders its keys. */
    ghost predicate Ordered()
      reads this
    {
      Sorted(cmp, Inorder(shape)) && OrderOn(cmp, Keys())
    }

    /** The new state of the tree is recorded. */
    method Commit(n: nat, ghost m: Mem, ghost t: Tree)
      requires Proper(m, t, n)
      modifies this
      ensures Valid() && mem == m && shape == t && current == n && sound == old(sound)
    {
      hide Proper;
      mem, shape, current := m, t, n;
    }

    // ----- bstree_node.c: rotations -----

    method UpdateMax(node: BNode)
      modifies node`maxHigh
      ensures node.maxHigh == Max(Max(old(node.left.maxHigh), old(node.right.maxHigh)), node.data)
    {
      node.maxHigh := Max(Max(node.left.maxHigh, node.right.maxHigh), node.data);
    }

    method UpdateCount(node: BNode)
      modifies node`count
      ensures node.count == if node.parent == node then old(node.count)
                            else old(node.left.count) + old(node.right.count) + 1
    {
      if node.parent != node {
        node.count := node.left.count + node.right.count + 1;
      }
    }

    /** Recomputes the augmented field of one node from its children. */
    method UpdateAux(node: BNode, ghost m: Mem) returns (ghost m': Mem)
      requires Agrees(m) && (node in m || node == nil)
      requires node in m ==>
        node.parent != node && (node.left in m || node.left == nil) && (node.right in m || node.right == nil)
      requires node == nil && aux == Counts ==> nil.parent == nil
      modifies node`count, node`maxHigh
      ensures Agrees(m') && m'.Keys == m.Keys && (node == nil ==> m' == m)
      ensures node != nil ==> AuxStep(Claim(), m, m', node)
    {
      assert node in m ==> CellOf(node) == m[node];
      assert node.left in m ==> CellOf(node.left) == m[node.left];
      assert node.right in m ==> CellOf(node.right) == m[node.right];
      if aux == Intervals {
        UpdateMax(node);
      } else if aux == Counts {
        UpdateCount(node);
      }
      m' := if node == nil then m else m[node := m[node].(count := node.count, max := node.maxHigh)];
      assert node in m ==> CellOf(node) == m'[node];
      assert forall n :: n in m' ==> CellOf(n) == m'[n];
    }

    /** `nil` hangs from a node that has it as a child, or from itself. */
    ghost predicate NilHangs(m: Mem)
      reads nil
    {
      nil.parent == nil || (nil.parent in m && (m[nil.parent].left == nil || m[nil.parent].right == nil))
    }

    /** A node's fields are what the memory says. */
    lemma LookNode(m: Mem, n: BNode)
      requires Agrees(m) && n in m
      ensures n != nil && CellOf(n) == m[n]
      ensures n.left == m[n].left && n.right == m[n].right && n.parent == m[n].parent && n.red == m[n].red
    {
    }

    lemma LookNil(m: Mem)
      requires Agrees(m)
      ensures nil !in m && nil.left == nil && nil.right == nil
    {
    }

    /** The first lines of a rotation: the middle subtree changes sides. */
    method MoveMiddle(s: Side, node: BNode, child: BNode)
      requires if node == nil then child == nil && nil.left == nil == nil.right else child.Child(s) != node
      modifies node`left, node`right, child.Child(s)`parent
      ensures CellOf(node) == WithChild(old(CellOf(node)), s.Other(), old(child.Child(s)))
      ensures var middle := old(child.Child(s));
        CellOf(middle) == if middle == nil then old(CellOf(middle)) else old(CellOf(middle)).(parent := node)
    {
      var middle := child.Child(s);
      node.SetChild(s.Other(), middle);
      if middle != nil {
        middle.parent := node;
      }
    }

    /** The links of a rotation; turning `nil` about itself only makes it its own parent. */
    method RotateLinks(s: Side, node: BNode, ghost m: Mem)
      requires Agrees(m) && if node == nil then NilHangs(m) else CanRotate(m, nil, s, node)
      modifies m.Keys, nil
      ensures NilOk() && nil.red == old(nil.red)
      ensures nil.parent == if node == nil then nil else old(nil.parent)
      ensures node == nil ==> Agrees(m)
      ensures node != nil ==>
        var child, top := m[node].Child(s.Other()), m[node].parent;
        var b := m[child].Child(s);
        && CellOf(node) == WithChild(m[node], s.Other(), b).(parent := child)
        && CellOf(child) == WithChild(m[child], s, node).(parent := top)
        && CellOf(top) == Relink(m[top], node, child)
        && (b != nil ==> CellOf(b) == m[b].(parent := node))
        && forall n :: n in m && n != node && n != child && n != top && n != b ==> CellOf(n) == m[n]
    {
      var child := node.Child(s.Other());
      assert node != nil ==>
        CellOf(node) == m[node] && CellOf(child) == m[child] && CellOf(node.parent) == m[node.parent];
      MoveMiddle(s, node, child);
      child.parent := node.parent;
      node.parent.ReplaceChild(node, child);
      child.SetChild(s, node);
      node.parent := child;
    }

    method Turn(s: Side, node: BNode, ghost m: Mem) returns (ghost m': Mem)
      requires Agrees(m) && if node == nil then NilHangs(m) else CanRotate(m, nil, s, node)
      modifies m.Keys, nil
      ensures nil.red == old(nil.red) && Agrees(m')
      ensures nil.parent == if node == nil then nil else old(nil.parent)
      ensures m' == (if node == nil then m else RotatedMem(m, nil, s, node)) && m'.Keys == m.Keys
    {
      hide WithChild, Relink;
      RotateLinks(s, node, m);
      m' := if node == nil then m else RotatedMem(m, nil, s, node);
      forall n | n in m' ensures CellOf(n) == m'[n] {
        if node != nil { assert m'[n] == RotatedCell(m, nil, s, node, n); }
      }
    }

    /** `bstree_node_rotate_left` (side `Left`) and `bstree_node_rotate_right` (side `Right`). */
    method Rotate(s: Side, node: BNode, ghost m: Mem, ghost c: Ctx, ghost t: Tree) returns (ghost m': Mem)
      requires node == nil ==> Agrees(m) && NilHangs(m)
      requires node != nil ==> At(m, c, t) && t.Node? && t.id == node && t.Sub(s.Other()).Node?
      modifies m.Keys, nil
      ensures m'.Keys == m.Keys && nil.red == old(nil.red)
      ensures node == nil ==> Agrees(m) && nil.parent == nil && m' == m
      ensures node != nil ==> At(m', c, Rotated(s, t)) && nil.parent == old(nil.parent)
      ensures node != nil && GoodAt(m, Claim(), c, t) ==> GoodAt(m', Claim(), c, Rotated(s, t))
    {
      hide Holds, RotatedCell, AuxStep, Rep, GoodAt, CanRotate, Agrees, NilOk, CellOf, RotatedMem, NilHangs;
      ghost var k := Claim();
      var child := node.Child(s.Other());
      LookNil(m);
      if node != nil {
        TurnedLinks(m, nil, root, k, c, s, t);
        TurnedChildren(m, nil, root, c, s, t);
        LookNode(m, node);
      }
      ghost var m1 := Turn(s, node, m);
      if node != nil {
        LookNode(m1, node);
        LookNode(m1, child);
      }
      ghost var m2 := UpdateAux(node, m1);
      m' := UpdateAux(child, m2);
      assert Claim() == k;
      if node != nil {
        RotationSteps(m, m2, m', nil, root, k, c, s, t);
      }
    }

    // ----- What the links around the focus lead to -----

    lemma LookFocus(m: Mem, c: Ctx, t: Tree)
      requires At(m, c, t)
      ensures nil != root && Ptr(nil, t) != root && root in m && root !in {Ptr(nil, t)}
      ensures root.left == Ptr(nil, Plug(c, t)) && (c.In? ==> root.left != nil)
      ensures root.right == nil && root.parent == nil && !root.red
      ensures t.Node? ==>
        && t.id in m && t.id != nil && t.id.red == t.red && t.id.parent == Above(root, c)
        && t.id.left == Ptr(nil, t.l) && t.id.right == Ptr(nil, t.r)
        && t.id != t.id.left && t.id != t.id.right && t.id != t.id.parent
    {
      AtFocus(m, nil, root, c, t);
      assert CellOf(root) == m[root];
      if t.Node? {
        assert CellOf(t.id) == m[t.id];
        assert t.l.Node? ==> t.l.id in Ids(t.l);
        assert t.r.Node? ==> t.r.id in Ids(t.r);
      }
    }

    lemma LookAbove(m: Mem, c: Ctx, t: Tree)
      requires At(m, c, t) && c.In?
      ensures c.id in m && c.id != nil && c.id != root && c.id.red == c.red && c.id.parent == Above(root, c.up)
      ensures c.id.Child(c.side) == Ptr(nil, t) && c.id.Child(c.side.Other()) == Ptr(nil, c.sib)
      ensures Ptr(nil, t) != Ptr(nil, c.sib) || (t.Leaf? && c.sib.Leaf?)
      ensures c.sib.Node? ==>
        && c.sib.id in m && c.sib.id != nil && c.sib.id != c.id
        && c.sib.id.red == c.sib.red && c.sib.id.parent == c.id
    {
      AtAbove(m, nil, root, c, t);
      assert CellOf(c.id) == m[c.id];
      if c.sib.Node? {
        assert CellOf(c.sib.id) == m[c.sib.id];
        assert c.sib.id in Ids(c.sib);
      }
    }

    /** What a left child shows of its subtree. */
    lemma ReadHigh(m: Mem, c: Ctx, t: Tree)
      requires At(m, c, t) && t.Node? && aux == Intervals && Good(m, aux, t.l)
      ensures t.l.Node? ==> t.id.left.maxHigh == Value(Intervals, t.l)
    {
      LookFocus(m, c, t);
      if t.l.Node? { assert CellOf(t.l.id) == m[t.l.id]; }
    }

    /** The same for counts, where `nil` counts as an empty subtree. */
    lemma ReadCount(m: Mem, c: Ctx, t: Tree)
      requires At(m, c, t) && aux == Counts && Good(m, aux, t)
      ensures Ptr(nil, t).count == Value(Counts, t)
    {
      if t.Node? { assert CellOf(t.id) == m[t.id]; }
    }

    /** An assignment to a colour. */
    method Paint(node: BNode, red: bool, ghost m: Mem) returns (ghost m': Mem)
      requires Agrees(m) && (node in m || node == nil)
      modifies node`red
      ensures node.red == red && Agrees(m')
      ensures m' == (if node == nil then m else Painted(m, node, red)) && m'.Keys == m.Keys
    {
      node.red := red;
      m' := if node == nil then m else Painted(m, node, red);
      assert forall n :: n in m' ==> CellOf(n) == m'[n];
    }

    // ----- rbtree.c: repair after an insertion -----

    /** Red parent, red uncle. */
    method RecolourUncle(node: BNode, uncle: BNode, ghost m: Mem, ghost c: Ctx, ghost t: Tree)
      returns (node': BNode, ghost m': Mem)
      requires Agrees(m) && InsertLoop(m, nil, root, Claim(), c, t) && node == Ptr(nil, t) && CtxRed(c)
      requires c.up.In? && Red(c.up.sib) && uncle == c.up.sib.id
      modifies m.Keys
      ensures Agrees(m') && InsertLoop(m', nil, root, Claim(), c.up.up, UncleTree(c, t)) && m'.Keys == m.Keys
      ensures Order(c.up.up, UncleTree(c, t)) == Order(c, t) && Depth(c.up.up) < Depth(c)
      ensures node' == Ptr(nil, UncleTree(c, t)) && nil.red == old(nil.red)
    {
      hide Holds, InsertLoop, Order, Agrees, NilOk, CellOf, Painted;
      ghost var k := Claim();
      UncleStep(m, nil, root, k, c, t);
      LookInserted(m, c, t);
      assert node.parent == c.id && node.parent.parent == c.up.id && Ptr(nil, UncleTree(c, t)) == c.up.id;
      m' := Paint(node.parent, false, m);
      m' := Paint(uncle, false, m');
      m' := Paint(node.parent.parent, true, m');
      node' := node.parent.parent;
      assert Claim() == k;
    }

    /** Inner child of a red parent with a black uncle; `s` is the parent's side. */
    method RotateInner(s: Side, node: BNode, ghost m: Mem, ghost c: Ctx, ghost t: Tree)
      returns (node': BNode, ghost m': Mem)
      requires Agrees(m) && InsertLoop(m, nil, root, Claim(), c, t) && node == Ptr(nil, t) && CtxRed(c)
      requires c.up.In? && c.side == s.Other()
      modifies m.Keys, nil
      ensures Agrees(m') && InsertLoop(m', nil, root, Claim(), InnerCtx(c, t), InnerTree(c, t)) && m'.Keys == m.Keys
      ensures Order(InnerCtx(c, t), InnerTree(c, t)) == Order(c, t)
      ensures node' == Ptr(nil, InnerTree(c, t)) && nil.red == old(nil.red)
    {
      ghost var p := Mk(c.side, c.id, true, t, c.sib);
      LookFocus(m, c, t);
      LookAbove(m, c, t);
      Up(m, nil, root, c, t);
      UpGood(m, Claim(), c, t);
      hide Holds, GoodAt, Inserted, Order;
      node' := node.parent;
      m' := Rotate(s, node', m, c.up, p);
      InnerStep(m, m', nil, root, Claim(), c, t);
    }

    /** Outer child of a red parent with a black uncle. */
    method RotateOuter(s: Side, node: BNode, ghost m: Mem, ghost c: Ctx, ghost t: Tree) returns (ghost m': Mem)
      requires Agrees(m) && InsertLoop(m, nil, root, Claim(), c, t) && node == Ptr(nil, t) && CtxRed(c)
      requires c.up.In? && c.up.side == c.side == s && !Red(c.up.sib)
      modifies m.Keys, nil
      ensures Agrees(m') && InsertLoop(m', nil, root, Claim(), OuterCtx(c), t) && m'.Keys == m.Keys
      ensures Order(OuterCtx(c), t) == Order(c, t) && Depth(OuterCtx(c)) < Depth(c) && nil.red == old(nil.red)
    {
      hide Holds, InsertLoop, GoodAt, Inserted, Order, Agrees, NilOk, CellOf, Painted, Plug;
      ghost var k := Claim();
      LookInserted(m, c, t);
      LoopParts(m, nil, root, k, c, t);
      OuterPainted(m, nil, root, k, c, t);
      m' := Paint(node.parent, false, m);
      m' := Paint(node.parent.parent, true, m');
      assert Claim() == k;
      m' := Rotate(s.Other(), node.parent.parent, m', c.up.up, OuterGrandparent(c, t));
      assert Claim() == k;
      OuterStep(m', nil, root, k, c, t);
    }

    /** The links the loop of `InsertFixup` follows. */
    lemma LookInserted(m: Mem, c: Ctx, t: Tree)
      requires Agrees(m) && InsertLoop(m, nil, root, Claim(), c, t)
      ensures t.Node? && t.id.parent == Above(root, c) && t.id.parent.red == CtxRed(c)
      ensures CtxRed(c) ==> c.id in m && c.id != nil && c.up.In? && c.up.id in m && c.up.id != nil
      ensures CtxRed(c) && Red(c.up.sib) ==> c.up.sib.id in m
      ensures CtxRed(c) ==>
        && c.up.In? && c.id.parent == c.up.id && (c.up.id.left == c.id <==> c.up.side == Left)
        && c.up.id.Child(c.up.side.Other()) == Ptr(nil, c.up.sib)
        && Ptr(nil, c.up.sib).red == (Red(c.up.sib) || (c.up.sib.Leaf? && nil.red))
        && (c.id.Child(c.up.side.Other()) == t.id <==> c.side != c.up.side)
    {
      LookFocus(m, c, t);
      if c.In? {
        LookAbove(m, c, t);
        Up(m, nil, root, c, t);
        if c.red {
          InsertedGrandparent(c, t);
          LookAbove(m, c.up, Mk(c.side, c.id, c.red, t, c.sib));
        }
      }
    }

    /** Red parent, black uncle. */
    method RotateUp(s: Side, node: BNode, ghost m: Mem, ghost c: Ctx, ghost t: Tree)
      returns (node': BNode, ghost m': Mem, ghost c': Ctx, ghost t': Tree)
      requires Agrees(m) && InsertLoop(m, nil, root, Claim(), c, t) && node == Ptr(nil, t) && CtxRed(c)
      requires c.up.In? && c.up.side == s && !Red(c.up.sib)
      modifies m.Keys, nil
      ensures Agrees(m') && InsertLoop(m', nil, root, Claim(), c', t') && m'.Keys == m.Keys && node' == Ptr(nil, t')
      ensures Order(c', t') == Order(c, t) && Depth(c') < Depth(c) && nil.red == old(nil.red)
    {
      LookInserted(m, c, t);
      node', m', c', t' := node, m, c, t;
      if node' == node'.parent.Child(s.Other()) {
        node', m' := RotateInner(s, node', m', c', t');
        c', t' := InnerCtx(c', t'), InnerTree(c', t');
      }
      m' := RotateOuter(s, node', m', c', t');
      c' := OuterCtx(c');
    }

    method InsertFixup(node: BNode, ghost m: Mem, ghost c: Ctx, ghost t: Tree)
      returns (ghost m': Mem, ghost c': Ctx, ghost t': Tree)
      requires Agrees(m) && InsertLoop(m, nil, root, Claim(), c, t) && node == Ptr(nil, t) && !nil.red
      modifies m.Keys, nil
      ensures Agrees(m') && InsertLoop(m', nil, root, Claim(), c', t') && !CtxRed(c') && m'.Keys == m.Keys
      ensures Order(c', t') == Order(c, t) && !nil.red
      ensures !CtxRed(c) ==> c' == c && t' == t
    {
      hide InsertLoop, Agrees, NilOk, CellOf, Order, UncleTree;
      m', c', t' := m, c, t;
      var node := node;
      LookInserted(m', c', t');
      while node.parent.red
        invariant !CtxRed(c) ==> c' == c && t' == t
        invariant Agrees(m') && InsertLoop(m', nil, root, Claim(), c', t') && node == Ptr(nil, t')
        invariant m'.Keys == m.Keys && Order(c', t') == Order(c, t) && !nil.red
        invariant node.parent == Above(root, c') && node.parent.red == CtxRed(c')
        decreases Depth(c')
      {
        LookInserted(m', c', t');
        var s := if node.parent == node.parent.parent.left then Left else Right;
        var uncle := node.parent.parent.Child(s.Other());
        if uncle.red {
          ghost var g := UncleTree(c', t');
          node, m' := RecolourUncle(node, uncle, m', c', t');
          c', t' := c'.up.up, g;
        } else {
          node, m', c', t' := RotateUp(s, node, m', c', t');
        }
        LookInserted(m', c', t');
      }
    }

    // ----- bstree.c: insertion -----

    /** What a climb needs to know at a node in focus. After a removal it may start at `nil`, which
        hangs where the focus is; then no augmented field is claimed to be right. */
    ghost predicate Climbs(m: Mem, node: BNode, c: Ctx, t: Tree, v: int)
      reads m.Keys, nil, node, this`sound
    {
      && At(m, c, t) && node == Ptr(nil, t) && node.parent == Above(root, c)
      && if t.Node? then Climbing(m, nil, root, Claim(), c, t, v) else Claim() == NoAux
    }

    /** One turn of the loops below: refresh `node`, go to its parent. */
    method RefreshAndClimb(node: BNode, ghost m: Mem, ghost c: Ctx, ghost t: Tree, ghost v: int)
      returns (node': BNode, ghost m': Mem, ghost c': Ctx, ghost t': Tree, ghost v': int)
      requires Climbs(m, node, c, t, v) && (t.Leaf? ==> c.In? && aux == Intervals)
      modifies node`count, node`maxHigh
      ensures Agrees(m') && m'.Keys == m.Keys && Climbing(m', nil, root, Claim(), c', t', v')
      ensures Plug(c', t') == Plug(c, t)
      ensures c.In? ==> c' == c.up && node' == t'.id && node' != root
      ensures c.Top? ==> c' == c && Good(m', Claim(), t') && node' == root
    {
      LookFocus(m, c, t);
      if c.In? { LookAbove(m, c, t); }
      assert t.Node? && t.l.Node? ==> t.l.id in m by { AtFocus(m, nil, root, c, t); }
      assert t.Node? && t.r.Node? ==> t.r.id in m by { AtFocus(m, nil, root, c, t); }
      hide Holds, Good, CtxGood;
      m' := UpdateAux(node, m);
      node' := node.parent;
      c', t', v' := c, t, v;
      if t.Node? { ClimbStep(m, m', nil, root, Claim(), c, t, v); }
      if c.In? {
        c', t' := c.up, Mk(c.side, c.id, c.red, t, c.sib);
        v' := if t.Node? then Combine(Claim(), v, Value(Claim(), c.sib), c.id) else 0;
        if t.Node? {
          ClimbUp(m', nil, root, Claim(), c, t, v);
        } else {
          Up(m, nil, root, c, t);
          NoAuxClimbing(m, nil, root, c', t');
        }
      }
    }

    /** The real root is the node in focus exactly at the top. */
    lemma LookRoot(m: Mem, c: Ctx, t: Tree)
      requires At(m, c, t)
      ensures c.In? <==> Ptr(nil, t) != root.left
      ensures Ptr(nil, t) != root
    {
      LookFocus(m, c, t);
      if c.In? && t.Node? {
        PlugHolds(m, nil, root, c, t);
        PlugDeeper(c, t);
      }
    }

    method SetHigh(node: BNode, ghost m: Mem, ghost c: Ctx, ghost t: Tree, ghost v: int) returns (ghost m': Mem)
      requires Climbs(m, node, c, t, v)
      modifies node`maxHigh
      ensures Climbs(m', node, c, t, v) && m'.Keys == m.Keys
    {
      LookFocus(m, c, t);
      node.maxHigh := node.data;
      m' := if node == nil then m else m[node := m[node].(max := node.data)];
      assert forall n :: n in m' ==> CellOf(n) == m'[n];
      if t.Node? { ClimbWrite(m, m', nil, root, Claim(), c, t, v); }
    }

    /** `inttree_high_fixup`: up to, but not including, the real root. */
    method HighFixup(node: BNode, ghost m: Mem, ghost c: Ctx, ghost t: Tree, ghost v: int) returns (ghost m': Mem)
      requires Climbs(m, node, c, t, v) && aux == Intervals
      modifies m.Keys, nil`count, nil`maxHigh
      ensures At(m', c, t) && m'.Keys == m.Keys && GoodAt(m', Claim(), c, t)
    {
      LookRoot(m, c, t);
      LookFocus(m, c, t);
      m' := SetHigh(node, m, c, t, v);
      ghost var c', t', v' := c, t, v;
      var node := node;
      LookRoot(m', c', t');
      while node != root.left
        invariant Climbs(m', node, c', t', v') && Plug(c', t') == Plug(c, t) && m'.Keys == m.Keys
        invariant c'.In? <==> node != root.left
        invariant t'.Leaf? ==> c' == c && t' == t
        decreases Depth(c')
      {
        node, m', c', t', v' := RefreshAndClimb(node, m', c', t', v');
        LookRoot(m', c', t');
        LookFocus(m', c', t');
      }
      Settled(m', c', t', v', c, t);
    }
    /** The end of a climb, for the tree as it was in focus at the start. */
    lemma Settled(m: Mem, c: Ctx, t: Tree, v: int, c0: Ctx, t0: Tree)
      requires Agrees(m) && c.Top? && Plug(c, t) == Plug(c0, t0)
      requires if t.Node? then Climbing(m, nil, root, Claim(), c, t, v) && (aux == Counts ==> Good(m, Claim(), t))
               else c == c0 && t == t0 && Claim() == NoAux && At(m, c, t)
      ensures At(m, c0, t0) && GoodAt(m, Claim(), c0, t0)
    {
      if t.Node? {
        ClimbDone(m, nil, root, Claim(), t, v, c0, t0);
      } else {
        NoAuxGood(m, nil, root, c0, t0);
      }
    }

    /** The first lines of `ostree_count_fixup` after a removal; the count lost here may be the
        sentinel's. */
    method CountLess(node: BNode, ghost m: Mem, ghost c: Ctx, ghost t: Tree)
      returns (node': BNode, ghost m': Mem)
      requires At(m, c, t) && node == Ptr(nil, t) && node.parent == Above(root, c)
      modifies m.Keys
      ensures At(m', c, t) && m'.Keys == m.Keys && node' == Above(root, c)
    {
      AboveIn(m, nil, root, c, t);
      assert CellOf(Above(root, c)) == m[Above(root, c)];
      node' := node.parent;
      node'.count := node'.count - 1;
      m' := m[node' := m[node'].(count := node'.count)];
      assert forall n :: n in m' ==> CellOf(n) == m'[n];
      FrameAux(m, m', nil, root, c, t);
    }

    /** `ostree_count_fixup`: up to, but not including, the sentinel. */
    method CountFixup(node: BNode, removal: bool, ghost m: Mem, ghost c: Ctx, ghost t: Tree, ghost v: int)
      returns (ghost m': Mem)
      requires Climbs(m, node, c, t, v) && aux == Counts && (if removal then Claim() == NoAux else t.Node?)
      modifies m.Keys
      ensures At(m', c, t) && m'.Keys == m.Keys && GoodAt(m', Claim(), c, t)
    {
      hide Holds, GoodAt, CtxGood, Good, Agrees, NilOk, CellOf;
      m' := m;
      ghost var c', t', v' := c, t, v;
      var node := node;
      LookRoot(m, c, t);
      if removal {
        node, m' := CountLess(node, m, c, t);
        NoAuxGood(m', nil, root, c, t);
        if c.In? {
          c', t', v' := c.up, Mk(c.side, c.id, c.red, t, c.sib), 0;
          Up(m', nil, root, c, t);
          NoAuxClimbing(m', nil, root, c', t');
          LookFocus(m', c', t');
        }
      }
      while node != root
        invariant Agrees(m') && m'.Keys == m.Keys && Plug(c', t') == Plug(c, t)
        invariant node == root ==> At(m', c, t) && GoodAt(m', Claim(), c, t)
        invariant node != root ==> t'.Node? && Climbs(m', node, c', t', v')
        decreases Depth(c'), node != root
      {
        ghost var top := c'.Top?;
        LookFocus(m', c', t');
        node, m', c', t', v' := RefreshAndClimb(node, m', c', t', v');
        if top { Settled(m', c', t', v', c, t); } else { LookFocus(m', c', t'); }
      }
    }

    /** `rbtree_node_black_height`: `nil` is recognised by its links to itself. */
    method NodeBlackHeight(node: BNode, ghost m: Mem, ghost c: Ctx, ghost t: Tree) returns (h: nat)
      requires At(m, c, t) && node == Ptr(nil, t)
      ensures h == BlackHeight(t)
      decreases t
    {
      LookFocus(m, c, t);
      if node.left == node || node.right == node {
        return 0;
      }
      Down(m, nil, root, c, Left, t);
      h := NodeBlackHeight(node.left, m, In(Left, t.id, t.red, t.r, c), t.l);
      h := h + if node.red then 0 else 1;
    }

    /** The runtime check at the end of an insertion or a deletion. */
    method CheckRules(ghost m: Mem, ghost t: Tree) returns (ok: bool)
      requires At(m, Top, t)
      ensures ok <==> !nil.red && (t.Node? ==> BlackHeight(t.l) == BlackHeight(t.r))
    {
      LookFocus(m, Top, t);
      if root.red || nil.red {
        return false;
      }
      ghost var cl, tl, cr, tr := Top, t, Top, t;
      if t.Node? {
        Down(m, nil, root, Top, Left, t);
        Down(m, nil, root, Top, Right, t);
        cl, tl, cr, tr := In(Left, t.id, t.red, t.r, Top), t.l, In(Right, t.id, t.red, t.l, Top), t.r;
      }
      var l := NodeBlackHeight(root.left.left, m, cl, tl);
      var r := NodeBlackHeight(root.left.right, m, cr, tr);
      return l == r;
    }

    lemma ProperChecks(m: Mem, t: Tree, n: nat)
      requires Proper(m, t, n)
      ensures At(m, Top, t) && !nil.red && (t.Node? ==> BlackHeight(t.l) == BlackHeight(t.r))
    {
    }

    /** The search loops of `bstree_node_query` and `bstree_insert_internal`: a node with the key, or
        the place the callback leads to. */
    method Descend(key: int) returns (node: BNode, parent: BNode, ghost c: Ctx, ghost t: Tree)
      requires Valid()
      ensures Holds(mem, nil, root, c, t) && Plug(c, t) == shape && node == Ptr(nil, t) && parent == Above(root, c)
      ensures Between(cmp, c, key) && (node != nil ==> cmp(key, node.key) == 0)
      ensures t.Node? ==> node != nil && node in Inorder(shape)
    {
      c, t := Top, shape;
      LookFocus(mem, c, t);
      node, parent := root.left, root;
      while node != nil && cmp(key, node.key) != 0
        invariant At(mem, c, t) && Plug(c, t) == shape && node == Ptr(nil, t) && parent == Above(root, c)
        invariant Between(cmp, c, key) && (t.Node? ==> node != nil)
        decreases t
      {
        LookFocus(mem, c, t);
        Down(mem, nil, root, c, Left, t);
        Down(mem, nil, root, c, Right, t);
        parent := node;
        if cmp(key, node.key) < 0 {
          c, t := In(Left, t.id, t.red, t.r, c), t.l;
          node := node.left;
        } else {
          c, t := In(Right, t.id, t.red, t.l, c), t.r;
          node := node.right;
        }
        LookFocus(mem, c, t);
      }
      PlugOrder(c, t);
      if t.Node? { assert node in Inorder(t); }
    }

    /** If the callback orders the keys, the search decides whether the key is there. */
    lemma PlaceOrder(key: int, c: Ctx, t: Tree)
      requires Plug(c, t) == shape && Between(cmp, c, key) && (t.Node? ==> cmp(key, t.id.key) == 0)
      ensures t.Leaf? ==> Inorder(shape) == Before(c) + After(c)
      ensures t.Node? ==> t.id in Inorder(shape)
      ensures Ordered() && OrderOn(cmp, Keys() + {key}) ==>
        (t.Node? <==> key in Keys()) && (t.Node? ==> t.id.key == key)
    {
      PlugOrder(c, t);
      if t.Leaf? {
        assert Order(c, t) == Before(c) + [] + After(c) == Before(c) + After(c);
        if Ordered() && OrderOn(cmp, Keys() + {key}) {
          BetweenOrder(cmp, c, [], key, Keys() + {key});
        }
      } else {
        assert t.id in Inorder(t) && t.id in Inorder(shape) && t.id.key in Keys();
      }
    }

    /** The comparison in `bstree_insert_internal` finds the side of the hole again. */
    lemma LinkPlace(c: Ctx, key: int)
      requires At(mem, c, Leaf) && Between(cmp, c, key)
      ensures Above(root, c) in mem && nil !in mem
      ensures (Above(root, c) == root || cmp(key, Above(root, c).key) < 0) == (c.Top? || c.side == Left)
    {
      LookFocus(mem, c, Leaf);
      if c.In? { LookAbove(mem, c, Leaf); }
    }

    method HangLeaf(parent: BNode, leaf: BNode, key: int)
      modifies parent`left, parent`right
      ensures CellOf(parent)
        == WithChild(old(CellOf(parent)), if parent == root || cmp(key, parent.key) < 0 then Left else Right, leaf)
    {
      if parent == root || cmp(key, parent.key) < 0 {
        parent.left := leaf;
      } else {
        parent.right := leaf;
      }
    }

    /** `bstree_node_create` and the two lines after it. */
    method LinkLeaf(parent: BNode, key: int, data: int, ghost c: Ctx) returns (leaf: BNode, ghost m: Mem)
      requires At(mem, c, Leaf) && parent == Above(root, c) && Between(cmp, c, key)
      modifies parent
      ensures fresh(leaf) && leaf.key == key && leaf.data == data && m.Keys == mem.Keys + {leaf} && leaf !in mem
      ensures At(m, c, Node(leaf, false, Leaf, Leaf))
        && forall n :: n in mem ==> Field(Claim(), m[n]) == Field(Claim(), mem[n])
    {
      hide Holds, Between, Plug, Ids, CtxIds, Above, WithChild;
      LinkPlace(c, key);
      leaf := new BNode.Create(nil, parent, key, data);
      LinkedHolds(mem, nil, root, c, leaf);
      HangLeaf(parent, leaf, key);
      m := mem[leaf := Cell(nil, nil, parent, false, 0, 0)]
              [parent := WithChild(mem[parent], if c.Top? then Left else c.side, leaf)];
      assert forall n :: n in m ==> CellOf(n) == m[n];
    }

    /** The augmented fields above a new leaf. */
    method RepairAux(leaf: BNode, ghost m: Mem, ghost c: Ctx, ghost v: int) returns (ghost m': Mem)
      requires Agrees(m) && Climbing(m, nil, root, Claim(), c, Node(leaf, false, Leaf, Leaf), v)
      modifies m.Keys, nil`count, nil`maxHigh
      ensures At(m', c, Node(leaf, false, Leaf, Leaf)) && GoodAt(m', Claim(), c, Node(leaf, false, Leaf, Leaf))
      ensures m'.Keys == m.Keys
    {
      ghost var t := Node(leaf, false, Leaf, Leaf);
      m' := m;
      if aux == NoAux {
        NoAuxGood(m, nil, root, c, t);
      }
      LookFocus(m, c, t);
      hide Holds, GoodAt;
      if aux == Intervals {
        m' := HighFixup(leaf, m, c, t, v);
      } else if aux == Counts {
        m' := CountFixup(leaf, false, m, c, t, v);
      }
    }

    /** The first node is always black. */
    method BlackenRoot(ghost m: Mem, ghost c: Ctx, ghost t: Tree) returns (ghost m': Mem, ghost t': Tree)
      requires Agrees(m) && InsertLoop(m, nil, root, Claim(), c, t) && !CtxRed(c) && !nil.red
      modifies m.Keys
      ensures At(m', Top, t') && GoodAt(m', Claim(), Top, t') && m'.Keys == m.Keys && !nil.red
      ensures RedBlack(t') && !Red(t') && Inorder(t') == Order(c, t) && t' == Blackened(Plug(c, t))
    {
      InsertDone(m, nil, root, Claim(), c, t);
      LookSentinel(m, c, t);
      hide Holds, GoodAt, RedBlack, InsertLoop, Inorder, Order, Plug, CtxRed;
      m' := Paint(root.left, false, m);
      t' := Blackened(Plug(c, t));
    }

    /** The colour and the shape after a new leaf. */
    method RepairColours(leaf: BNode, ghost m: Mem, ghost c: Ctx) returns (ghost m': Mem, ghost t': Tree)
      requires At(m, c, Node(leaf, false, Leaf, Leaf)) && GoodAt(m, Claim(), c, Node(leaf, false, Leaf, Leaf))
      requires CtxRedBlack(c, 0) && !nil.red
      modifies m.Keys, nil
      ensures At(m', Top, t') && GoodAt(m', Claim(), Top, t') && m'.Keys == m.Keys && !nil.red
      ensures RedBlack(t') && !Red(t') && Inorder(t') == Before(c) + [leaf] + After(c)
      ensures !CtxRed(c) ==> t' == Blackened(Plug(c, Node(leaf, true, Leaf, Leaf)))
    {
      AtFocus(m, nil, root, c, Node(leaf, false, Leaf, Leaf));
      ReddenLeaf(m, nil, root, Claim(), c, leaf);
      ghost var c1, t1;
      m' := Paint(leaf, true, m);
      m', c1, t1 := InsertFixup(leaf, m', c, Node(leaf, true, Leaf, Leaf));
      m', t' := BlackenRoot(m', c1, t1);
    }

    lemma LookSentinel(m: Mem, c: Ctx, t: Tree)
      requires Agrees(m) && InsertLoop(m, nil, root, Claim(), c, t)
      ensures root in m && CellOf(root) == m[root]
    {
      AtFocus(m, nil, root, c, t);
    }

    /** Links a new leaf where `Descend` stopped and refreshes the augmented fields above it. */
    method LinkAndRefresh(parent: BNode, key: int, data: int, ghost c: Ctx) returns (leaf: BNode, ghost m: Mem)
      requires Valid() && Holds(mem, nil, root, c, Leaf) && Plug(c, Leaf) == shape
      requires parent == Above(root, c) && parent in mem && Between(cmp, c, key)
      modifies mem.Keys, nil`count, nil`maxHigh
      ensures fresh(leaf) && leaf.key == key && leaf.data == data && m.Keys == mem.Keys + {leaf}
      ensures At(m, c, Node(leaf, false, Leaf, Leaf)) && GoodAt(m, Claim(), c, Node(leaf, false, Leaf, Leaf))
    {
      hide Holds, Agrees, NilOk, CellOf, GoodAt, CtxGood, Climbing, Between, Plug;
      LeafHole(mem, Claim(), c, shape);
      leaf, m := LinkLeaf(parent, key, data, c);
      LinkedClimbing(mem, m, nil, root, Claim(), c, leaf, Value(Claim(), Leaf));
      m := RepairAux(leaf, m, c, Value(Claim(), Leaf));
    }

    /** Everything an insertion does to the nodes. */
    method InsertAt(parent: BNode, key: int, data: int, ghost c: Ctx) returns (leaf: BNode, ghost m: Mem, ghost t: Tree)
      requires Valid() && Holds(mem, nil, root, c, Leaf) && Plug(c, Leaf) == shape
      requires parent == Above(root, c) && Between(cmp, c, key)
      modifies mem.Keys, nil
      ensures Proper(m, t, current + 1) && fresh(m.Keys - mem.Keys)
      ensures leaf.key == key && leaf.data == data && Inorder(t) == Before(c) + [leaf] + After(c)
      ensures !CtxRed(c) ==> t == Blackened(Plug(c, Node(leaf, true, Leaf, Leaf)))
    {
      hide Agrees, GoodAt, Holds, RedBlack, Inorder, Plug, Order, CtxRedBlack, CtxGood, CtxRed, Blackened, Between;
      LookNil(mem);
      AboveIn(mem, nil, root, c, Leaf);
      LeafHole(mem, Claim(), c, shape);
      leaf, m := LinkAndRefresh(parent, key, data, c);
      m, t := RepairColours(leaf, m, c);
      LinkedEntries(c, leaf);
    }

    /** `bstree_insert_internal`, for any callback: `c` is where the search ended. */
    method InsertPlace(key: int, data: int) returns (r: Status, ghost c: Ctx, ghost n: BNode)
      requires Valid()
      modifies this, mem.Keys, nil
      ensures Valid() && sound == old(sound) && fresh(mem.Keys - old(mem.Keys)) && Between(cmp, c, key)
      ensures r == ERROR ==>
        && n in old(Inorder(shape)) && cmp(key, n.key) == 0
        && mem == old(mem) && shape == old(shape) && current == old(current)
      ensures r == OK ==>
        && n.key == key && n.data == data && Plug(c, Leaf) == old(shape) && current == old(current) + 1
        && old(Inorder(shape)) == Before(c) + After(c) && Inorder(shape) == Before(c) + [n] + After(c)
        && (!CtxRed(c) ==> shape == Blackened(Plug(c, Node(n, true, Leaf, Leaf))))
      ensures old(Ordered()) && OrderOn(cmp, old(Keys()) + {key}) ==>
        Ordered() && (r == ERROR <==> key in old(Keys()))
    {
      hide Valid, Proper, At, Agrees, Between, OrderOn, Sorted, KeysOf, Inorder, Plug, CtxRed, Blackened, Before, After;
      var node, parent;
      ghost var t, m;
      node, parent, c, t := Descend(key);
      n := node;
      PlaceOrder(key, c, t);
      if node != nil {
        return ERROR, c, n;
      }
      var leaf;
      leaf, m, t := InsertAt(parent, key, data, c);
      n := leaf;
      GrownOrder(cmp, c, leaf);
      ProperChecks(m, t, current + 1);
      var ok := CheckRules(m, t);
      if !ok {
        return ERROR, c, n;
      }
      Commit(current + 1, m, t);
      return OK, c, n;
    }

    /** `bstree_insert_internal`. */
    method Insert(key: int, data: int) returns (r: Status)
      requires Valid()
      modifies this, mem.Keys, nil
      ensures Valid() && sound == old(sound) && fresh(mem.Keys - old(mem.Keys))
      ensures r == ERROR ==> mem == old(mem) && shape == old(shape) && current == old(current)
      ensures r == OK ==> current == old(current) + 1
      ensures r == OK ==> Entries() == old(Entries()) + {(key, data)} && Keys() == old(Keys()) + {key}
      ensures old(Ordered()) && OrderOn(cmp, old(Keys()) + {key}) ==>
        Ordered() && (r == ERROR <==> key in old(Keys()))
    {
      ghost var c, n;
      hide Valid, Ordered, OrderOn, Between, CtxRed;
      r, c, n := InsertPlace(key, data);
      EntriesAround(Before(c), n, After(c));
    }

    // ----- rbtree.c: repair after a deletion -----

    /** The links the loop of `DeleteFixup` follows below the real root. */
    lemma LookShort(m: Mem, c: Ctx, t: Tree)
      requires Agrees(m) && DeleteLoop(m, nil, root, c, t) && !nil.red && c.In?
      ensures c.sib.Node? && c.id in m && c.sib.id in m && c.id != nil && c.sib.id != nil && c.id.red == c.red
      ensures (c.id.left == Ptr(nil, t) <==> c.side == Left) && c.id.Child(c.side.Other()) == c.sib.id
      ensures c.sib.id.red == c.sib.red && c.id.parent == Above(root, c.up)
      ensures LooksAt(m, c.sib.id.left, c.sib.l) && LooksAt(m, c.sib.id.right, c.sib.r)
    {
      ShortSibling(c, t);
      LookAbove(m, c, t);
      Up(m, nil, root, c, t);
      Down(m, nil, root, c.up, c.side.Other(), Mk(c.side, c.id, c.red, t, c.sib));
      LookFocus(m, SibCtx(c, t), c.sib);
      AtFocus(m, nil, root, SibCtx(c, t), c.sib);
      assert c.sib.l.Node? ==> CellOf(c.sib.l.id) == m[c.sib.l.id];
      assert c.sib.r.Node? ==> CellOf(c.sib.r.id) == m[c.sib.r.id];
    }

    /** A link to the root of `t`, with its colour. */
    ghost predicate LooksAt(m: Mem, n: BNode, t: Tree)
      reads n
    {
      n == Ptr(nil, t) && n.red == Red(t) && (t.Node? ==> n in m && n != nil)
    }

    /** Past the real root, every pointer of the loop is `nil` but `node`, which is the sentinel. */
    ghost predicate PastRoot(m: Mem, node: BNode, s: Side)
      reads m.Keys, nil, node
    {
      Agrees(m) && NilHangs(m) && node == root && node.parent == nil && s == Right
    }

    /** The sibling is red. Past the root, `nil` is painted and turned about itself. */
    method RedSibling(s: Side, node: BNode, sibling: BNode, ghost past: bool, ghost m: Mem, ghost c: Ctx, ghost t: Tree)
      returns (sibling': BNode, ghost m': Mem)
      requires past ==> PastRoot(m, node, s) && sibling == nil && root in m
      requires !past ==>
        && Agrees(m) && DeleteLoop(m, nil, root, c, t) && !Red(t) && c.In? && c.side == s && Red(c.sib) && !nil.red
        && node == Ptr(nil, t) && node.parent == c.id && sibling == c.sib.id
      modifies m.Keys, nil
      ensures Agrees(m') && m'.Keys == m.Keys
      ensures past ==> m' == m && nil.red && nil.parent == nil && sibling' == nil && node.parent == nil
      ensures !past ==>
        && DeleteLoop(m', nil, root, RedSiblingCtx(c), t) && Order(RedSiblingCtx(c), t) == Order(c, t)
        && sibling' == Ptr(nil, RedSiblingCtx(c).sib) && node.parent == c.id && !nil.red
    {
      ghost var c', u := c, t;
      m' := m;
      if !past {
        LookShort(m, c, t);
        RedSiblingPainted(m, nil, root, c, t);
        c', u := c.up, RedSiblingParent(c, t);
      }
      hide Holds;
      m' := Paint(sibling, false, m');
      m' := Paint(node.parent, true, m');
      m' := Rotate(s, node.parent, m', c', u);
      if !past {
        RedSiblingStep(m', nil, root, c, t);
        LookAfterRedSibling(m', c, t);
      }
      sibling' := node.parent.Child(s.Other());
    }

    lemma LookAfterRedSibling(m: Mem, c: Ctx, t: Tree)
      requires Agrees(m) && c.In? && c.sib.Node? && DeleteLoop(m, nil, root, RedSiblingCtx(c), t) && !nil.red
      ensures c.id.Child(c.side.Other()) == Ptr(nil, RedSiblingCtx(c).sib) && c.id != nil
      ensures t.Node? ==> t.id.parent == c.id
    {
      LookShort(m, RedSiblingCtx(c), t);
      LookFocus(m, RedSiblingCtx(c), t);
    }

    /** The sibling is black with black children, perhaps `nil` beside the real root. */
    method Climb(s: Side, node: BNode, sibling: BNode, ghost m: Mem, ghost c: Ctx, ghost t: Tree)
      returns (node': BNode, ghost m': Mem)
      requires Agrees(m) && DeleteLoop(m, nil, root, c, t) && !Red(t) && !nil.red
      requires node == Ptr(nil, t) && node.parent == Above(root, c)
      requires if c.Top? then sibling == nil
               else c.sib.Node? && sibling == c.sib.id && !c.sib.red && !Red(c.sib.l) && !Red(c.sib.r)
      modifies m.Keys, nil
      ensures Agrees(m') && m'.Keys == m.Keys && NilHangs(m) == old(NilHangs(m))
      ensures forall n :: n in m ==> SameButRed(m'[n], m[n])
      ensures c.Top? ==> m' == m && nil.red && node' == root && root.parent == nil && !root.red
      ensures c.In? ==>
        && DeleteLoop(m', nil, root, c.up, ClimbTree(c, t)) && Order(c.up, ClimbTree(c, t)) == Order(c, t)
        && node' == c.id && node'.parent == Above(root, c.up) && !nil.red
    {
      hide Holds, Short, Order, Agrees, NilOk, CellOf;
      LookFocus(m, c, t);
      if c.In? {
        LookShort(m, c, t);
        ClimbShort(m, nil, root, c, t);
      }
      m' := Paint(sibling, true, m);
      node' := node.parent;
    }

    /** The sibling is black and its far child is red. Past the root, `nil` takes every part. */
    method FarNephew(s: Side, node: BNode, sibling: BNode, ghost past: bool, ghost m: Mem, ghost c: Ctx, ghost t: Tree)
      returns (ghost m': Mem, ghost t': Tree)
      requires past ==> PastRoot(m, node, s) && sibling == nil && Repaired(m, nil, root, t) && root in m
      requires !past ==>
        && Agrees(m) && DeleteLoop(m, nil, root, c, t) && !Red(t) && c.In? && c.side == s && !nil.red
        && c.sib.Node? && !c.sib.red && Red(c.sib.Sub(s.Other()))
        && node == Ptr(nil, t) && node.parent == c.id && sibling == c.sib.id
      modifies m.Keys, nil
      ensures Agrees(m') && m'.Keys == m.Keys && Repaired(m', nil, root, t') && !nil.red
      ensures Inorder(t') == (if past then Inorder(t) else Order(c, t)) && !node.red
    {
      hide Holds, Short, RedBlack, Order, Inorder, Plug, Agrees, NilOk, CellOf, Painted, Rotated;
      ghost var c', u := c, t;
      m', t' := m, t;
      if !past {
        LookShort(m, c, t);
        FarPainted(m, nil, root, c, t);
        c', u := c.up, FarParent(c, t);
      }
      LookNil(m);
      var parent, far := node.parent, sibling.Child(s.Other());
      assert far in m || far == nil;
      m' := Paint(sibling, parent.red, m');
      m' := Paint(parent, false, m');
      m' := Paint(far, false, m');
      m' := Rotate(s, parent, m', c', u);
      if !past {
        FarStep(m', nil, root, c, t);
        t' := Plug(c.up, Rotated(c.side, FarParent(c, t)));
        LookAfterFar(m', c, t);
      } else {
        LookSentinelBlack(m', t');
      }
    }

    lemma LookSentinelBlack(m: Mem, t: Tree)
      requires Agrees(m) && Repaired(m, nil, root, t)
      ensures !root.red
    {
      LookFocus(m, Top, t);
    }

    /** The node in focus is as black as before. */
    lemma LookAfterFar(m: Mem, c: Ctx, t: Tree)
      requires c.In? && c.sib.Node? && c.sib.Sub(c.side.Other()).Node?
      requires At(m, c.up, Rotated(c.side, FarParent(c, t))) && !Red(t) && !nil.red
      ensures !Ptr(nil, t).red
    {
      var s := c.side;
      var y := Rotated(s, FarParent(c, t));
      Down(m, nil, root, c.up, s, y);
      var c1 := In(s, y.id, y.red, y.Sub(s.Other()), c.up);
      Down(m, nil, root, c1, s, y.Sub(s));
      LookFocus(m, In(s, c.id, false, c.sib.Sub(s), c1), t);
    }

    /** The sibling is black, its near child red and its far child black. */
    method NearNephew(s: Side, node: BNode, sibling: BNode, ghost m: Mem, ghost c: Ctx, ghost t: Tree)
      returns (sibling': BNode, ghost m': Mem)
      requires Agrees(m) && DeleteLoop(m, nil, root, c, t) && !Red(t) && c.In? && c.side == s && !nil.red
      requires c.sib.Node? && !c.sib.red && Red(c.sib.Sub(s)) && !Red(c.sib.Sub(s.Other()))
      requires node == Ptr(nil, t) && node.parent == c.id && sibling == c.sib.id
      modifies m.Keys, nil
      ensures Agrees(m') && m'.Keys == m.Keys && !nil.red
      ensures var c' := NearCtx(c);
        && DeleteLoop(m', nil, root, c', t) && Order(c', t) == Order(c, t) && c'.sib.Node? && !c'.sib.red
        && Red(c'.sib.Sub(s.Other())) && sibling' == c'.sib.id && node.parent == c.id
    {
      LookShort(m, c, t);
      NearPainted(m, nil, root, c, t);
      NearColours(c, t);
      hide Holds;
      m' := Paint(sibling.Child(s), false, m);
      m' := Paint(sibling, true, m');
      m' := Rotate(s.Other(), sibling, m', SibCtx(c, t), NearSibling(c));
      NearStep(m', nil, root, c, t);
      LookShort(m', NearCtx(c), t);
      LookFocus(m', NearCtx(c), t);
      sibling' := node.parent.Child(s.Other());
    }

    ghost predicate SameButRed(a: Cell, b: Cell) {
      a.left == b.left && a.right == b.right && a.parent == b.parent
    }

    /** The sibling is black and has a red child. */
    method Nephews(s: Side, node: BNode, sibling: BNode, ghost past: bool, ghost m: Mem, ghost c: Ctx, ghost t: Tree)
      returns (ghost m': Mem, ghost t': Tree)
      requires past ==> PastRoot(m, node, s) && sibling == nil && Repaired(m, nil, root, t) && root in m && nil.red
      requires !past ==>
        && Agrees(m) && DeleteLoop(m, nil, root, c, t) && !Red(t) && c.In? && c.side == s && !nil.red
        && c.sib.Node? && !c.sib.red && (Red(c.sib.l) || Red(c.sib.r))
        && node == Ptr(nil, t) && node.parent == c.id && sibling == c.sib.id
      modifies m.Keys, nil
      ensures Agrees(m') && m'.Keys == m.Keys && Repaired(m', nil, root, t') && !nil.red
      ensures Inorder(t') == (if past then Inorder(t) else Order(c, t)) && !node.red
    {
      ghost var c' := c;
      var sibling := sibling;
      m' := m;
      if !past { LookShort(m, c, t); }
      if !sibling.Child(s.Other()).red {
        sibling, m' := NearNephew(s, node, sibling, m', c, t);
        c' := NearCtx(c);
      }
      m', t' := FarNephew(s, node, sibling, past, m', c', t);
    }

    /** The state of the loop of `DeleteFixup`, before and after it has climbed past the real root. */
    ghost predicate DeleteState(m: Mem, node: BNode, past: bool, c: Ctx, t: Tree)
      reads m.Keys, nil, node
    {
      && Agrees(m) && root in m
      && (past ==> PastRoot(m, node, Right) && nil.red && Repaired(m, nil, root, t) && c.Top?)
      && (!past ==>
           && DeleteLoop(m, nil, root, c, t) && !nil.red && node == Ptr(nil, t) && node.parent == Above(root, c)
           && (!Red(t) ==> NilHangs(m)))
    }

    /** What the loop reads first. */
    lemma LookState(m: Mem, node: BNode, past: bool, c: Ctx, t: Tree)
      requires DeleteState(m, node, past, c, t) && !node.red
      ensures past ==> node == root && node.parent == nil && nil.left == nil && nil != root
      ensures past ==> Repaired(m, nil, root, t) && c.Top? && Order(c, t) == Inorder(t)
      ensures root in m && (node == nil || node in m)
      ensures !past ==> !Red(t)
      ensures !past && c.Top? ==> node.parent == root && root.left == node && root.right == nil
      ensures !past && c.In? ==>
        && node.parent == c.id && c.sib.Node? && c.id.Child(c.side.Other()) == c.sib.id
        && (c.id.left == node <==> c.side == Left) && c.sib.id.red == c.sib.red
    {
      if !past {
        LookFocus(m, c, t);
        if c.In? { LookShort(m, c, t); }
      } else {
        LookFocus(m, Top, t);
      }
    }

    /** Climbing from the root leads past it. */
    lemma ClimbedPast(m: Mem, t: Tree)
      requires Agrees(m) && NilHangs(m) && root in m && DeleteLoop(m, nil, root, Top, t) && !Red(t)
      requires nil.red && root.parent == nil
      ensures DeleteState(m, root, true, Top, t)
    {
    }

    lemma ClimbedUp(m: Mem, m': Mem, c: Ctx, t: Tree)
      requires c.In? && c.sib.Node? && Agrees(m') && root in m' && !nil.red
      requires DeleteLoop(m', nil, root, c.up, ClimbTree(c, t)) && c.id.parent == Above(root, c.up)
      requires m'.Keys == m.Keys && forall n :: n in m ==> SameButRed(m'[n], m[n])
      requires !CtxRed(c) ==> NilHangs(m)
      ensures DeleteState(m', c.id, false, c.up, ClimbTree(c, t))
      ensures ToGo(false, c.up, ClimbTree(c, t)) < if CtxRed(c) then 2 else 2 + Depth(c)
    {
      hide Holds, Short, Agrees;
    }

    lemma LookSibling(m: Mem, c: Ctx, t: Tree)
      requires Agrees(m) && DeleteLoop(m, nil, root, c, t) && !nil.red && c.In?
      ensures c.sib.Node? && c.sib.id.left.red == Red(c.sib.l) && c.sib.id.right.red == Red(c.sib.r)
    {
      LookShort(m, c, t);
    }

    /** How far the loop of `DeleteFixup` still has to go; it stops at a red node. */
    ghost function ToGo(past: bool, c: Ctx, t: Tree): nat {
      if past then 0 else if Red(t) then 1 else 2 + Depth(c)
    }

    /** The first half of the loop body: afterwards the sibling is black. */
    method BlackSibling(s: Side, node: BNode, ghost past: bool, ghost m: Mem, ghost c: Ctx, ghost t: Tree)
      returns (sibling: BNode, ghost m': Mem, ghost c': Ctx)
      requires DeleteState(m, node, past, c, t) && !node.red && s == if node == node.parent.left then Left else Right
      modifies m.Keys, nil
      ensures Agrees(m') && m'.Keys == m.Keys
      ensures past ==> PastRoot(m', node, s) && nil.red && sibling == nil && m' == m && c' == c
      ensures !past ==>
        && DeleteLoop(m', nil, root, c', t) && !Red(t) && !nil.red && node == Ptr(nil, t)
        && node.parent == Above(root, c')
        && Order(c', t) == Order(c, t) && (c'.Top? ==> sibling == nil && c.Top?)
        && (c'.In? ==> c'.side == s && c'.sib.Node? && !c'.sib.red && sibling == c'.sib.id)
        && (if CtxRed(c') then true else NilHangs(m') && c' == c)
    {
      LookState(m, node, past, c, t);
      sibling := node.parent.Child(s.Other());
      m', c' := m, c;
      if sibling.red {
        if !past { RedSiblingColours(c, t); }
        sibling, m' := RedSibling(s, node, sibling, past, m, c, t);
        if !past { c' := RedSiblingCtx(c); }
      }
    }

    /** Nothing in the loop asks whether the root has been reached: there, `nil` is painted red,
        the sentinel becomes the node, and the last turn repaints `nil` and turns it about itself. */
    method DeleteStep(node: BNode, ghost past: bool, ghost m: Mem, ghost c: Ctx, ghost t: Tree)
      returns (node': BNode, done: bool, ghost past': bool, ghost m': Mem, ghost c': Ctx, ghost t': Tree)
      requires DeleteState(m, node, past, c, t) && !node.red
      modifies m.Keys, nil
      ensures m'.Keys == m.Keys && (done ==> node' == node)
      ensures !done ==>
        && DeleteState(m', node', past', c', t') && ToGo(past', c', t') < ToGo(past, c, t)
        && Order(c', t') == Order(c, t)
      ensures done ==>
        && Agrees(m') && Repaired(m', nil, root, t') && !nil.red && Inorder(t') == Order(c, t) && !node.red
        && (node == nil || node in m')
    {
      hide DeleteState, DeleteLoop, Repaired, Agrees, NilHangs, Order, Inorder, ClimbTree, Red;
      LookState(m, node, past, c, t);
      var s := if node == node.parent.left then Left else Right;
      var sibling;
      sibling, m', c' := BlackSibling(s, node, past, m, c, t);
      node', done, past', t' := node, false, past, t;
      LookNil(m');
      if !past && c'.In? { LookSibling(m', c', t); }
      if !sibling.right.red && !sibling.left.red {
        ghost var m1, c1 := m', c';
        node', m' := Climb(s, node, sibling, m', c1, t);
        past' := c1.Top?;
        if past' {
          ClimbedPast(m', t);
        } else {
          ClimbedUp(m1, m', c1, t);
          t', c' := ClimbTree(c1, t), c1.up;
        }
      } else {
        m', t' := Nephews(s, node, sibling, past, m', c', t);
        done := true;
      }
    }

    method DeleteFixup(node: BNode, ghost m: Mem, ghost c: Ctx, ghost t: Tree) returns (ghost m': Mem, ghost t': Tree)
      requires DeleteState(m, node, false, c, t)
      modifies m.Keys, nil
      ensures Agrees(m') && m'.Keys == m.Keys && Repaired(m', nil, root, t') && !nil.red
      ensures Inorder(t') == Order(c, t)
    {
      ghost var c', past := c, false;
      m', t' := m, t;
      var node, done := node, false;
      while !node.red && !done
        invariant m'.Keys == m.Keys
        invariant !done ==> DeleteState(m', node, past, c', t') && Order(c', t') == Order(c, t)
        invariant done ==>
          && Agrees(m') && Repaired(m', nil, root, t') && !nil.red && Inorder(t') == Order(c, t)
          && !node.red && (node == nil || node in m')
        decreases !done, ToGo(past, c', t')
      {
        node, done, past, m', c', t' := DeleteStep(node, past, m', c', t');
      }
      m', t' := PaintLast(node, done, past, m', c', t');
    }

    /** The assignment after the loop, which matters only if the loop stopped at a red node. */
    method PaintLast(node: BNode, ghost done: bool, ghost past: bool, ghost m: Mem, ghost c: Ctx, ghost t: Tree)
      returns (ghost m': Mem, ghost t': Tree)
      requires !done ==> node.red && DeleteState(m, node, past, c, t)
      requires done ==> Agrees(m) && Repaired(m, nil, root, t) && !nil.red && !node.red && (node == nil || node in m)
      modifies node`red
      ensures Agrees(m') && m'.Keys == m.Keys && Repaired(m', nil, root, t') && !nil.red
      ensures Inorder(t') == if done then Inorder(t) else Order(c, t)
    {
      if !done {
        LookFocus(m, c, t);
        BlackenShort(m, nil, root, c, t);
        t' := Plug(c, t.(red := false));
      } else {
        assert node in m ==> CellOf(node) == m[node];
        assert node in m ==> Painted(m, node, false) == m;
        t' := t;
      }
      hide Holds, RedBlack;
      m' := Paint(node, false, m);
    }

    // ----- bstree.c: search and deletion -----

    /** `bstree_node_query` on the whole tree. */
    method Query(key: int) returns (node: BNode, ghost c: Ctx, ghost t: Tree)
      requires Valid()
      ensures node != nil ==>
        && Holds(mem, nil, root, c, t) && Plug(c, t) == shape && t.Node? && node == t.id
        && node in Inorder(shape) && cmp(key, node.key) == 0
      ensures Ordered() && OrderOn(cmp, Keys() + {key}) ==>
        (node == nil <==> key !in Keys()) && (node != nil ==> node.key == key)
    {
      var parent;
      node, parent, c, t := Descend(key);
      PlaceOrder(key, c, t);
    }

    /** The leftmost node below the right child. */
    method Leftmost(node: BNode, ghost m: Mem, ghost c: Ctx, ghost t: Tree)
      returns (succ: BNode, ghost c': Ctx, ghost t': Tree)
      requires At(m, c, t) && t.Node? && node == t.id
      ensures Holds(m, nil, root, c', t') && Plug(c', t') == Plug(c, t) && t'.Node? && succ == t'.id && t'.l.Leaf?
      ensures Before(c') == Before(c) && Inorder(t) != [] && succ == Inorder(t)[0]
    {
      succ, c', t' := node, c, t;
      LookFocus(m, c', t');
      while succ.left != nil
        invariant Holds(m, nil, root, c', t') && Plug(c', t') == Plug(c, t) && t'.Node? && succ == t'.id
        invariant Before(c') == Before(c) && (succ.left == nil <==> t'.l.Leaf?)
        invariant Inorder(t) != [] && Inorder(t')[0] == Inorder(t)[0]
        decreases t'
      {
        LookFocus(m, c', t');
        Down(m, nil, root, c', Left, t');
        c', t' := In(Left, t'.id, t'.red, t'.r, c'), t'.l;
        succ := succ.left;
        LookFocus(m, c', t');
      }
    }

    /** `bstree_node_successor`: the next node in order, or `nil` after the last. */
    method Successor(node: BNode, ghost m: Mem, ghost c: Ctx, ghost t: Tree)
      returns (succ: BNode, ghost c': Ctx, ghost t': Tree)
      requires At(m, c, t) && t.Node? && node == t.id
      ensures t.r.Node? ==>
        && Holds(m, nil, root, c', t') && Plug(c', t') == Plug(c, t) && t'.Node? && succ == t'.id && t'.l.Leaf?
        && Before(c') == Before(c) + Inorder(t.l) + [node]
      ensures succ == if Upper(c, t) == [] then nil else Upper(c, t)[0]
    {
      hide Holds, Agrees, Inorder, Upper;
      UpperFirst(c, t);
      LookFocus(m, c, t);
      AtFocus(m, nil, root, c, t);
      c', t' := c, t;
      if node.right != nil {
        Down(m, nil, root, c, Right, t);
        succ, c', t' := Leftmost(node.right, m, In(Right, t.id, t.red, t.l, c), t.r);
      } else {
        var node := node;
        succ := node.parent;
        if c'.In? { LookAbove(m, c', t'); }
        while node == succ.right
          invariant At(m, c', t') && t'.Node? && node == t'.id && succ == Above(root, c') && After(c') == After(c)
          invariant node == succ.right <==> c'.In? && c'.side == Right
          decreases Depth(c')
        {
          LookAbove(m, c', t');
          Up(m, nil, root, c', t');
          node := succ;
          succ := succ.parent;
          c', t' := c'.up, Mk(c'.side, c'.id, c'.red, t', c'.sib);
          LookFocus(m, c', t');
          if c'.In? { LookAbove(m, c', t'); }
        }
        LookFocus(m, c', t');
        if c'.In? { LookAbove(m, c', t'); }
        if succ == root {
          succ := nil;
        }
      }
    }

    /** The links that cut `y`, which has a missing child, out of the tree. */
    method SpliceLinks(y: BNode, ghost m: Mem) returns (x: BNode)
      requires Agrees(m) && y in m
      requires CanSplice(m, nil, y, if m[y].left == nil then m[y].right else m[y].left, m[y].parent)
      requires root in m && y != root && (m[y].parent == root ==> m[root].left == y) && root !in {m[y].left, m[y].right}
      modifies m.Keys, nil
      ensures NilOk() && nil.red == old(nil.red) && x == (if m[y].left == nil then m[y].right else m[y].left)
      ensures x.parent == m[y].parent && CellOf(y) == m[y]
      ensures forall n :: n in m ==> CellOf(n) == SplicedCell(m, nil, y, x, m[y].parent, n)
    {
      assert CellOf(y) == m[y] && CellOf(y.parent) == m[y.parent];
      x := if y.left == nil then y.right else y.left;
      assert x != nil ==> CellOf(x) == m[x];
      x.parent := y.parent;
      if x.parent == root {
        root.left := x;
      } else {
        y.parent.ReplaceChild(y, x);
      }
    }

    /** The same on the tree in focus. */
    method Splice(y: BNode, ghost m: Mem, ghost c: Ctx, ghost t: Tree) returns (x: BNode, ghost m': Mem)
      requires At(m, c, t) && t.Node? && t.id == y && (t.l.Leaf? || t.r.Leaf?)
      modifies m.Keys, nil
      ensures At(m', c, OnlyChild(t)) && m'.Keys == m.Keys - {y} && CellOf(y) == m[y] && nil.red == old(nil.red)
      ensures x == Ptr(nil, OnlyChild(t)) && x.parent == Above(root, c)
    {
      hide Holds, Rep, Plug;
      AtFocus(m, nil, root, c, t);
      RbShape.SpliceLinks(m, nil, root, c, t);
      SplicedHolds(m, nil, root, c, t);
      x := SpliceLinks(y, m);
      m' := SplicedMem(m, nil, y, x, Above(root, c));
      assert forall n :: n in m' ==> CellOf(n) == m'[n];
    }

    /** The links that put `y`, cut out before, in the place of `victim`. */
    method TakePlace(victim: BNode, y: BNode, ghost m: Mem)
      requires Agrees(m) && CanReplace(m, nil, victim, y)
      modifies m.Keys, nil, y
      ensures NilOk() && nil.red == old(nil.red)
      ensures CellOf(y) == ReplacedCell(m, nil, victim, y, old(CellOf(y)), y)
      ensures forall n :: n in m && n != victim ==> CellOf(n) == ReplacedCell(m, nil, victim, y, old(CellOf(y)), n)
    {
      hide Relink;
      assert CellOf(victim) == m[victim] && CellOf(victim.parent) == m[victim.parent];
      y.CopyLinks(victim);
      victim.right.parent := y;
      victim.left.parent := y;
      victim.parent.ReplaceChild(victim, y);
    }

    method Replace(victim: BNode, y: BNode, ghost m: Mem, ghost c: Ctx, ghost t: Tree) returns (ghost m': Mem)
      requires At(m, c, t) && t.Node? && t.id == victim && y !in m && y != nil
      modifies m.Keys, nil, y
      ensures At(m', c, Node(y, t.red, t.l, t.r)) && m'.Keys == m.Keys - {victim} + {y} && nil.red == old(nil.red)
    {
      hide Holds, Rep, ReplacedCell;
      ReplaceLinks(m, nil, root, c, t, y);
      ghost var oldY := CellOf(y);
      ReplacedHolds(m, nil, root, c, t, y, oldY);
      TakePlace(victim, y, m);
      m' := ReplacedMem(m, nil, victim, y, oldY);
      assert forall n :: n in m' ==> CellOf(n) == m'[n];
    }

    /** Which node `bstree_delete` cuts out: the victim, or the victim's successor. */
    method Choose(victim: BNode, ghost c: Ctx, ghost t: Tree) returns (y: BNode, ghost cy: Ctx, ghost ty: Tree)
      requires Valid() && Holds(mem, nil, root, c, t) && Plug(c, t) == shape && t.Node? && t.id == victim
      ensures Holds(mem, nil, root, cy, ty) && Plug(cy, ty) == Plug(c, t) && ty.Node? && ty.id == y
      ensures ty.l.Leaf? || ty.r.Leaf?
      ensures y in mem && y != nil
      ensures y == victim ==> cy == c && ty == t
      ensures y != victim ==>
        && Lower(cy, ty) + Upper(cy, ty) == Lower(c, t) + [victim] + Upper(cy, ty)
        && Lower(c, t) + [y] + Upper(cy, ty) == Lower(c, t) + Upper(c, t)
    {
      FocusOrder(c, t);
      LookFocus(mem, c, t);
      if victim.left == nil || victim.right == nil {
        y, cy, ty := victim, c, t;
      } else {
        y, cy, ty := Successor(victim, mem, c, t);
        SuccessorOrder(c, t, cy, ty);
        SameFocus(mem, nil, root, c, t, cy, ty);
        DeleteOrder(c, t, cy, ty);
        AtFocus(mem, nil, root, cy, ty);
      }
    }

    lemma ProperColours(c: Ctx, t: Tree)
      requires Valid() && Plug(c, t) == shape
      ensures RedBlack(Plug(c, t)) && !Red(Plug(c, t)) && !nil.red && Agrees(mem)
    {
    }

    /** Cuts `y` out of the tree and repairs the rest. */
    method Unlink(y: BNode, ghost c: Ctx, ghost t: Tree) returns (ghost m: Mem, ghost t': Tree)
      requires Claim() == NoAux
      requires Valid() && Holds(mem, nil, root, c, t) && Plug(c, t) == shape && t.Node? && t.id == y
      requires t.l.Leaf? || t.r.Leaf?
      modifies mem.Keys, nil
      ensures Agrees(m) && Repaired(m, nil, root, t') && !nil.red && m.Keys == mem.Keys - {y}
      ensures Inorder(t') == Lower(c, t) + Upper(c, t)
    {
      hide Holds, Repaired, Order, Inorder, Plug, RedBlack, Short, OnlyChild;
      FocusOrder(c, t);
      ProperColours(c, t);
      SplicedColours(c, t);
      LookFocus(mem, c, t);
      var x;
      x, m := Splice(y, mem, c, t);
      m, t' := FixSpliced(x, y, m, c, t);
    }

    /** The climbs of `bstree_delete`; here no augmented field is claimed to be right. */
    method RepairAuxCut(x: BNode, ghost m: Mem, ghost c: Ctx, ghost t: Tree) returns (ghost m': Mem)
      requires At(m, c, t) && x == Ptr(nil, t) && x.parent == Above(root, c) && Claim() == NoAux
      modifies m.Keys, nil`count, nil`maxHigh
      ensures At(m', c, t) && m'.Keys == m.Keys && x.parent == Above(root, c)
    {
      m' := m;
      if t.Node? { NoAuxClimbing(m, nil, root, c, t); }
      if aux == Intervals {
        m' := HighFixup(x, m, c, t, 0);
      } else if aux == Counts {
        m' := CountFixup(x, true, m, c, t, 0);
      }
      LookFocus(m', c, t);
    }

    /** `nil` hangs where it was left. */
    lemma HangsAt(m: Mem, c: Ctx)
      requires At(m, c, Leaf) && nil.parent == Above(root, c)
      ensures NilHangs(m)
    {
      AtFocus(m, nil, root, c, Leaf);
      if c.In? { AtAbove(m, nil, root, c, Leaf); }
    }

    /** The repair is needed only if the node cut out was black. */
    method FixSpliced(x: BNode, y: BNode, ghost m: Mem, ghost c: Ctx, ghost t: Tree)
      returns (ghost m': Mem, ghost t': Tree)
      requires t.Node? && (t.l.Leaf? || t.r.Leaf?) && At(m, c, OnlyChild(t)) && !nil.red && y.red == t.red
      requires !t.red ==> Short(c, OnlyChild(t)) && (OnlyChild(t).Node? ==> Red(OnlyChild(t)))
      requires t.red ==> RedBlack(Plug(c, OnlyChild(t))) && !Red(Plug(c, OnlyChild(t)))
      requires x == Ptr(nil, OnlyChild(t)) && x.parent == Above(root, c) && y !in m && y != nil && Claim() == NoAux
      modifies m.Keys, nil
      ensures Agrees(m') && Repaired(m', nil, root, t') && !nil.red && m'.Keys == m.Keys
      ensures Inorder(t') == Order(c, OnlyChild(t))
    {
      hide Holds, Short, RedBlack, Order, Inorder, Plug, OnlyChild, Agrees, NilOk, CellOf;
      LookNil(m);
      LookFocus(m, c, OnlyChild(t));
      if !y.red {
        m' := RepairAuxCut(x, m, c, OnlyChild(t));
        LookFocus(m', c, OnlyChild(t));
        if OnlyChild(t).Leaf? { HangsAt(m', c); }
        m', t' := DeleteFixup(x, m', c, OnlyChild(t));
      } else {
        m', t' := m, Plug(c, OnlyChild(t));
        PlugHolds(m, nil, root, c, OnlyChild(t));
        PlugOrder(c, OnlyChild(t));
      }
    }

    lemma NoRepeatAt(m: Mem, t: Tree)
      requires Repaired(m, nil, root, t)
      ensures NoRepeat(Inorder(t))
    {
      InorderNoRepeat(t);
    }

    /** The second half: a successor takes the victim's place. */
    method Reseat(victim: BNode, y: BNode, ghost m: Mem, ghost t: Tree, ghost p: seq<BNode>, ghost q: seq<BNode>)
      returns (ghost m': Mem, ghost t': Tree)
      requires Agrees(m) && Repaired(m, nil, root, t) && !nil.red && y !in m && y != nil
      requires Inorder(t) == p + [victim] + q
      modifies m.Keys, nil, y
      ensures Agrees(m') && Repaired(m', nil, root, t') && !nil.red && m'.Keys == m.Keys - {victim} + {y}
      ensures Inorder(t') == p + [y] + q
    {
      InorderIds(t);
      NoRepeatAt(m, t);
      assert victim in Inorder(t);
      ghost var c, u := FindFocus(t, victim);
      PlugHolds(m, nil, root, c, u);
      m' := Replace(victim, y, m, c, u);
      t' := Plug(c, Node(y, u.red, u.l, u.r));
      PlugHolds(m', nil, root, c, Node(y, u.red, u.l, u.r));
      ReplacedPlace(c, u, y, p, q);
      ReplacedColours(c, u, y);
    }

    /** Everything a deletion does to the nodes. */
    method DeleteNodes(victim: BNode, ghost c: Ctx, ghost t: Tree) returns (ghost m: Mem, ghost t': Tree)
      requires Valid() && Holds(mem, nil, root, c, t) && Plug(c, t) == shape && t.Node? && t.id == victim
      requires Claim() == NoAux
      modifies mem.Keys, nil
      ensures Agrees(m) && Repaired(m, nil, root, t') && !nil.red && m.Keys == mem.Keys - {victim}
      ensures Inorder(t') == Lower(c, t) + Upper(c, t)
    {
      hide Valid, Proper, Holds, Repaired, Agrees, Lower, Upper;
      var y;
      ghost var cy, ty;
      y, cy, ty := Choose(victim, c, t);
      m, t' := Unlink(y, cy, ty);
      if y != victim {
        KeySwap(mem.Keys, victim, y);
        m, t' := Reseat(victim, y, m, t', Lower(c, t), Upper(cy, ty));
      }
    }

    /** The other nodes, in order. */
    lemma RestOf(c: Ctx, t: Tree)
      requires Valid() && Plug(c, t) == shape && t.Node?
      ensures var rest := Lower(c, t) + Upper(c, t);
        && Inorder(shape) == Lower(c, t) + [t.id] + Upper(c, t) && |rest| == current - 1
        && (Ordered() ==>
              && Sorted(cmp, rest) && OrderOn(cmp, KeysOf(rest))
              && EntriesOf(rest) == Entries() - {(t.id.key, t.id.data)} && KeysOf(rest) == Keys() - {t.id.key})
    {
      FocusOrder(c, t);
      if Ordered() {
        WithoutSorted(cmp, Lower(c, t), t.id, Upper(c, t));
        WithoutEntries(cmp, Lower(c, t), t.id, Upper(c, t));
        OrderSome(cmp, Keys(), Keys() - {t.id.key});
      }
    }

    lemma RepairedProper(m: Mem, t: Tree)
      requires Claim() == NoAux && Agrees(m) && Repaired(m, nil, root, t) && !nil.red
      ensures Proper(m, t, |Inorder(t)|)
    {
      NoAuxGood(m, nil, root, Top, t);
    }

    /** From here on no augmented field is claimed to be right. */
    method Unclaim()
      requires Valid()
      modifies this`sound
      ensures Valid() && !sound
    {
      NoAuxGood(mem, nil, root, Top, shape);
      sound := false;
    }

    /** `bstree_delete`, on any kind of tree. */
    method Delete(victim: BNode, ghost c: Ctx, ghost t: Tree) returns (r: Status)
      requires Valid() && Holds(mem, nil, root, c, t) && Plug(c, t) == shape && t.Node? && t.id == victim
      modifies this, mem.Keys, nil
      ensures Valid() && !sound && r == OK && current == old(current) - 1 && mem.Keys == old(mem.Keys) - {victim}
      ensures Inorder(shape) == Lower(c, t) + Upper(c, t) && old(Inorder(shape)) == Lower(c, t) + [victim] + Upper(c, t)
      ensures old(Ordered()) ==>
        && Ordered() && Entries() == old(Entries()) - {(victim.key, victim.data)}
        && Keys() == old(Keys()) - {victim.key}
    {
      hide Valid, Proper, Holds, Repaired, Agrees, Sorted, OrderOn, EntriesOf, KeysOf, Lower, Upper;
      RestOf(c, t);
      Unclaim();
      ghost var m, t';
      m, t' := DeleteNodes(victim, c, t);
      RepairedProper(m, t');
      ProperChecks(m, t', current - 1);
      var ok := CheckRules(m, t');
      if !ok {
        return ERROR;
      }
      Commit(current - 1, m, t');
      return OK;
    }

    /** `bstree_remove`: an error exactly when the key is not there. */
    method Remove(key: int) returns (r: Status)
      requires Valid()
      modifies this, mem.Keys, nil
      ensures Valid() && mem.Keys <= old(mem.Keys)
      ensures r == ERROR ==> mem == old(mem) && shape == old(shape) && current == old(current) && sound == old(sound)
      ensures r == OK ==> !sound && current == old(current) - 1
      ensures r == OK ==> exists a, n, b ::
        old(Inorder(shape)) == a + [n] + b && Inorder(shape) == a + b && cmp(key, n.key) == 0
      ensures old(Ordered()) && OrderOn(cmp, old(Keys()) + {key}) ==>
        && Ordered() && (r == OK <==> key in old(Keys()))
        && Keys() == old(Keys()) - {key} && Entries() == set e | e in old(Entries()) && e.0 != key
    {
      var victim;
      ghost var c, t;
      victim, c, t := Query(key);
      if victim == nil {
        if Ordered() { OneEntryEach(key); }
        return ERROR;
      }
      if Ordered() { OneEntryEach(victim.key); }
      r := Delete(victim, c, t);
      assert old(Inorder(shape)) == Lower(c, t) + [victim] + Upper(c, t);
    }

    /** A key has one entry at most. */
    lemma OneEntryEach(key: int)
      requires Ordered()
      ensures forall n :: n in Inorder(shape) && n.key == key ==>
        Entries() - {(n.key, n.data)} == set e | e in Entries() && e.0 != key
      ensures key !in Keys() ==> Entries() == set e | e in Entries() && e.0 != key
    {
    }
  }
}
