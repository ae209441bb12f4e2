/** What the red-black rules, the key order and the augmented fields say about a tree and about
    the context around it (`src/ds/rbtree.c`, `src/ds/inttree_node.c`, `src/ds/ostree_node.c`). */
module RbShape {
  import opened KeyOrder
  import opened TreeShape

  // ----- Colours -----

  function Red(t: Tree): bool { t.Node? && t.red }
  function CtxRed(c: Ctx): bool { c.In? && c.red }

  /** Black nodes on the leftmost path, as `rbtree_node_black_height` counts them. */
  function BlackHeight(t: Tree): nat {
    if t.Leaf? then 0 else BlackHeight(t.l) + if t.red then 0 else 1
  }

  /** No red node has a red child, and every path down has the same number of black nodes. */
  predicate RedBlack(t: Tree) {
    t.Node? ==>
      && RedBlack(t.l) && RedBlack(t.r) && BlackHeight(t.l) == BlackHeight(t.r)
      && (t.red ==> !Red(t.l) && !Red(t.r))
  }

  /** `RedBlack`, but the root and its children may both be red. */
  predicate RedBlackBelow(t: Tree) {
    t.Node? ==> RedBlack(t.l) && RedBlack(t.r) && BlackHeight(t.l) == BlackHeight(t.r)
  }

  lemma SubRedBlack(t: Tree, s: Side)
    requires t.Node? && RedBlack(t)
    ensures RedBlack(t.Sub(s)) && BlackHeight(t.Sub(s)) + (if t.red then 0 else 1) == BlackHeight(t)
    ensures t.red ==> !Red(t.Sub(s))
  {
  }

  lemma MkRedBlack(s: Side, id: BNode, red: bool, a: Tree, b: Tree)
    requires RedBlack(a) && RedBlack(b) && BlackHeight(a) == BlackHeight(b) && (red ==> !Red(a) && !Red(b))
    ensures RedBlack(Mk(s, id, red, a, b))
    ensures BlackHeight(Mk(s, id, red, a, b)) == BlackHeight(a) + if red then 0 else 1
  {
  }

  lemma BlackenRedBlack(t: Tree)
    requires t.Node? && t.red && RedBlackBelow(t)
    ensures RedBlack(t.(red := false)) && BlackHeight(t.(red := false)) == BlackHeight(t) + 1
  {
  }

  /** Around a hole that takes a subtree of black height `h`; the topmost node is black. */
  predicate CtxRedBlack(c: Ctx, h: int) {
    c.In? ==>
      && RedBlack(c.sib) && BlackHeight(c.sib) == h
      && (c.red ==> c.up.In? && !c.up.red && !Red(c.sib))
      && CtxRedBlack(c.up, if c.red then h else h + 1)
  }

  lemma {:induction false} PlugRedBlack(c: Ctx, t: Tree)
    requires RedBlack(t) && CtxRedBlack(c, BlackHeight(t)) && (Red(t) ==> !CtxRed(c))
    ensures RedBlack(Plug(c, t)) && (c.In? ==> !Red(Plug(c, t)))
  {
    if c.In? {
      var p := Mk(c.side, c.id, c.red, t, c.sib);
      PlugRedBlack(c.up, p);
      if c.up.Top? { assert !Red(p); }
    }
  }

  /** Any subtree of a red-black tree is one, and the context around it takes its black height. */
  lemma {:induction false} UnplugRedBlack(c: Ctx, t: Tree)
    requires RedBlack(Plug(c, t)) && !Red(Plug(c, t))
    ensures RedBlack(t) && CtxRedBlack(c, BlackHeight(t)) && (Red(t) ==> c.In? && !c.red)
  {
    if c.In? {
      UnplugRedBlack(c.up, Mk(c.side, c.id, c.red, t, c.sib));
    }
  }

  /** Red-black but for one red node `t` whose parent may be red. */
  predicate Inserted(c: Ctx, t: Tree) {
    RedBlack(t) && Red(t) && CtxRedBlack(c, BlackHeight(t))
  }

  /** Red-black but for `t`, which is one black node short; a red `t` may have red children. */
  predicate Short(c: Ctx, t: Tree) {
    RedBlackBelow(t) && CtxRedBlack(c, BlackHeight(t) + 1)
  }

  /** The line after the repair of an insertion. */
  function Blackened(t: Tree): Tree {
    if t.Leaf? then t else t.(red := false)
  }

  // ----- Order -----

  function Inorder(t: Tree): seq<BNode> {
    if t.Leaf? then [] else Inorder(t.l) + [t.id] + Inorder(t.r)
  }

  /** The nodes before and after the hole. */
  function Before(c: Ctx): seq<BNode> {
    if c.Top? then [] else if c.side == Left then Before(c.up) else Before(c.up) + Inorder(c.sib) + [c.id]
  }
  function After(c: Ctx): seq<BNode> {
    if c.Top? then [] else if c.side == Left then [c.id] + Inorder(c.sib) + After(c.up) else After(c.up)
  }

  /** All nodes, in order. */
  function Order(c: Ctx, t: Tree): seq<BNode> {
    Before(c) + Inorder(t) + After(c)
  }

  lemma UpOrder(c: Ctx, t: Tree)
    requires c.In?
    ensures Order(c, t) == Order(c.up, Mk(c.side, c.id, c.red, t, c.sib))
  {
  }

  lemma {:induction false} PlugOrder(c: Ctx, t: Tree)
    ensures Order(c, t) == Inorder(Plug(c, t))
  {
    if c.In? {
      UpOrder(c, t);
      PlugOrder(c.up, Mk(c.side, c.id, c.red, t, c.sib));
    }
  }

  lemma RotatedInorder(s: Side, t: Tree)
    requires t.Node? && t.Sub(s.Other()).Node?
    ensures Inorder(Rotated(s, t)) == Inorder(t)
  {
    var y := t.Sub(s.Other());
    if s == Left {
      assert Inorder(t) == Inorder(t.l) + [t.id] + (Inorder(y.l) + [y.id] + Inorder(y.r));
    } else {
      assert Inorder(t) == (Inorder(y.l) + [y.id] + Inorder(y.r)) + [t.id] + Inorder(t.r);
    }
  }

  predicate Sorted(cmp: Compare, s: seq<BNode>) {
    forall i, j :: 0 <= i < j < |s| ==> cmp(s[i].key, s[j].key) < 0
  }

  /** In a tree no node occurs twice. */
  predicate NoRepeat(s: seq<BNode>) {
    forall i, j :: 0 <= i < j < |s| ==> s[i] != s[j]
  }

  lemma {:induction false} InorderNoRepeat(t: Tree)
    requires Distinct(t)
    ensures NoRepeat(Inorder(t))
  {
    if t.Node? {
      InorderNoRepeat(t.l);
      InorderNoRepeat(t.r);
      InorderIds(t.l);
      InorderIds(t.r);
      NoRepeatAround(Inorder(t.l), t.id, Inorder(t.r));
    }
  }

  lemma NoRepeatAround(a: seq<BNode>, x: BNode, b: seq<BNode>)
    requires NoRepeat(a) && NoRepeat(b) && x !in a && x !in b && forall n :: n in a ==> n !in b
    ensures NoRepeat(a + [x] + b)
  {
    var s := a + [x] + b;
    forall i, j | 0 <= i < j < |s| ensures s[i] != s[j] {
      assert i < |a| ==> s[i] == a[i] && a[i] in a;
      assert j > |a| ==> s[j] == b[j - |a| - 1] && b[j - |a| - 1] in b;
      assert i > |a| ==> s[i] == b[i - |a| - 1];
    }
  }

  /** The pairs of a key and its datablock, and the keys, among some nodes. */
  ghost function EntriesOf(s: seq<BNode>): set<(int, int)> {
    set n | n in s :: (n.key, n.data)
  }

  ghost function KeysOf(s: seq<BNode>): set<int> {
    set n | n in s :: n.key
  }

  lemma EntriesAround(a: seq<BNode>, n: BNode, b: seq<BNode>)
    ensures EntriesOf(a + [n] + b) == EntriesOf(a + b) + {(n.key, n.data)}
    ensures KeysOf(a + [n] + b) == KeysOf(a + b) + {n.key}
  {
    assert forall o :: o in a + [n] + b <==> o in a + b || o == n;
    assert n in a + [n] + b;
  }

  // ----- Augmented fields -----

  datatype Aux = NoAux | Counts | Intervals

  function Max(a: int, b: int): int { if a < b then b else a }

  /** What the augmented field of a node says. */
  function Field(aux: Aux, c: Cell): int {
    match aux
    case NoAux => 0
    case Counts => c.count
    case Intervals => c.max
  }

  function Combine(aux: Aux, a: int, b: int, n: BNode): int {
    match aux
    case NoAux => 0
    case Counts => a + b + 1
    case Intervals => Max(Max(a, b), n.data)
  }

  /** What it should say of a node with subtree `t`: its size, or its greatest high end. */
  function Value(aux: Aux, t: Tree): int {
    if t.Leaf? then if aux == Intervals then INT_MIN else 0
    else Combine(aux, Value(aux, t.l), Value(aux, t.r), t.id)
  }

  predicate Says(m: Mem, aux: Aux, id: BNode, v: int) {
    id in m && Field(aux, m[id]) == v
  }

  predicate Good(m: Mem, aux: Aux, t: Tree) {
    t.Node? ==> Says(m, aux, t.id, Value(aux, t)) && Good(m, aux, t.l) && Good(m, aux, t.r)
  }

  /** The real root of an interval tree is never refreshed by an insertion. */
  predicate Exempt(aux: Aux, c: Ctx) { aux == Intervals && c.Top? }

  /** The fields around a hole that takes a subtree of value `v`. */
  predicate CtxGood(m: Mem, aux: Aux, c: Ctx, v: int) {
    c.In? ==>
      var w := Combine(aux, v, Value(aux, c.sib), c.id);
      && Good(m, aux, c.sib)
      && (Exempt(aux, c.up) || Says(m, aux, c.id, w))
      && CtxGood(m, aux, c.up, w)
  }

  predicate GoodAt(m: Mem, aux: Aux, c: Ctx, t: Tree) {
    && CtxGood(m, aux, c, Value(aux, t))
    && (t.Node? ==> Good(m, aux, t.l) && Good(m, aux, t.r) && (Exempt(aux, c) || Says(m, aux, t.id, Value(aux, t))))
  }

  lemma UpGood(m: Mem, aux: Aux, c: Ctx, t: Tree)
    requires c.In?
    ensures GoodAt(m, aux, c, t) <==> GoodAt(m, aux, c.up, Mk(c.side, c.id, c.red, t, c.sib))
  {
  }

  lemma FrameGood(m: Mem, m': Mem, aux: Aux, t: Tree)
    requires Good(m, aux, t)
    requires forall n :: n in Ids(t) ==> n in m && n in m' && Field(aux, m'[n]) == Field(aux, m[n])
    ensures Good(m', aux, t)
  {
  }

  lemma FrameCtxGood(m: Mem, m': Mem, aux: Aux, c: Ctx, v: int)
    requires CtxGood(m, aux, c, v)
    requires forall n :: n in CtxIds(c) ==> n in m && n in m' && Field(aux, m'[n]) == Field(aux, m[n])
    ensures CtxGood(m', aux, c, v)
  {
    if c.In? {
      FrameGood(m, m', aux, c.sib);
    }
  }

  lemma FrameGoodAt(m: Mem, m': Mem, aux: Aux, c: Ctx, t: Tree)
    requires GoodAt(m, aux, c, t)
    requires forall n :: n in Ids(t) + CtxIds(c) ==> n in m && n in m' && Field(aux, m'[n]) == Field(aux, m[n])
    ensures GoodAt(m', aux, c, t)
  {
    FrameCtxGood(m, m', aux, c, Value(aux, t));
    if t.Node? {
      FrameGood(m, m', aux, t.l);
      FrameGood(m, m', aux, t.r);
    }
  }

  /** The augmented field read through a link, which may lead to `nil`. */
  function Looked(m: Mem, aux: Aux, n: BNode): int {
    if n in m then Field(aux, m[n]) else if aux == Intervals then INT_MIN else 0
  }

  lemma RotatedValue(aux: Aux, s: Side, t: Tree)
    requires t.Node? && t.Sub(s.Other()).Node?
    ensures Value(aux, Rotated(s, t)) == Value(aux, t)
  {
  }

  /** What a rotation writes into the augmented fields of the two nodes it turns. */
  ghost predicate Refreshed(m: Mem, m': Mem, nil: BNode, aux: Aux, s: Side, t: Tree)
    requires t.Node? && t.Sub(s.Other()).Node?
  {
    var y := t.Sub(s.Other());
    && m'.Keys == m.Keys && t.id in m && y.id in m && nil !in m
    && (forall n :: n in m && n != t.id && n != y.id ==> Field(aux, m'[n]) == Field(aux, m[n]))
    && Field(aux, m'[t.id])
      == Combine(aux, Looked(m, aux, Ptr(nil, t.Sub(s))), Looked(m, aux, Ptr(nil, y.Sub(s))), t.id)
    && Field(aux, m'[y.id]) == Combine(aux, Field(aux, m'[t.id]), Looked(m, aux, Ptr(nil, y.Sub(s.Other()))), y.id)
  }

  /** The links of the two turned nodes, and the fields left alone. */
  lemma TurnedLinks(m: Mem, nil: BNode, root: BNode, aux: Aux, c: Ctx, s: Side, t: Tree)
    requires Holds(m, nil, root, c, t) && t.Node? && t.Sub(s.Other()).Node?
    ensures CanRotate(m, nil, s, t.id)
    ensures var m1 := RotatedMem(m, nil, s, t.id);
      var y := t.Sub(s.Other());
      && Holds(m1, nil, root, c, Rotated(s, t)) && m1.Keys == m.Keys
      && Links(m1, t.id, y.id, t.red, s, Ptr(nil, t.Sub(s)), Ptr(nil, y.Sub(s)))
      && Links(m1, y.id, Above(root, c), y.red, s, t.id, Ptr(nil, y.Sub(s.Other())))
      && (forall n :: n in m ==> Field(aux, m1[n]) == Field(aux, m[n]))
      && t.id != y.id && Above(root, c) != y.id && m[t.id].Child(s.Other()) == y.id
  {
    hide Holds, Rep, RotatedMem, CanRotate;
    RotationLinks(m, nil, root, c, s, t);
    RotatedHolds(m, nil, root, c, s, t);
    RotatedLinks(m, nil, root, c, s, t);
    TurnedFields(m, nil, aux, s, t.id);
    TurnedApart(m, nil, root, c, s, t);
  }

  lemma TurnedFields(m: Mem, nil: BNode, aux: Aux, s: Side, x: BNode)
    requires CanRotate(m, nil, s, x)
    ensures forall n :: n in m ==>
      n in RotatedMem(m, nil, s, x) && Field(aux, RotatedMem(m, nil, s, x)[n]) == Field(aux, m[n])
  {
  }

  lemma TurnedApart(m: Mem, nil: BNode, root: BNode, c: Ctx, s: Side, t: Tree)
    requires t.Node? && t.Sub(s.Other()).Node? && CanRotate(m, nil, s, t.id)
    requires Links(m, t.id, Above(root, c), t.red, s, Ptr(nil, t.Sub(s)), t.Sub(s.Other()).id)
    ensures t.id != t.Sub(s.Other()).id && Above(root, c) != t.Sub(s.Other()).id
  {
  }

  /** The children of the two nodes a rotation turns are other nodes, or `nil`. */
  lemma TurnedChildren(m: Mem, nil: BNode, root: BNode, c: Ctx, s: Side, t: Tree)
    requires Holds(m, nil, root, c, t) && t.Node? && t.Sub(s.Other()).Node?
    ensures var y := t.Sub(s.Other());
      forall u :: u in [t.Sub(s), y.Sub(s), y.Sub(s.Other())] ==>
        Ptr(nil, u) != t.id && Ptr(nil, u) != y.id && (Ptr(nil, u) in m || Ptr(nil, u) == nil)
  {
    RotationParts(s, t);
  }

  /** The subtree part of `RotatedGood`. */
  lemma GoodParts(m: Mem, aux: Aux, s: Side, t: Tree)
    requires t.Node? && t.Sub(s.Other()).Node? && Good(m, aux, t.l) && Good(m, aux, t.r)
    ensures var y := t.Sub(s.Other());
      Good(m, aux, t.Sub(s)) && Good(m, aux, y.Sub(s)) && Good(m, aux, y.Sub(s.Other()))
  {
  }

  lemma GoodNode(m: Mem, aux: Aux, s: Side, id: BNode, red: bool, a: Tree, b: Tree)
    requires Good(m, aux, a) && Good(m, aux, b) && Says(m, aux, id, Combine(aux, Value(aux, a), Value(aux, b), id))
    ensures Good(m, aux, Mk(s, id, red, a, b))
    ensures Value(aux, Mk(s, id, red, a, b)) == Combine(aux, Value(aux, a), Value(aux, b), id)
  {
  }

  lemma RotatedGoodBelow(m: Mem, m': Mem, nil: BNode, aux: Aux, s: Side, t: Tree)
    requires t.Node? && t.Sub(s.Other()).Node? && Refreshed(m, m', nil, aux, s, t)
    requires Ids(t) <= m.Keys && Distinct(t) && Good(m, aux, t.l) && Good(m, aux, t.r)
    ensures Good(m', aux, Rotated(s, t))
  {
    hide Good, Value, Combine, Field, Looked, Distinct, Ids;
    var y := t.Sub(s.Other());
    var A, B, C := t.Sub(s), y.Sub(s), y.Sub(s.Other());
    RotationParts(s, t);
    GoodParts(m, aux, s, t);
    LookedGood(m, nil, aux, A);
    LookedGood(m, nil, aux, B);
    LookedGood(m, nil, aux, C);
    FrameGood(m, m', aux, A);
    FrameGood(m, m', aux, B);
    FrameGood(m, m', aux, C);
    GoodNode(m', aux, s, t.id, t.red, A, B);
    GoodNode(m', aux, s, y.id, y.red, Mk(s, t.id, t.red, A, B), C);
  }

  lemma RotatedGood(m: Mem, m': Mem, nil: BNode, aux: Aux, c: Ctx, s: Side, t: Tree)
    requires t.Node? && t.Sub(s.Other()).Node? && GoodAt(m, aux, c, t) && Refreshed(m, m', nil, aux, s, t)
    requires Ids(t) <= m.Keys && CtxIds(c) <= m.Keys && Distinct(t) && Ids(t) !! CtxIds(c)
    ensures GoodAt(m', aux, c, Rotated(s, t))
  {
    RotationParts(s, t);
    RotatedValue(aux, s, t);
    RotatedGoodBelow(m, m', nil, aux, s, t);
    FrameCtxGood(m, m', aux, c, Value(aux, t));
  }

  /** One node's augmented field is recomputed from its children. */
  predicate AuxStep(aux: Aux, m: Mem, m': Mem, n: BNode) {
    && m'.Keys == m.Keys
    && (forall k :: k in m ==> SameLinks(m'[k], m[k]) && (k != n ==> m'[k] == m[k]))
    && n in m
    && Field(aux, m'[n]) == Combine(aux, Looked(m, aux, m[n].left), Looked(m, aux, m[n].right), n)
  }

  /** A whole rotation: the links, then the lowered node's field, then the raised one's. */
  lemma HoldsParts(m: Mem, nil: BNode, root: BNode, c: Ctx, t: Tree)
    requires Holds(m, nil, root, c, t)
    ensures Ids(t) <= m.Keys && CtxIds(c) <= m.Keys && Distinct(t) && Ids(t) !! CtxIds(c) && nil !in m
  {
  }

  lemma TwoSteps(aux: Aux, m1: Mem, m2: Mem, m': Mem, a: BNode, b: BNode)
    requires AuxStep(aux, m1, m2, a) && AuxStep(aux, m2, m', b)
    ensures m'.Keys == m1.Keys && forall n :: n in m1 ==> SameLinks(m'[n], m1[n])
  {
  }

  lemma RotationSteps(m: Mem, m2: Mem, m': Mem, nil: BNode, root: BNode, aux: Aux, c: Ctx, s: Side, t: Tree)
    requires Holds(m, nil, root, c, t) && t.Node? && t.Sub(s.Other()).Node? && CanRotate(m, nil, s, t.id)
    requires AuxStep(aux, RotatedMem(m, nil, s, t.id), m2, t.id) && AuxStep(aux, m2, m', t.Sub(s.Other()).id)
    ensures Holds(m', nil, root, c, Rotated(s, t))
    ensures GoodAt(m, aux, c, t) ==> GoodAt(m', aux, c, Rotated(s, t))
  {
    hide Holds, AuxStep, RotatedMem, CanRotate, Refreshed, CtxGood, Good, Links, Field, Rep, Ids, CtxIds, Distinct,
      SameLinks;
    var m1 := RotatedMem(m, nil, s, t.id);
    TurnedLinks(m, nil, root, aux, c, s, t);
    TwoSteps(aux, m1, m2, m', t.id, t.Sub(s.Other()).id);
    FrameAux(m1, m', nil, root, c, Rotated(s, t));
    if GoodAt(m, aux, c, t) {
      HoldsParts(m, nil, root, c, t);
      TurnedChildren(m, nil, root, c, s, t);
      TurnedRefreshed(m, m1, m2, m', nil, Above(root, c), aux, s, t);
      RotatedGood(m, m', nil, aux, c, s, t);
    }
  }

  lemma TurnedRefreshed(m: Mem, m1: Mem, m2: Mem, m': Mem, nil: BNode, top: BNode, aux: Aux, s: Side, t: Tree)
    requires t.Node? && t.Sub(s.Other()).Node? && nil !in m && m1.Keys == m.Keys && t.id != t.Sub(s.Other()).id
    requires forall n :: n in m ==> Field(aux, m1[n]) == Field(aux, m[n])
    requires var y := t.Sub(s.Other());
      && Links(m1, t.id, y.id, t.red, s, Ptr(nil, t.Sub(s)), Ptr(nil, y.Sub(s)))
      && Links(m1, y.id, top, y.red, s, t.id, Ptr(nil, y.Sub(s.Other())))
      && Ptr(nil, t.Sub(s)) !in {t.id, y.id} && Ptr(nil, y.Sub(s)) !in {t.id, y.id}
      && Ptr(nil, y.Sub(s.Other())) !in {t.id, y.id}
    requires AuxStep(aux, m1, m2, t.id) && AuxStep(aux, m2, m', t.Sub(s.Other()).id)
    ensures Refreshed(m, m', nil, aux, s, t)
  {
  }

  lemma {:induction false} PlugGood(m: Mem, aux: Aux, c: Ctx, t: Tree)
    ensures GoodAt(m, aux, c, t) <==> GoodAt(m, aux, Top, Plug(c, t))
  {
    if c.In? {
      UpGood(m, aux, c, t);
      PlugGood(m, aux, c.up, Mk(c.side, c.id, c.red, t, c.sib));
    }
  }

  /** Without augmented fields there is nothing to keep. */
  lemma NothingToKeep(m: Mem, nil: BNode, root: BNode, t: Tree, p: BNode)
    requires Rep(m, nil, t, p)
    ensures Good(m, NoAux, t) && Value(NoAux, t) == 0
  {
  }

  lemma NoAuxGood(m: Mem, nil: BNode, root: BNode, c: Ctx, t: Tree)
    requires Holds(m, nil, root, c, t)
    ensures GoodAt(m, NoAux, c, t)
  {
    PlugHolds(m, nil, root, c, t);
    NothingToKeep(m, nil, root, Plug(c, t), root);
    AtFocus(m, nil, root, Top, Plug(c, t));
    PlugGood(m, NoAux, c, t);
  }

  lemma NoAuxClimbing(m: Mem, nil: BNode, root: BNode, c: Ctx, t: Tree)
    requires Holds(m, nil, root, c, t) && t.Node?
    ensures Climbing(m, nil, root, NoAux, c, t, 0)
  {
    NoAuxGood(m, nil, root, c, t);
    NothingToKeep(m, nil, root, t, Above(root, c));
  }

  /** What a child link shows of a subtree whose fields are right. */
  lemma LookedGood(m: Mem, nil: BNode, aux: Aux, t: Tree)
    requires Good(m, aux, t) && nil !in m
    ensures Looked(m, aux, Ptr(nil, t)) == Value(aux, t)
  {
  }

  /** Only the node in focus and the nodes above it may have a stale field. */
  ghost predicate Climbing(m: Mem, nil: BNode, root: BNode, aux: Aux, c: Ctx, t: Tree, v: int) {
    Holds(m, nil, root, c, t) && t.Node? && Good(m, aux, t.l) && Good(m, aux, t.r) && CtxGood(m, aux, c, v)
  }

  /** The node in focus is refreshed. */
  lemma ClimbStep(m: Mem, m': Mem, nil: BNode, root: BNode, aux: Aux, c: Ctx, t: Tree, v: int)
    requires Climbing(m, nil, root, aux, c, t, v) && AuxStep(aux, m, m', t.id)
    ensures Climbing(m', nil, root, aux, c, t, v) && Good(m', aux, t) && m'.Keys == m.Keys
  {
    AtFocus(m, nil, root, c, t);
    LookedGood(m, nil, aux, t.l);
    LookedGood(m, nil, aux, t.r);
    ClimbWrite(m, m', nil, root, aux, c, t, v);
  }

  /** Only the augmented fields of the node in focus are written. */
  lemma ClimbWrite(m: Mem, m': Mem, nil: BNode, root: BNode, aux: Aux, c: Ctx, t: Tree, v: int)
    requires Climbing(m, nil, root, aux, c, t, v) && m'.Keys == m.Keys
    requires forall k :: k in m ==> SameLinks(m'[k], m[k]) && (k != t.id ==> m'[k] == m[k])
    ensures Climbing(m', nil, root, aux, c, t, v)
  {
    FrameAux(m, m', nil, root, c, t);
    HoldsKeys(m, nil, root, c, t);
    FrameGood(m, m', aux, t.l);
    FrameGood(m, m', aux, t.r);
    FrameCtxGood(m, m', aux, c, v);
  }

  lemma ClimbUp(m: Mem, nil: BNode, root: BNode, aux: Aux, c: Ctx, t: Tree, v: int)
    requires Climbing(m, nil, root, aux, c, t, v) && Good(m, aux, t) && c.In?
    ensures Climbing(m, nil, root, aux, c.up, Mk(c.side, c.id, c.red, t, c.sib),
                     Combine(aux, v, Value(aux, c.sib), c.id))
  {
    Up(m, nil, root, c, t);
  }

  // ----- The steps of `rbtree_insert_fixup` -----

  /** What holds at the head of the loop. */
  ghost predicate InsertLoop(m: Mem, nil: BNode, root: BNode, aux: Aux, c: Ctx, t: Tree) {
    Holds(m, nil, root, c, t) && Inserted(c, t) && GoodAt(m, aux, c, t)
  }

  lemma LoopParts(m: Mem, nil: BNode, root: BNode, aux: Aux, c: Ctx, t: Tree)
    requires InsertLoop(m, nil, root, aux, c, t)
    ensures Holds(m, nil, root, c, t) && Inserted(c, t) && GoodAt(m, aux, c, t)
  {
  }

  /** A red parent is not the real root. */
  lemma InsertedGrandparent(c: Ctx, t: Tree)
    requires Inserted(c, t) && CtxRed(c)
    ensures c.up.In? && !c.up.red
  {
  }

  // Parent and uncle are red: both turn black, the grandparent red.

  function UncleMem(m: Mem, c: Ctx): Mem
    requires c.In? && c.up.In? && c.up.sib.Node? && c.id in m && c.up.id in m && c.up.sib.id in m
  {
    Painted(Painted(Painted(m, c.id, false), c.up.sib.id, false), c.up.id, true)
  }

  function UncleTree(c: Ctx, t: Tree): Tree
    requires c.In? && c.up.In? && c.up.sib.Node?
  {
    Mk(c.up.side, c.up.id, true, Mk(c.side, c.id, false, t, c.sib), c.up.sib.(red := false))
  }

  lemma UncleColours(c: Ctx, t: Tree)
    requires Inserted(c, t) && CtxRed(c) && Red(c.up.sib)
    ensures c.up.In? && Inserted(c.up.up, UncleTree(c, t)) && Order(c.up.up, UncleTree(c, t)) == Order(c, t)
  {
    assert CtxRedBlack(c.up, BlackHeight(t));
    assert RedBlack(Mk(c.side, c.id, false, t, c.sib));
    assert RedBlack(c.up.sib.(red := false));
    var p := Mk(c.side, c.id, c.red, t, c.sib);
    UpOrder(c, t);
    UpOrder(c.up, p);
    assert Inorder(c.up.sib.(red := false)) == Inorder(c.up.sib);
    assert Inorder(Mk(c.side, c.id, false, t, c.sib)) == Inorder(p);
  }

  /** Colours are no part of what the augmented fields say. */
  lemma UncleGood(m: Mem, aux: Aux, c: Ctx, t: Tree)
    requires GoodAt(m, aux, c, t) && c.In? && c.up.In? && c.up.sib.Node?
    ensures GoodAt(m, aux, c.up.up, UncleTree(c, t))
  {
    var p := Mk(c.side, c.id, c.red, t, c.sib);
    UpGood(m, aux, c, t);
    assert GoodAt(m, aux, c.up, p);
    var c' := c.up.(red := true, sib := c.up.sib.(red := false));
    assert GoodAt(m, aux, c', Mk(c.side, c.id, false, t, c.sib));
    UpGood(m, aux, c', Mk(c.side, c.id, false, t, c.sib));
  }

  lemma UncleHolds(m: Mem, nil: BNode, root: BNode, c: Ctx, t: Tree)
    requires Holds(m, nil, root, c, t) && c.In? && c.up.In? && c.up.sib.Node?
    requires c.id in m && c.up.id in m && c.up.sib.id in m
    ensures Holds(UncleMem(m, c), nil, root, c.up.up, UncleTree(c, t))
  {
    hide Holds;
    var p := Mk(c.side, c.id, false, t, c.sib);
    var m1 := Painted(m, c.id, false);
    var m2 := Painted(m1, c.up.sib.id, false);
    var m3 := Painted(m2, c.up.id, true);
    var c2 := c.up.(sib := c.up.sib.(red := false));
    PaintAbove(m, nil, root, c, t, false);
    Up(m1, nil, root, c.(red := false), t);
    PaintSib(m1, nil, root, c.up, p, false);
    PaintAbove(m2, nil, root, c2, p, true);
    Up(m3, nil, root, c2.(red := true), p);
  }

  lemma PaintedFields(m: Mem, n: BNode, red: bool, aux: Aux)
    requires n in m
    ensures Painted(m, n, red).Keys == m.Keys
    ensures forall k :: k in m ==> Field(aux, Painted(m, n, red)[k]) == Field(aux, m[k])
  {
  }

  lemma UncleIn(m: Mem, nil: BNode, root: BNode, c: Ctx, t: Tree)
    requires Holds(m, nil, root, c, t) && c.In? && c.up.In? && c.up.sib.Node?
    ensures c.id in m && c.up.id in m && c.up.sib.id in m && Ids(t) + CtxIds(c) <= m.Keys
  {
    hide Rep, RepCtx, Distinct, CtxDistinct;
    HoldsKeys(m, nil, root, c, t);
    assert c.up.sib.id in Ids(c.up.sib);
  }

  lemma UncleKeys(m: Mem, nil: BNode, root: BNode, aux: Aux, c: Ctx, t: Tree)
    requires Holds(m, nil, root, c, t) && c.In? && c.up.In? && c.up.sib.Node? && GoodAt(m, aux, c, t)
    ensures c.id in m && c.up.id in m && c.up.sib.id in m && UncleMem(m, c).Keys == m.Keys
    ensures GoodAt(UncleMem(m, c), aux, c, t)
  {
    hide Holds, GoodAt, Painted, Field, Ids, CtxIds;
    UncleIn(m, nil, root, c, t);
    var m1 := Painted(m, c.id, false);
    PaintedFields(m, c.id, false, aux);
    PaintedFields(m1, c.up.sib.id, false, aux);
    PaintedFields(Painted(m1, c.up.sib.id, false), c.up.id, true, aux);
    FrameGoodAt(m, UncleMem(m, c), aux, c, t);
  }

  lemma UncleStep(m: Mem, nil: BNode, root: BNode, aux: Aux, c: Ctx, t: Tree)
    requires InsertLoop(m, nil, root, aux, c, t) && CtxRed(c) && Red(c.up.sib)
    ensures c.up.In? && c.id in m && c.up.id in m && c.up.sib.id in m
    ensures InsertLoop(UncleMem(m, c), nil, root, aux, c.up.up, UncleTree(c, t))
    ensures Order(c.up.up, UncleTree(c, t)) == Order(c, t) && Depth(c.up.up) < Depth(c)
    ensures UncleMem(m, c).Keys == m.Keys && UncleTree(c, t).id == c.up.id
  {
    UncleColours(c, t);
    hide Holds, Inserted, GoodAt, Order;
    UncleKeys(m, nil, root, aux, c, t);
    UncleHolds(m, nil, root, c, t);
    UncleGood(UncleMem(m, c), aux, c, t);
  }

  // Red parent, black uncle, inner child: the parent goes down and takes the child's role.

  function InnerCtx(c: Ctx, t: Tree): Ctx
    requires c.In? && t.Node?
  {
    In(c.side.Other(), t.id, true, t.Sub(c.side), c.up)
  }

  function InnerTree(c: Ctx, t: Tree): Tree
    requires c.In? && t.Node?
  {
    Mk(c.side.Other(), c.id, true, c.sib, t.Sub(c.side.Other()))
  }

  lemma InnerColours(c: Ctx, t: Tree)
    requires Inserted(c, t) && CtxRed(c)
    ensures var s := c.side.Other();
      var p := Mk(c.side, c.id, true, t, c.sib);
      && Rotated(s, p) == Mk(s, t.id, true, InnerTree(c, t), t.Sub(c.side))
      && Inserted(InnerCtx(c, t), InnerTree(c, t)) && Order(InnerCtx(c, t), InnerTree(c, t)) == Order(c, t)
  {
    RotatedInorder(c.side.Other(), Mk(c.side, c.id, true, t, c.sib));
    UpOrder(c, t);
    UpOrder(InnerCtx(c, t), InnerTree(c, t));
  }

  /** The memory after the rotation, whatever it did to the augmented fields. */
  lemma InnerStep(m: Mem, m': Mem, nil: BNode, root: BNode, aux: Aux, c: Ctx, t: Tree)
    requires InsertLoop(m, nil, root, aux, c, t) && CtxRed(c) && c.up.In?
    requires var p := Rotated(c.side.Other(), Mk(c.side, c.id, true, t, c.sib));
      Holds(m', nil, root, c.up, p) && GoodAt(m', aux, c.up, p)
    ensures InsertLoop(m', nil, root, aux, InnerCtx(c, t), InnerTree(c, t))
    ensures Order(InnerCtx(c, t), InnerTree(c, t)) == Order(c, t)
  {
    InnerColours(c, t);
    hide Holds;
    Up(m', nil, root, InnerCtx(c, t), InnerTree(c, t));
    UpGood(m', aux, InnerCtx(c, t), InnerTree(c, t));
  }

  // Red parent, black uncle, outer child: with parent black and grandparent red, the
  // grandparent goes down.

  function OuterGrandparent(c: Ctx, t: Tree): Tree
    requires c.In? && c.up.In?
  {
    Mk(c.side, c.up.id, true, Mk(c.side, c.id, false, t, c.sib), c.up.sib)
  }

  function OuterCtx(c: Ctx): Ctx
    requires c.In? && c.up.In?
  {
    In(c.side, c.id, false, Mk(c.side.Other(), c.up.id, true, c.up.sib, c.sib), c.up.up)
  }

  function OuterMem(m: Mem, c: Ctx): Mem
    requires c.In? && c.up.In? && c.id in m && c.up.id in m
  {
    Painted(Painted(m, c.id, false), c.up.id, true)
  }

  lemma OuterColours(c: Ctx, t: Tree)
    requires Inserted(c, t) && CtxRed(c) && c.up.In? && c.up.side == c.side && !Red(c.up.sib)
    ensures Rotated(c.side.Other(), OuterGrandparent(c, t)) == Mk(c.side, c.id, false, t, OuterCtx(c).sib)
    ensures Inserted(OuterCtx(c), t) && Order(OuterCtx(c), t) == Order(c, t)
  {
    var s := c.side.Other();
    var p := Mk(c.side, c.id, false, t, c.sib);
    var g := OuterGrandparent(c, t);
    assert CtxRedBlack(c.up, BlackHeight(t));
    RotatedInorder(s, g);
    UpOrder(c, t);
    UpOrder(c.up, Mk(c.side, c.id, c.red, t, c.sib));
    assert Inorder(p) == Inorder(Mk(c.side, c.id, c.red, t, c.sib));
    assert Inorder(g) == Inorder(Mk(c.side, c.up.id, c.up.red, p, c.up.sib));
    UpOrder(OuterCtx(c), t);
  }

  lemma RecolourAbove(m: Mem, aux: Aux, c: Ctx, t: Tree, red: bool)
    requires c.In?
    ensures GoodAt(m, aux, c.(red := red), t) <==> GoodAt(m, aux, c, t)
  {
  }

  lemma RecolourChild(m: Mem, aux: Aux, c: Ctx, s: Side, id: BNode, was: bool, now: bool, a: Tree, b: Tree)
    ensures GoodAt(m, aux, c, Mk(s, id, now, a, b)) <==> GoodAt(m, aux, c, Mk(s, id, was, a, b))
  {
  }

  lemma OuterIn(m: Mem, nil: BNode, root: BNode, c: Ctx, t: Tree)
    requires Holds(m, nil, root, c, t) && c.In? && c.up.In?
    ensures c.id in m && c.up.id in m && Ids(t) + CtxIds(c) <= m.Keys
  {
    hide Rep, RepCtx, Distinct, CtxDistinct;
    HoldsKeys(m, nil, root, c, t);
  }

  lemma OuterPainted(m: Mem, nil: BNode, root: BNode, aux: Aux, c: Ctx, t: Tree)
    requires Holds(m, nil, root, c, t) && GoodAt(m, aux, c, t) && c.In? && c.up.In? && c.up.side == c.side
    ensures c.id in m && c.up.id in m && OuterMem(m, c).Keys == m.Keys
    ensures Holds(OuterMem(m, c), nil, root, c.up.up, OuterGrandparent(c, t))
    ensures GoodAt(OuterMem(m, c), aux, c.up.up, OuterGrandparent(c, t))
  {
    hide Holds, GoodAt, Painted, Field, Ids, CtxIds;
    OuterIn(m, nil, root, c, t);
    var p := Mk(c.side, c.id, false, t, c.sib);
    var m1 := Painted(m, c.id, false);
    PaintedFields(m, c.id, false, aux);
    var m2 := Painted(m1, c.up.id, true);
    PaintedFields(m1, c.up.id, true, aux);
    FrameGoodAt(m, m2, aux, c, t);
    PaintAbove(m, nil, root, c, t, false);
    Up(m1, nil, root, c.(red := false), t);
    PaintAbove(m1, nil, root, c.up, p, true);
    Up(m2, nil, root, c.up.(red := true), p);
    UpGood(m2, aux, c, t);
    RecolourChild(m2, aux, c.up, c.side, c.id, c.red, false, t, c.sib);
    RecolourAbove(m2, aux, c.up, p, true);
    UpGood(m2, aux, c.up.(red := true), p);
  }

  lemma OuterStep(m': Mem, nil: BNode, root: BNode, aux: Aux, c: Ctx, t: Tree)
    requires Inserted(c, t) && CtxRed(c) && c.up.In? && c.up.side == c.side && !Red(c.up.sib)
    requires var g := Rotated(c.side.Other(), OuterGrandparent(c, t));
      Holds(m', nil, root, c.up.up, g) && GoodAt(m', aux, c.up.up, g)
    ensures InsertLoop(m', nil, root, aux, OuterCtx(c), t)
    ensures Order(OuterCtx(c), t) == Order(c, t) && Depth(OuterCtx(c)) < Depth(c)
  {
    OuterColours(c, t);
    hide Holds;
    Up(m', nil, root, OuterCtx(c), t);
    UpGood(m', aux, OuterCtx(c), t);
  }

  // ----- The steps of `rbtree_delete_fixup` -----

  /** What holds at the head of the loop. */
  ghost predicate DeleteLoop(m: Mem, nil: BNode, root: BNode, c: Ctx, t: Tree) {
    Holds(m, nil, root, c, t) && Short(c, t)
  }

  /** What holds when nothing is short any more. */
  ghost predicate Repaired(m: Mem, nil: BNode, root: BNode, t: Tree) {
    Holds(m, nil, root, Top, t) && RedBlack(t) && !Red(t)
  }

  /** A short black subtree that is not the whole tree has a sibling. */
  lemma ShortSibling(c: Ctx, t: Tree)
    requires Short(c, t) && c.In?
    ensures c.sib.Node? && (Red(c.sib) ==> !c.red && c.sib.l.Node? && c.sib.r.Node?)
  {
  }

  /** A red short subtree is painted black. */
  lemma BlackenShort(m: Mem, nil: BNode, root: BNode, c: Ctx, t: Tree)
    requires DeleteLoop(m, nil, root, c, t) && Red(t)
    ensures t.id in m && Repaired(Painted(m, t.id, false), nil, root, Plug(c, t.(red := false)))
    ensures Inorder(Plug(c, t.(red := false))) == Order(c, t)
  {
    var t' := t.(red := false);
    AtFocus(m, nil, root, c, t);
    PaintFocus(m, nil, root, c, t, false);
    PlugHolds(Painted(m, t.id, false), nil, root, c, t');
    BlackenRedBlack(t);
    PlugRedBlack(c, t');
    PlugOrder(c, t');
    assert Inorder(t') == Inorder(t);
  }

  // Red sibling, painted black, parent painted red: the parent goes down on the short side.

  function RedSiblingMem(m: Mem, c: Ctx): Mem
    requires c.In? && c.sib.Node? && c.id in m && c.sib.id in m
  {
    Painted(Painted(m, c.sib.id, false), c.id, true)
  }

  function RedSiblingParent(c: Ctx, t: Tree): Tree
    requires c.In? && c.sib.Node?
  {
    Mk(c.side, c.id, true, t, c.sib.(red := false))
  }

  function RedSiblingCtx(c: Ctx): Ctx
    requires c.In? && c.sib.Node?
  {
    In(c.side, c.id, true, c.sib.Sub(c.side), In(c.side, c.sib.id, false, c.sib.Sub(c.side.Other()), c.up))
  }

  lemma RedSiblingColours(c: Ctx, t: Tree)
    requires Short(c, t) && !Red(t) && c.In? && Red(c.sib)
    ensures Rotated(c.side, RedSiblingParent(c, t))
         == Mk(c.side, c.sib.id, false, Mk(c.side, c.id, true, t, c.sib.Sub(c.side)), c.sib.Sub(c.side.Other()))
    ensures var c' := RedSiblingCtx(c);
      Short(c', t) && c'.sib.Node? && !Red(c'.sib) && Order(c', t) == Order(c, t)
  {
    var s, c' := c.side, RedSiblingCtx(c);
    assert CtxRedBlack(c'.up, BlackHeight(t) + 1);
    RotatedInorder(s, RedSiblingParent(c, t));
    assert Inorder(RedSiblingParent(c, t)) == Inorder(Mk(s, c.id, c.red, t, c.sib));
    UpOrder(c, t);
    UpOrder(c', t);
    UpOrder(c'.up, Mk(s, c.id, true, t, c'.sib));
  }

  lemma RedSiblingPainted(m: Mem, nil: BNode, root: BNode, c: Ctx, t: Tree)
    requires Holds(m, nil, root, c, t) && c.In? && c.sib.Node? && c.id in m && c.sib.id in m
    ensures Holds(RedSiblingMem(m, c), nil, root, c.up, RedSiblingParent(c, t))
  {
    hide Holds;
    var m1 := Painted(m, c.sib.id, false);
    var c1 := c.(sib := c.sib.(red := false));
    PaintSib(m, nil, root, c, t, false);
    PaintAbove(m1, nil, root, c1, t, true);
    Up(RedSiblingMem(m, c), nil, root, c1.(red := true), t);
  }

  lemma RedSiblingStep(m': Mem, nil: BNode, root: BNode, c: Ctx, t: Tree)
    requires Short(c, t) && !Red(t) && c.In? && Red(c.sib)
    requires Holds(m', nil, root, c.up, Rotated(c.side, RedSiblingParent(c, t)))
    ensures DeleteLoop(m', nil, root, RedSiblingCtx(c), t) && Order(RedSiblingCtx(c), t) == Order(c, t)
  {
    RedSiblingColours(c, t);
    hide Holds;
    Up(m', nil, root, RedSiblingCtx(c), t);
    Up(m', nil, root, RedSiblingCtx(c).up, Mk(c.side, c.id, true, t, c.sib.Sub(c.side)));
  }

  // Black sibling with black children, painted red: now the parent is short.

  function ClimbTree(c: Ctx, t: Tree): Tree
    requires c.In? && c.sib.Node?
  {
    Mk(c.side, c.id, c.red, t, c.sib.(red := true))
  }

  lemma ClimbShort(m: Mem, nil: BNode, root: BNode, c: Ctx, t: Tree)
    requires DeleteLoop(m, nil, root, c, t) && !Red(t) && c.In? && c.sib.Node? && c.sib.id in m
    requires !c.sib.red && !Red(c.sib.l) && !Red(c.sib.r)
    ensures DeleteLoop(Painted(m, c.sib.id, true), nil, root, c.up, ClimbTree(c, t))
    ensures Order(c.up, ClimbTree(c, t)) == Order(c, t)
  {
    UpOrder(c, t);
    assert Inorder(c.sib.(red := true)) == Inorder(c.sib);
    var y := c.sib.(red := true);
    assert RedBlack(t) && RedBlack(y) && BlackHeight(y) == BlackHeight(t);
    assert BlackHeight(ClimbTree(c, t)) == BlackHeight(t) + if c.red then 0 else 1;
    assert Short(c.up, ClimbTree(c, t));
    hide Holds, Short;
    PaintSib(m, nil, root, c, t, true);
    Up(Painted(m, c.sib.id, true), nil, root, c.(sib := c.sib.(red := true)), t);
  }

  // Black sibling with only its near child red: after the swap of colours it goes down.

  function NearMem(m: Mem, c: Ctx): Mem
    requires c.In? && c.sib.Node? && c.sib.Sub(c.side).Node? && c.sib.id in m && c.sib.Sub(c.side).id in m
  {
    Painted(Painted(m, c.sib.Sub(c.side).id, false), c.sib.id, true)
  }

  function NearSibling(c: Ctx): Tree
    requires c.In? && c.sib.Node? && c.sib.Sub(c.side).Node?
  {
    Mk(c.side.Other(), c.sib.id, true, c.sib.Sub(c.side.Other()), c.sib.Sub(c.side).(red := false))
  }

  function NearCtx(c: Ctx): Ctx
    requires c.In? && c.sib.Node? && c.sib.Sub(c.side).Node?
  {
    c.(sib := Rotated(c.side.Other(), NearSibling(c)))
  }

  /** The context of the sibling. */
  function SibCtx(c: Ctx, t: Tree): Ctx
    requires c.In?
  {
    In(c.side.Other(), c.id, c.red, t, c.up)
  }

  lemma NearColours(c: Ctx, t: Tree)
    requires Short(c, t) && !Red(t) && c.In? && c.sib.Node? && !c.sib.red
    requires Red(c.sib.Sub(c.side)) && !Red(c.sib.Sub(c.side.Other()))
    ensures var c' := NearCtx(c);
      && Short(c', t) && c'.sib.Node? && c'.sib.id == c.sib.Sub(c.side).id && !c'.sib.red
      && Red(c'.sib.Sub(c.side.Other())) && Order(c', t) == Order(c, t)
  {
    var s, o := c.side, c.side.Other();
    var z := c.sib.Sub(s).(red := false);
    var y := NearSibling(c);
    RotatedInorder(o, y);
    assert Inorder(z) == Inorder(c.sib.Sub(s));
    assert Inorder(y) == Inorder(c.sib);
    SubRedBlack(c.sib, s);
    SubRedBlack(c.sib, o);
    SubRedBlack(c.sib.Sub(s), s);
    SubRedBlack(c.sib.Sub(s), o);
    MkRedBlack(o, c.sib.id, true, c.sib.Sub(o), z.Sub(o));
    MkRedBlack(o, z.id, false, Mk(o, c.sib.id, true, c.sib.Sub(o), z.Sub(o)), z.Sub(s));
  }

  lemma NearPainted(m: Mem, nil: BNode, root: BNode, c: Ctx, t: Tree)
    requires Holds(m, nil, root, c, t) && c.In? && c.sib.Node? && c.sib.Sub(c.side).Node?
    requires c.sib.id in m && c.sib.Sub(c.side).id in m
    ensures Holds(NearMem(m, c), nil, root, SibCtx(c, t), NearSibling(c))
  {
    hide Holds;
    var s, o := c.side, c.side.Other();
    var sc := SibCtx(c, t);
    var near := In(s, c.sib.id, c.sib.red, c.sib.Sub(o), sc);
    Up(m, nil, root, c, t);
    Up(m, nil, root, sc, c.sib);
    Up(m, nil, root, near, c.sib.Sub(s));
    PaintFocus(m, nil, root, near, c.sib.Sub(s), false);
    var m1 := Painted(m, c.sib.Sub(s).id, false);
    PaintAbove(m1, nil, root, near, c.sib.Sub(s).(red := false), true);
    Up(NearMem(m, c), nil, root, near.(red := true), c.sib.Sub(s).(red := false));
  }

  lemma NearStep(m': Mem, nil: BNode, root: BNode, c: Ctx, t: Tree)
    requires Short(c, t) && !Red(t) && c.In? && c.sib.Node? && !c.sib.red
    requires Red(c.sib.Sub(c.side)) && !Red(c.sib.Sub(c.side.Other()))
    requires Holds(m', nil, root, SibCtx(c, t), Rotated(c.side.Other(), NearSibling(c)))
    ensures DeleteLoop(m', nil, root, NearCtx(c), t) && Order(NearCtx(c), t) == Order(c, t)
  {
    NearColours(c, t);
    hide Holds;
    Up(m', nil, root, SibCtx(c, t), NearCtx(c).sib);
    Up(m', nil, root, NearCtx(c), t);
  }

  // Black sibling with its far child red: painted and rotated, nothing is short any more.

  function FarMem(m: Mem, c: Ctx): Mem
    requires c.In? && c.sib.Node? && c.sib.Sub(c.side.Other()).Node?
    requires c.id in m && c.sib.id in m && c.sib.Sub(c.side.Other()).id in m
  {
    Painted(Painted(Painted(m, c.sib.id, c.red), c.id, false), c.sib.Sub(c.side.Other()).id, false)
  }

  function FarParent(c: Ctx, t: Tree): Tree
    requires c.In? && c.sib.Node? && c.sib.Sub(c.side.Other()).Node?
  {
    Mk(c.side, c.id, false, t,
       Mk(c.side, c.sib.id, c.red, c.sib.Sub(c.side), c.sib.Sub(c.side.Other()).(red := false)))
  }

  lemma FarOrder(c: Ctx, t: Tree)
    requires c.In? && c.sib.Node? && c.sib.Sub(c.side.Other()).Node?
    ensures Order(c.up, Rotated(c.side, FarParent(c, t))) == Order(c, t)
  {
    var y := FarParent(c, t).Sub(c.side.Other());
    RotatedInorder(c.side, FarParent(c, t));
    UpOrder(c, t);
    assert Inorder(y.Sub(c.side.Other())) == Inorder(c.sib.Sub(c.side.Other()));
    assert Inorder(y) == Inorder(c.sib);
  }

  lemma FarColours(c: Ctx, t: Tree)
    requires Short(c, t) && !Red(t) && c.In? && c.sib.Node? && !c.sib.red && Red(c.sib.Sub(c.side.Other()))
    ensures var p := Rotated(c.side, FarParent(c, t));
      && RedBlack(p) && CtxRedBlack(c.up, BlackHeight(p)) && (Red(p) ==> c.up.In? && !CtxRed(c.up))
      && Order(c.up, p) == Order(c, t)
  {
    hide Order, Inorder;
    var s, o := c.side, c.side.Other();
    var y := FarParent(c, t).Sub(o);
    FarOrder(c, t);
    SubRedBlack(c.sib, s);
    SubRedBlack(c.sib, o);
    BlackenRedBlack(c.sib.Sub(o));
    MkRedBlack(s, c.id, false, t, c.sib.Sub(s));
    MkRedBlack(s, c.sib.id, c.red, Mk(s, c.id, false, t, c.sib.Sub(s)), y.Sub(o));
  }

  lemma FarPainted(m: Mem, nil: BNode, root: BNode, c: Ctx, t: Tree)
    requires Holds(m, nil, root, c, t) && c.In? && c.sib.Node? && c.sib.Sub(c.side.Other()).Node?
    requires c.id in m && c.sib.id in m && c.sib.Sub(c.side.Other()).id in m
    ensures Holds(FarMem(m, c), nil, root, c.up, FarParent(c, t))
  {
    hide Holds;
    var s, o := c.side, c.side.Other();
    var y := c.sib.(red := c.red);
    var m1 := Painted(m, c.sib.id, c.red);
    var m2 := Painted(m1, c.id, false);
    PaintSib(m, nil, root, c, t, c.red);
    PaintAbove(m1, nil, root, c.(sib := y), t, false);
    var sc := SibCtx(c.(red := false), t);
    var far := In(o, y.id, y.red, y.Sub(s), sc);
    Up(m2, nil, root, c.(sib := y, red := false), t);
    Up(m2, nil, root, sc, y);
    Up(m2, nil, root, far, y.Sub(o));
    PaintFocus(m2, nil, root, far, y.Sub(o), false);
    Up(FarMem(m, c), nil, root, far, y.Sub(o).(red := false));
    Up(FarMem(m, c), nil, root, sc, Mk(o, y.id, y.red, y.Sub(o).(red := false), y.Sub(s)));
  }

  lemma FarStep(m': Mem, nil: BNode, root: BNode, c: Ctx, t: Tree)
    requires Short(c, t) && !Red(t) && c.In? && c.sib.Node? && !c.sib.red && Red(c.sib.Sub(c.side.Other()))
    requires Holds(m', nil, root, c.up, Rotated(c.side, FarParent(c, t)))
    ensures var whole := Plug(c.up, Rotated(c.side, FarParent(c, t)));
      Repaired(m', nil, root, whole) && Inorder(whole) == Order(c, t)
  {
    FarColours(c, t);
    var p := Rotated(c.side, FarParent(c, t));
    PlugHolds(m', nil, root, c.up, p);
    PlugRedBlack(c.up, p);
    PlugOrder(c.up, p);
  }

  // ----- Searching and linking a new leaf -----

  /** The search for key `k` leads to the hole. */
  predicate Between(cmp: Compare, c: Ctx, k: int) {
    c.In? ==>
      && (if c.side == Left then cmp(k, c.id.key) < 0 else cmp(k, c.id.key) > 0)
      && Between(cmp, c.up, k)
  }

  lemma SortedParts(cmp: Compare, a: seq<BNode>, x: BNode, b: seq<BNode>)
    requires Sorted(cmp, a + [x] + b)
    ensures forall n :: n in a ==> cmp(n.key, x.key) < 0
    ensures forall n :: n in b ==> cmp(x.key, n.key) < 0
  {
    var s := a + [x] + b;
    assert s[|a|] == x;
    assert forall i :: 0 <= i < |a| ==> s[i] == a[i];
    assert forall i :: 0 <= i < |b| ==> s[|a| + 1 + i] == b[i];
  }

  ghost predicate KeysIn(s: seq<BNode>, keys: set<int>) {
    forall n :: n in s ==> n.key in keys
  }

  lemma {:induction false} BetweenOrder(cmp: Compare, c: Ctx, mid: seq<BNode>, k: int, keys: set<int>)
    requires Sorted(cmp, Before(c) + mid + After(c)) && Between(cmp, c, k)
    requires OrderOn(cmp, keys) && k in keys && KeysIn(Before(c) + mid + After(c), keys)
    ensures forall n :: n in Before(c) ==> cmp(n.key, k) < 0
    ensures forall n :: n in After(c) ==> cmp(k, n.key) < 0
    decreases c
  {
    hide Sorted, OrderOn, KeysIn, Inorder;
    if c.In? {
      var sib := Inorder(c.sib);
      if c.side == Left {
        assert Before(c.up) + (mid + [c.id] + sib) + After(c.up) == Before(c) + mid + After(c);
        BetweenOrder(cmp, c.up, mid + [c.id] + sib, k, keys);
        assert (Before(c) + mid) + [c.id] + (sib + After(c.up)) == Before(c) + mid + After(c);
        BeyondRight(cmp, Before(c) + mid, c.id, sib + After(c.up), k, keys);
      } else {
        assert Before(c.up) + (sib + [c.id] + mid) + After(c.up) == Before(c) + mid + After(c);
        BetweenOrder(cmp, c.up, sib + [c.id] + mid, k, keys);
        assert (Before(c.up) + sib) + [c.id] + (mid + After(c)) == Before(c) + mid + After(c);
        BeyondLeft(cmp, Before(c.up) + sib, c.id, mid + After(c), k, keys);
      }
    }
  }

  lemma BeyondRight(cmp: Compare, a: seq<BNode>, x: BNode, b: seq<BNode>, k: int, keys: set<int>)
    requires Sorted(cmp, a + [x] + b) && OrderOn(cmp, keys) && k in keys && KeysIn(a + [x] + b, keys)
    requires cmp(k, x.key) < 0
    ensures forall n :: n in b ==> cmp(k, n.key) < 0
  {
    SortedParts(cmp, a, x, b);
    assert x in a + [x] + b;
    forall n | n in b ensures cmp(k, n.key) < 0 {
      assert n in a + [x] + b && cmp(x.key, n.key) < 0;
    }
  }

  lemma BeyondLeft(cmp: Compare, a: seq<BNode>, x: BNode, b: seq<BNode>, k: int, keys: set<int>)
    requires Sorted(cmp, a + [x] + b) && OrderOn(cmp, keys) && k in keys && KeysIn(a + [x] + b, keys)
    requires cmp(k, x.key) > 0
    ensures cmp(x.key, k) < 0 && forall n :: n in a ==> cmp(n.key, k) < 0
  {
    SortedParts(cmp, a, x, b);
    assert x in a + [x] + b && cmp(x.key, k) < 0;
    forall n | n in a ensures cmp(n.key, k) < 0 {
      assert n in a + [x] + b && cmp(n.key, x.key) < 0;
    }
  }

  lemma LinkedEntries(c: Ctx, n: BNode)
    ensures |Before(c) + [n] + After(c)| == |Order(c, Leaf)| + 1
    ensures EntriesOf(Before(c) + [n] + After(c)) == EntriesOf(Order(c, Leaf)) + {(n.key, n.data)}
  {
    EntriesAround(Before(c), n, After(c));
    assert Order(c, Leaf) == Before(c) + After(c);
  }

  /** A new node in the hole keeps the order, and no other node has its key. */
  lemma LinkedOrder(cmp: Compare, c: Ctx, n: BNode, keys: set<int>)
    requires Sorted(cmp, Order(c, Leaf)) && Between(cmp, c, n.key)
    requires OrderOn(cmp, keys) && n.key in keys && KeysIn(Order(c, Leaf), keys)
    ensures Sorted(cmp, Before(c) + [n] + After(c))
    ensures forall o :: o in Order(c, Leaf) ==> o.key != n.key
  {
    assert Before(c) + [] + After(c) == Order(c, Leaf) == Before(c) + After(c);
    BetweenOrder(cmp, c, [], n.key, keys);
    SortedAround(cmp, Before(c), n, After(c));
    assert forall o :: o in Order(c, Leaf) ==> o in Before(c) || o in After(c);
  }

  lemma SortedAround(cmp: Compare, a: seq<BNode>, n: BNode, b: seq<BNode>)
    requires Sorted(cmp, a + b)
    requires (forall o :: o in a ==> cmp(o.key, n.key) < 0) && (forall o :: o in b ==> cmp(n.key, o.key) < 0)
    ensures Sorted(cmp, a + [n] + b)
  {
    var s, s' := a + b, a + [n] + b;
    forall i, j | 0 <= i < j < |s'| ensures cmp(s'[i].key, s'[j].key) < 0 {
      assert i < |a| ==> s'[i] == s[i] == a[i];
      assert j < |a| ==> s'[j] == s[j];
      assert |a| < i ==> s'[i] == s[i - 1];
      assert |a| < j ==> s'[j] == s[j - 1] == b[j - 1 - |a|];
    }
  }

  /** The keys with the new one are still in order. */
  lemma GrownOrder(cmp: Compare, c: Ctx, n: BNode)
    requires Between(cmp, c, n.key)
    ensures var (was, now) := (Before(c) + After(c), Before(c) + [n] + After(c));
      && was == Order(c, Leaf)
      && (Sorted(cmp, was) && OrderOn(cmp, KeysOf(was) + {n.key}) ==> Sorted(cmp, now) && OrderOn(cmp, KeysOf(now)))
  {
    var was := Before(c) + After(c);
    assert was == Order(c, Leaf);
    EntriesAround(Before(c), n, After(c));
    if Sorted(cmp, was) && OrderOn(cmp, KeysOf(was) + {n.key}) {
      LinkedOrder(cmp, c, n, KeysOf(was) + {n.key});
    }
  }

  lemma {:induction false} InorderIds(t: Tree)
    ensures forall n :: n in Inorder(t) ==> n in Ids(t)
    ensures forall n :: n in Ids(t) ==> n in Inorder(t)
  {
    if t.Node? {
      InorderIds(t.l);
      InorderIds(t.r);
    }
  }

  lemma LinkedHolds(m: Mem, nil: BNode, root: BNode, c: Ctx, n: BNode)
    requires Holds(m, nil, root, c, Leaf) && n !in m && n != nil
    requires Above(root, c) in m
    ensures var top := Above(root, c);
      var m' := m[n := Cell(nil, nil, top, false, 0, 0)]
                 [top := WithChild(m[top], if c.Top? then Left else c.side, n)];
      Holds(m', nil, root, c, Node(n, false, Leaf, Leaf))
  {
    var top := Above(root, c);
    var m' := m[n := Cell(nil, nil, top, false, 0, 0)]
               [top := WithChild(m[top], if c.Top? then Left else c.side, n)];
    if c.In? {
      Frame(m, m', nil, c.sib, c.id);
      FrameCtx(m, m', nil, root, c.up, c.id);
    }
  }

  /** After the repair: the context is closed, and the real root is painted black. */
  lemma InsertDone(m: Mem, nil: BNode, root: BNode, aux: Aux, c: Ctx, t: Tree)
    requires InsertLoop(m, nil, root, aux, c, t) && !CtxRed(c)
    ensures var p := Plug(c, t);
      && p.Node? && p.id in m && m[root].left == p.id
      && var p', m' := p.(red := false), Painted(m, p.id, false);
      && Holds(m', nil, root, Top, p') && GoodAt(m', aux, Top, p')
      && RedBlack(p') && !Red(p') && Inorder(p') == Order(c, t)
  {
    var p := Plug(c, t);
    PlugHolds(m, nil, root, c, t);
    PlugGood(m, aux, c, t);
    PlugOrder(c, t);
    PlugRedBlack(c, t);
    PlugNode(c, t);
    AtFocus(m, nil, root, Top, p);
    PaintFocus(m, nil, root, Top, p, false);
    HoldsKeys(m, nil, root, Top, p);
    FrameGoodAt(m, Painted(m, p.id, false), aux, Top, p);
    if p.red { BlackenRedBlack(p); }
    assert Inorder(p.(red := false)) == Inorder(p);
  }

  /** The state of the loops that refresh the augmented fields on the way up in tree `whole`. */
  ghost predicate ClimbLoop(m: Mem, nil: BNode, root: BNode, aux: Aux, c: Ctx, t: Tree, v: int, whole: Tree) {
    Climbing(m, nil, root, aux, c, t, v) && Plug(c, t) == whole
  }

  lemma ClimbDone(m: Mem, nil: BNode, root: BNode, aux: Aux, t: Tree, v: int, c0: Ctx, t0: Tree)
    requires ClimbLoop(m, nil, root, aux, Top, t, v, Plug(c0, t0))
    requires aux == Counts ==> Good(m, aux, t)
    ensures Holds(m, nil, root, c0, t0) && GoodAt(m, aux, c0, t0)
  {
    if aux == NoAux { NothingToKeep(m, nil, root, t, root); }
    PlugHolds(m, nil, root, c0, t0);
    PlugGood(m, aux, c0, t0);
    AtFocus(m, nil, root, Top, t);
  }

  /** A hole in a red-black tree: what insertion starts from. */
  lemma LeafHole(m: Mem, aux: Aux, c: Ctx, shape: Tree)
    requires Plug(c, Leaf) == shape && RedBlack(shape) && !Red(shape) && GoodAt(m, aux, Top, shape)
    ensures CtxRedBlack(c, 0) && CtxGood(m, aux, c, Value(aux, Leaf)) && Order(c, Leaf) == Inorder(shape)
  {
    UnplugRedBlack(c, Leaf);
    PlugGood(m, aux, c, Leaf);
    PlugOrder(c, Leaf);
  }

  /** The new leaf is linked in; nothing else has changed. */
  lemma LinkedClimbing(m: Mem, m': Mem, nil: BNode, root: BNode, aux: Aux, c: Ctx, n: BNode, v: int)
    requires Holds(m, nil, root, c, Leaf) && CtxGood(m, aux, c, v)
    requires Holds(m', nil, root, c, Node(n, false, Leaf, Leaf))
    requires forall k :: k in m ==> k in m' && Field(aux, m'[k]) == Field(aux, m[k])
    ensures Climbing(m', nil, root, aux, c, Node(n, false, Leaf, Leaf), v)
  {
    HoldsKeys(m, nil, root, c, Leaf);
    FrameCtxGood(m, m', aux, c, v);
  }

  /** The new leaf is painted red. */
  lemma ReddenLeaf(m: Mem, nil: BNode, root: BNode, aux: Aux, c: Ctx, n: BNode)
    requires Holds(m, nil, root, c, Node(n, false, Leaf, Leaf)) && GoodAt(m, aux, c, Node(n, false, Leaf, Leaf))
    requires CtxRedBlack(c, 0)
    ensures n in m && InsertLoop(Painted(m, n, true), nil, root, aux, c, Node(n, true, Leaf, Leaf))
    ensures Order(c, Node(n, true, Leaf, Leaf)) == Before(c) + [n] + After(c)
  {
    var t := Node(n, false, Leaf, Leaf);
    AtFocus(m, nil, root, c, t);
    HoldsKeys(m, nil, root, c, t);
    PaintFocus(m, nil, root, c, t, true);
    FrameGoodAt(m, Painted(m, n, true), aux, c, t);
    assert Inorder(Node(n, true, Leaf, Leaf)) == [n];
  }

  // ----- Unlinking a node -----

  lemma {:induction false} FindFocus(t: Tree, n: BNode) returns (c: Ctx, u: Tree)
    requires n in Ids(t)
    ensures Plug(c, u) == t && u.Node? && u.id == n
  {
    c, u := Top, t;
    while u.id != n
      invariant u.Node? && n in Ids(u) && Plug(c, u) == t
      decreases u
    {
      if n in Ids(u.l) {
        c, u := In(Left, u.id, u.red, u.r, c), u.l;
      } else {
        c, u := In(Right, u.id, u.red, u.l, c), u.r;
      }
    }
  }

  /** The only subtree left of a node with a missing child. */
  function OnlyChild(t: Tree): Tree
    requires t.Node?
  {
    if t.l.Leaf? then t.r else t.l
  }

  /** Node `y` has at most one child `x`, below `top`. */
  predicate CanSplice(m: Mem, nil: BNode, y: BNode, x: BNode, top: BNode) {
    && y in m && top in m && m[y].parent == top && top != y && x != y && top != x
    && (x != nil ==> x in m) && x == (if m[y].left == nil then m[y].right else m[y].left)
    && (m[top].left == y || m[top].right == y)
  }

  /** What node `n` holds after node `y` is cut out. */
  function SplicedCell(m: Mem, nil: BNode, y: BNode, x: BNode, top: BNode, n: BNode): Cell
    requires CanSplice(m, nil, y, x, top) && n in m
  {
    if n == top then Relink(m[n], y, x) else if n == x && x != nil then m[n].(parent := top) else m[n]
  }

  function SplicedMem(m: Mem, nil: BNode, y: BNode, x: BNode, top: BNode): Mem
    requires CanSplice(m, nil, y, x, top)
  {
    map n | n in m.Keys - {y} :: SplicedCell(m, nil, y, x, top, n)
  }

  lemma SpliceLinks(m: Mem, nil: BNode, root: BNode, c: Ctx, t: Tree)
    requires Holds(m, nil, root, c, t) && t.Node? && (t.l.Leaf? || t.r.Leaf?)
    ensures CanSplice(m, nil, t.id, Ptr(nil, OnlyChild(t)), Above(root, c))
    ensures nil !in m && (c.Top? ==> m[root].left == t.id) && Ptr(nil, OnlyChild(t)) != root && (c.In? ==> c.id != root)
  {
    AtFocus(m, nil, root, c, t);
    AboveIn(m, nil, root, c, t);
    if c.In? { AtAbove(m, nil, root, c, t); }
    var x := OnlyChild(t);
    assert x.Node? ==> x.id in Ids(x) && x.id in Ids(t);
  }

  lemma SplicedBelow(m: Mem, nil: BNode, root: BNode, c: Ctx, t: Tree)
    requires Holds(m, nil, root, c, t) && t.Node? && (t.l.Leaf? || t.r.Leaf?)
    requires CanSplice(m, nil, t.id, Ptr(nil, OnlyChild(t)), Above(root, c))
    ensures Rep(SplicedMem(m, nil, t.id, Ptr(nil, OnlyChild(t)), Above(root, c)), nil, OnlyChild(t), Above(root, c))
  {
    hide RepCtx, CtxDistinct;
    var x, top := OnlyChild(t), Above(root, c);
    assert Rep(m, nil, x, t.id) && Distinct(x);
    assert top !in Ids(x) && Ids(x) <= m.Keys;
    Reparent(m, SplicedMem(m, nil, t.id, Ptr(nil, x), top), nil, x, t.id, top);
  }

  lemma SplicedAround(m: Mem, nil: BNode, root: BNode, c: Ctx, t: Tree)
    requires Holds(m, nil, root, c, t) && t.Node? && (t.l.Leaf? || t.r.Leaf?)
    requires CanSplice(m, nil, t.id, Ptr(nil, OnlyChild(t)), Above(root, c))
    ensures RepCtx(SplicedMem(m, nil, t.id, Ptr(nil, OnlyChild(t)), Above(root, c)), nil, root, c,
      Ptr(nil, OnlyChild(t)))
  {
    hide Rep, RepCtx, Distinct, CtxDistinct;
    var x := Ptr(nil, OnlyChild(t));
    assert x != nil ==> x in Ids(t);
    Rehole(m, SplicedMem(m, nil, t.id, x, Above(root, c)), nil, root, c, t.id, x);
  }

  /** The nodes that are left. */
  lemma SplicedApart(nil: BNode, root: BNode, c: Ctx, t: Tree)
    requires Apart(nil, root, c, t) && t.Node? && (t.l.Leaf? || t.r.Leaf?)
    ensures Apart(nil, root, c, OnlyChild(t)) && Ids(t) == Ids(OnlyChild(t)) + {t.id} && t.id !in Ids(OnlyChild(t))
    ensures t.id !in CtxIds(c) && t.id != root
  {
  }

  lemma SplicedHolds(m: Mem, nil: BNode, root: BNode, c: Ctx, t: Tree)
    requires Holds(m, nil, root, c, t) && t.Node? && (t.l.Leaf? || t.r.Leaf?)
    requires CanSplice(m, nil, t.id, Ptr(nil, OnlyChild(t)), Above(root, c))
    ensures Holds(SplicedMem(m, nil, t.id, Ptr(nil, OnlyChild(t)), Above(root, c)), nil, root, c, OnlyChild(t))
  {
    hide Rep, RepCtx, Apart, Ids, CtxIds, CanSplice, SplicedCell, OnlyChild;
    SplicedApart(nil, root, c, t);
    SplicedBelow(m, nil, root, c, t);
    SplicedAround(m, nil, root, c, t);
  }

  /** The colours after node `t` is cut out: a missing black node makes its subtree short. */
  lemma SplicedColours(c: Ctx, t: Tree)
    requires RedBlack(Plug(c, t)) && !Red(Plug(c, t)) && t.Node? && (t.l.Leaf? || t.r.Leaf?)
    ensures !t.red ==> Short(c, OnlyChild(t)) && (OnlyChild(t).Node? ==> Red(OnlyChild(t)))
    ensures t.red ==> RedBlack(Plug(c, OnlyChild(t))) && !Red(Plug(c, OnlyChild(t)))
  {
    UnplugRedBlack(c, t);
    if t.red {
      assert OnlyChild(t).Leaf?;
      PlugRedBlack(c, OnlyChild(t));
    }
  }

  lemma SplicedOrder(c: Ctx, t: Tree)
    requires t.Node? && (t.l.Leaf? || t.r.Leaf?)
    ensures Order(c, t) == Before(c) + Inorder(t.l) + [t.id] + Inorder(t.r) + After(c)
    ensures Order(c, OnlyChild(t)) == Before(c) + Inorder(t.l) + Inorder(t.r) + After(c)
  {
  }

  /** Node `v` has other nodes around it, all of them known. */
  predicate CanReplace(m: Mem, nil: BNode, v: BNode, y: BNode) {
    && v in m && m[v].parent in m && y !in m && y != nil && v != nil && m[v].parent != v
    && (m[v].left != nil ==> m[v].left in m && m[v].left != v && m[v].left != m[v].parent)
    && (m[v].right != nil ==>
          m[v].right in m && m[v].right != v && m[v].right != m[v].parent && m[v].right != m[v].left)
  }

  /** What node `n` holds after node `y`, which was in no tree, has taken the place of `v`. */
  function ReplacedCell(m: Mem, nil: BNode, v: BNode, y: BNode, oldY: Cell, n: BNode): Cell
    requires CanReplace(m, nil, v, y) && (n in m || n == y)
  {
    if n == y then Cell(m[v].left, m[v].right, m[v].parent, m[v].red, oldY.count, oldY.max)
    else if n == m[v].parent then Relink(m[n], v, y)
    else if n != nil && (n == m[v].left || n == m[v].right) then m[n].(parent := y)
    else m[n]
  }

  function ReplacedMem(m: Mem, nil: BNode, v: BNode, y: BNode, oldY: Cell): Mem
    requires CanReplace(m, nil, v, y)
  {
    map n | n in m.Keys + {y} - {v} :: ReplacedCell(m, nil, v, y, oldY, n)
  }

  lemma ReplaceLinks(m: Mem, nil: BNode, root: BNode, c: Ctx, t: Tree, y: BNode)
    requires Holds(m, nil, root, c, t) && t.Node? && y !in m && y != nil
    ensures var v := t.id;
      && CanReplace(m, nil, v, y) && Links(m, v, Above(root, c), t.red, Left, Ptr(nil, t.l), Ptr(nil, t.r))
      && Rep(m, nil, t.l, v) && Rep(m, nil, t.r, v)
  {
    AtFocus(m, nil, root, c, t);
    AboveIn(m, nil, root, c, t);
    assert t.l.Node? ==> t.l.id in Ids(t.l);
    assert t.r.Node? ==> t.r.id in Ids(t.r);
    assert Above(root, c) !in Ids(t);
  }

  lemma ReplacedBelow(m: Mem, nil: BNode, v: BNode, y: BNode, oldY: Cell, u: Tree)
    requires CanReplace(m, nil, v, y) && Rep(m, nil, u, v) && Distinct(u) && Ids(u) <= m.Keys && nil !in Ids(u)
    requires v !in Ids(u) && m[v].parent !in Ids(u)
    requires u.Node? ==> forall n :: n in Ids(u) && (n == m[v].left || n == m[v].right) ==> n == u.id
    requires u.Node? ==> u.id == m[v].left || u.id == m[v].right
    ensures Rep(ReplacedMem(m, nil, v, y, oldY), nil, u, y)
  {
    Reparent(m, ReplacedMem(m, nil, v, y, oldY), nil, u, v, y);
  }

  lemma ReplacedAround(m: Mem, nil: BNode, root: BNode, c: Ctx, t: Tree, y: BNode, oldY: Cell)
    requires Holds(m, nil, root, c, t) && t.Node? && CanReplace(m, nil, t.id, y)
    requires Links(m, t.id, Above(root, c), t.red, Left, Ptr(nil, t.l), Ptr(nil, t.r))
    ensures RepCtx(ReplacedMem(m, nil, t.id, y, oldY), nil, root, c, y)
  {
    hide Rep, RepCtx, Distinct, CtxDistinct;
    assert t.l.Node? ==> t.l.id in Ids(t);
    assert t.r.Node? ==> t.r.id in Ids(t);
    Rehole(m, ReplacedMem(m, nil, t.id, y, oldY), nil, root, c, t.id, y);
  }

  lemma ReplacedSubtrees(m: Mem, nil: BNode, root: BNode, c: Ctx, t: Tree, y: BNode, oldY: Cell)
    requires Holds(m, nil, root, c, t) && t.Node? && CanReplace(m, nil, t.id, y)
    ensures Rep(ReplacedMem(m, nil, t.id, y, oldY), nil, t.l, y) && Rep(ReplacedMem(m, nil, t.id, y, oldY), nil, t.r, y)
  {
    ReplaceLinks(m, nil, root, c, t, y);
    assert Above(root, c) !in Ids(t);
    assert t.l.Node? ==> t.l.id in Ids(t.l);
    assert t.r.Node? ==> t.r.id in Ids(t.r);
    ReplacedBelow(m, nil, t.id, y, oldY, t.l);
    ReplacedBelow(m, nil, t.id, y, oldY, t.r);
  }

  lemma ReplacedApart(nil: BNode, root: BNode, c: Ctx, t: Tree, y: BNode)
    requires Apart(nil, root, c, t) && t.Node? && y !in Ids(t) && y !in CtxIds(c) && y != root && y != nil
    ensures Apart(nil, root, c, Node(y, t.red, t.l, t.r))
    ensures Ids(Node(y, t.red, t.l, t.r)) + {t.id} == Ids(t) + {y} && t.id !in Ids(Node(y, t.red, t.l, t.r))
    ensures t.id !in CtxIds(c) && t.id != root && t.id in Ids(t)
  {
  }

  lemma ReplacedKeys(m: Mem, nil: BNode, root: BNode, c: Ctx, t: Tree, y: BNode, oldY: Cell)
    requires Holds(m, nil, root, c, t) && t.Node? && CanReplace(m, nil, t.id, y)
    ensures Apart(nil, root, c, Node(y, t.red, t.l, t.r))
    ensures ReplacedMem(m, nil, t.id, y, oldY).Keys == Ids(Node(y, t.red, t.l, t.r)) + CtxIds(c) + {root}
  {
    hide Rep, RepCtx, Apart, Ids, CtxIds;
    ReplacedApart(nil, root, c, t, y);
  }

  lemma ReplacedNode(m: Mem, nil: BNode, v: BNode, y: BNode, oldY: Cell, red: bool, top: BNode, a: BNode, b: BNode)
    requires CanReplace(m, nil, v, y) && Links(m, v, top, red, Left, a, b)
    ensures Links(ReplacedMem(m, nil, v, y, oldY), y, top, red, Left, a, b)
  {
  }

  lemma ReplacedHolds(m: Mem, nil: BNode, root: BNode, c: Ctx, t: Tree, y: BNode, oldY: Cell)
    requires Holds(m, nil, root, c, t) && t.Node? && CanReplace(m, nil, t.id, y)
    ensures Holds(ReplacedMem(m, nil, t.id, y, oldY), nil, root, c, Node(y, t.red, t.l, t.r))
  {
    hide RepCtx, Rep, Apart, Ids, CtxIds, Links, ReplacedMem;
    ReplacedKeys(m, nil, root, c, t, y, oldY);
    ReplacedLinks(m, nil, root, c, t, y);
    ReplacedNode(m, nil, t.id, y, oldY, t.red, Above(root, c), Ptr(nil, t.l), Ptr(nil, t.r));
    ReplacedSubtrees(m, nil, root, c, t, y, oldY);
    ReplacedAround(m, nil, root, c, t, y, oldY);
    RepNode(ReplacedMem(m, nil, t.id, y, oldY), nil, Left, y, t.red, t.l, t.r, Above(root, c));
  }

  lemma ReplacedLinks(m: Mem, nil: BNode, root: BNode, c: Ctx, t: Tree, y: BNode)
    requires Holds(m, nil, root, c, t) && t.Node? && CanReplace(m, nil, t.id, y)
    ensures Links(m, t.id, Above(root, c), t.red, Left, Ptr(nil, t.l), Ptr(nil, t.r))
  {
  }

  /** Node `v` in a duplicate-free list sits in one place. */
  lemma SamePlace(a: seq<BNode>, b: seq<BNode>, p: seq<BNode>, q: seq<BNode>, v: BNode)
    requires a + [v] + b == p + [v] + q && NoRepeat(p + [v] + q)
    ensures a == p && b == q
  {
    var s := p + [v] + q;
    assert s[|a|] == v && s[|p|] == v;
    assert |a| == |p|;
    assert a == s[..|a|] && p == s[..|p|];
    assert b == s[|a| + 1..] && q == s[|p| + 1..];
  }

  lemma ReplacedOrder(c: Ctx, t: Tree, y: BNode)
    requires t.Node?
    ensures Order(c, t) == (Before(c) + Inorder(t.l)) + [t.id] + (Inorder(t.r) + After(c))
    ensures Order(c, Node(y, t.red, t.l, t.r)) == (Before(c) + Inorder(t.l)) + [y] + (Inorder(t.r) + After(c))
  {
  }

  /** The nodes in order before and after the one in focus. */
  function Lower(c: Ctx, t: Tree): seq<BNode>
    requires t.Node?
  {
    Before(c) + Inorder(t.l)
  }
  function Upper(c: Ctx, t: Tree): seq<BNode>
    requires t.Node?
  {
    Inorder(t.r) + After(c)
  }

  /** Where the next node is: first below the right child, or first after the subtree. */
  lemma UpperFirst(c: Ctx, t: Tree)
    requires t.Node?
    ensures t.r.Leaf? ==> Upper(c, t) == After(c)
    ensures t.r.Node? ==> Inorder(t.r) != [] && Upper(c, t) != [] && Upper(c, t)[0] == Inorder(t.r)[0]
  {
  }

  lemma CancelPrefix(l: seq<BNode>, v: BNode, u: seq<BNode>, y: BNode, uy: seq<BNode>)
    requires l + [v] + u == (l + [v]) + [y] + uy
    ensures u == [y] + uy
  {
    var s := l + [v] + u;
    assert u == s[|l| + 1..];
    assert s == l + [v] + ([y] + uy);
    assert [y] + uy == s[|l| + 1..];
  }

  /** The successor comes first after the node. */
  lemma SuccessorOrder(c: Ctx, t: Tree, cy: Ctx, ty: Tree)
    requires t.Node? && ty.Node? && ty.l.Leaf? && Plug(cy, ty) == Plug(c, t)
    requires Before(cy) == Before(c) + Inorder(t.l) + [t.id]
    ensures Upper(c, t) == [ty.id] + Upper(cy, ty) && Lower(cy, ty) == Lower(c, t) + [t.id]
  {
    FocusOrder(c, t);
    FocusOrder(cy, ty);
    assert Lower(cy, ty) == Lower(c, t) + [t.id];
    CancelPrefix(Lower(c, t), t.id, Upper(c, t), ty.id, Upper(cy, ty));
  }

  lemma InorderNode(t: Tree)
    requires t.Node?
    ensures Inorder(t) == Inorder(t.l) + [t.id] + Inorder(t.r)
  {
  }

  lemma Regroup(a: seq<BNode>, b: seq<BNode>, x: seq<BNode>, d: seq<BNode>, e: seq<BNode>)
    ensures a + (b + x + d) + e == (a + b) + x + (d + e)
    ensures a + b + d + e == (a + b) + (d + e)
  {
  }

  lemma FocusOrder(c: Ctx, t: Tree)
    requires t.Node?
    ensures Inorder(Plug(c, t)) == Lower(c, t) + [t.id] + Upper(c, t)
    ensures t.l.Leaf? || t.r.Leaf? ==> Order(c, OnlyChild(t)) == Lower(c, t) + Upper(c, t)
  {
    hide Inorder, Before, After, Plug;
    PlugOrder(c, t);
    InorderNode(t);
    Regroup(Before(c), Inorder(t.l), [t.id], Inorder(t.r), After(c));
    if t.l.Leaf? || t.r.Leaf? {
      SplicedOrder(c, t);
    }
  }

  /** Leaving one node out keeps the rest in order. */
  lemma WithoutSorted(cmp: Compare, a: seq<BNode>, v: BNode, b: seq<BNode>)
    requires Sorted(cmp, a + [v] + b)
    ensures Sorted(cmp, a + b)
  {
    var s := a + [v] + b;
    assert forall i :: 0 <= i < |a + b| ==> (a + b)[i] == s[if i < |a| then i else i + 1];
  }

  /** The other nodes have other keys. */
  lemma WithoutEntries(cmp: Compare, a: seq<BNode>, v: BNode, b: seq<BNode>)
    requires Sorted(cmp, a + [v] + b) && OrderOn(cmp, KeysOf(a + [v] + b))
    ensures EntriesOf(a + b) == EntriesOf(a + [v] + b) - {(v.key, v.data)}
    ensures KeysOf(a + b) == KeysOf(a + [v] + b) - {v.key}
  {
    SortedParts(cmp, a, v, b);
    EntriesAround(a, v, b);
    assert v in a + [v] + b && v.key in KeysOf(a + [v] + b);
    forall n | n in a + b ensures n.key != v.key {
      assert n in a + [v] + b && n.key in KeysOf(a + [v] + b);
      assert n in a || n in b;
    }
  }

  /** The node that took the victim's place stands where the victim stood. */
  lemma ReplacedPlace(c: Ctx, t: Tree, y: BNode, p: seq<BNode>, q: seq<BNode>)
    requires t.Node? && Inorder(Plug(c, t)) == p + [t.id] + q && NoRepeat(p + [t.id] + q)
    ensures Inorder(Plug(c, Node(y, t.red, t.l, t.r))) == p + [y] + q
  {
    PlugOrder(c, t);
    PlugOrder(c, Node(y, t.red, t.l, t.r));
    ReplacedOrder(c, t, y);
    SamePlace(Before(c) + Inorder(t.l), Inorder(t.r) + After(c), p, q, t.id);
  }

  lemma {:induction false} ReplacedColours(c: Ctx, t: Tree, y: BNode)
    requires t.Node? && RedBlack(Plug(c, t)) && !Red(Plug(c, t))
    ensures var t' := Node(y, t.red, t.l, t.r);
      RedBlack(Plug(c, t')) && !Red(Plug(c, t'))
  {
    UnplugRedBlack(c, t);
    PlugRedBlack(c, Node(y, t.red, t.l, t.r));
  }

  /** The order without the victim, when its successor is cut out and then takes its place. */
  lemma DeleteOrder(c: Ctx, t: Tree, cy: Ctx, ty: Tree)
    requires t.Node? && ty.Node?
    requires Upper(c, t) == [ty.id] + Upper(cy, ty) && Lower(cy, ty) == Lower(c, t) + [t.id]
    ensures Lower(cy, ty) + Upper(cy, ty) == Lower(c, t) + [t.id] + Upper(cy, ty)
    ensures Lower(c, t) + [ty.id] + Upper(cy, ty) == Lower(c, t) + Upper(c, t)
  {
  }

  lemma KeySwap(keys: set<BNode>, v: BNode, y: BNode)
    requires y in keys && y != v
    ensures keys - {y} - {v} + {y} == keys - {v}
  {
  }

  /** Each node is in focus in one way only. */
  lemma SameFocus(m: Mem, nil: BNode, root: BNode, c: Ctx, t: Tree, c': Ctx, t': Tree)
    requires t.Node? && t'.Node? && Before(c') == Before(c) + Inorder(t.l) + [t.id]
    requires Holds(m, nil, root, c', t')
    ensures t'.id != t.id
  {
    InorderIds(t');
    BeforeIds(c');
    assert t.id in Before(c');
  }

  lemma {:induction false} BeforeIds(c: Ctx)
    ensures forall n :: n in Before(c) ==> n in CtxIds(c)
  {
    if c.In? {
      BeforeIds(c.up);
      InorderIds(c.sib);
    }
  }
}
