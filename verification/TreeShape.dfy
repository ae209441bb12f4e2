/** The values a search tree stands for: the nodes of `include/rcsw/ds/bstree.h`, the tree
    hanging off one pointer, the context around such a tree, and what a rotation does to them. */
module TreeShape {

  datatype Side = Left | Right {
    function Other(): Side { if this == Left then Right else Left }
  }

  /** What the fields of one node hold. */
  datatype Cell = Cell(left: BNode, right: BNode, parent: BNode, red: bool, count: int, max: int) {
    function Child(s: Side): BNode { if s == Left then left else right }
  }

  function WithChild(c: Cell, s: Side, n: BNode): Cell {
    if s == Left then c.(left := n) else c.(right := n)
  }

  /** The field that held `was` now holds `now`; `left` is tried first. */
  function Relink(c: Cell, was: BNode, now: BNode): Cell {
    if c.left == was then c.(left := now) else c.(right := now)
  }

  /** One `struct bstree_node`, with the `max_high` field of `struct inttree_node`
      and the `count` field of `struct ostree_node`. */
  class BNode {
    var left: BNode
    var right: BNode
    var parent: BNode
    var red: bool
    var count: int
    var maxHigh: int
    const key: int
    /** The datablock; the high end of the interval in an interval tree. */
    const data: int

    /** The `nil` sentinel: every link leads back to it. */
    constructor Nil(data: int, high: int)
      ensures left == right == parent == this && !red && count == 0 && maxHigh == high
      ensures this.data == data
    {
      key, this.data, red, count, maxHigh := 0, data, false, 0, high;
      left, right, parent := this, this, this;
    }

    constructor Create(nil: BNode, parent: BNode, key: int, data: int)
      ensures CellOf(this) == Cell(nil, nil, parent, false, 0, 0)
      ensures this.key == key && this.data == data
    {
      this.key, this.data, red, count, maxHigh := key, data, false, 0, 0;
      left, right, this.parent := nil, nil, parent;
    }

    function Child(s: Side): BNode
      reads this
    {
      if s == Left then left else right
    }

    method SetChild(s: Side, child: BNode)
      modifies this`left, this`right
      ensures CellOf(this) == WithChild(old(CellOf(this)), s, child)
    {
      if s == Left { left := child; } else { right := child; }
    }

    method CopyLinks(from: BNode)
      modifies this
      ensures CellOf(this) == old(CellOf(from)).(count := old(count), max := old(maxHigh))
    {
      left := from.left;
      right := from.right;
      parent := from.parent;
      red := from.red;
    }

    /** The child link that leads to `was` now leads to `now`. */
    method ReplaceChild(was: BNode, now: BNode)
      modifies this`left, this`right
      ensures CellOf(this) == Relink(old(CellOf(this)), was, now)
    {
      if was == left {
        left := now;
      } else {
        right := now;
      }
    }
  }

  function CellOf(n: BNode): Cell
    reads n
  {
    Cell(n.left, n.right, n.parent, n.red, n.count, n.maxHigh)
  }

  datatype Tree =
    | Leaf
    | Node(id: BNode, red: bool, l: Tree, r: Tree)
  {
    function Sub(s: Side): Tree
      requires Node?
    {
      if s == Left then l else r
    }
  }

  /** The tree around a hole: the hole is child `side` of node `id`. */
  datatype Ctx =
    | Top
    | In(side: Side, id: BNode, red: bool, sib: Tree, up: Ctx)

  /** A node whose child on side `s` is `a` and whose other child is `b`. */
  function Mk(s: Side, id: BNode, red: bool, a: Tree, b: Tree): Tree {
    if s == Left then Node(id, red, a, b) else Node(id, red, b, a)
  }

  function Plug(c: Ctx, t: Tree): Tree {
    match c
    case Top => t
    case In(s, id, red, sib, up) => Plug(up, Mk(s, id, red, t, sib))
  }

  function Depth(c: Ctx): nat {
    if c.Top? then 0 else 1 + Depth(c.up)
  }

  function Ids(t: Tree): set<BNode> {
    match t
    case Leaf => {}
    case Node(id, _, l, r) => {id} + Ids(l) + Ids(r)
  }

  function CtxIds(c: Ctx): set<BNode> {
    match c
    case Top => {}
    case In(_, id, _, sib, up) => {id} + Ids(sib) + CtxIds(up)
  }

  predicate Distinct(t: Tree) {
    match t
    case Leaf => true
    case Node(id, _, l, r) =>
      id !in Ids(l) && id !in Ids(r) && Ids(l) !! Ids(r) && Distinct(l) && Distinct(r)
  }

  predicate CtxDistinct(c: Ctx) {
    match c
    case Top => true
    case In(_, id, _, sib, up) =>
      id !in Ids(sib) && id !in CtxIds(up) && Ids(sib) !! CtxIds(up) && Distinct(sib) && CtxDistinct(up)
  }

  /** The pointer that stands for `t`. */
  function Ptr(nil: BNode, t: Tree): BNode {
    if t.Leaf? then nil else t.id
  }

  /** The node a hole hangs from. */
  function Above(root: BNode, c: Ctx): BNode {
    if c.Top? then root else c.id
  }

  type Mem = map<BNode, Cell>

  /** A node on which `s` leads to `a` and the other side to `b`. */
  predicate Links(m: Mem, id: BNode, p: BNode, red: bool, s: Side, a: BNode, b: BNode) {
    && id in m && m[id].parent == p && m[id].red == red
    && m[id].Child(s) == a && m[id].Child(s.Other()) == b
  }

  /** In memory `m` the nodes of `t` form exactly `t`, hanging below `p`. */
  ghost predicate Rep(m: Mem, nil: BNode, t: Tree, p: BNode) {
    t.Node? ==>
      && Links(m, t.id, p, t.red, Left, Ptr(nil, t.l), Ptr(nil, t.r))
      && Rep(m, nil, t.l, t.id) && Rep(m, nil, t.r, t.id)
  }

  /** The nodes around a hole form exactly `c`, and the hole holds `hole`. */
  ghost predicate RepCtx(m: Mem, nil: BNode, root: BNode, c: Ctx, hole: BNode) {
    match c
    case Top => Links(m, root, nil, false, Left, hole, nil)
    case In(s, id, red, sib, up) =>
      && Links(m, id, Above(root, up), red, s, hole, Ptr(nil, sib))
      && Rep(m, nil, sib, id) && RepCtx(m, nil, root, up, id)
  }

  /** No node occurs twice, and the sentinels are not among the nodes. */
  ghost predicate Apart(nil: BNode, root: BNode, c: Ctx, t: Tree) {
    && nil != root
    && nil !in Ids(t) && nil !in CtxIds(c) && root !in Ids(t) && root !in CtxIds(c)
    && Ids(t) !! CtxIds(c) && Distinct(t) && CtxDistinct(c)
  }

  /** Memory `m` is the tree `Plug(c, t)`, seen with attention on `t`. */
  ghost predicate Holds(m: Mem, nil: BNode, root: BNode, c: Ctx, t: Tree) {
    && Apart(nil, root, c, t) && m.Keys == Ids(t) + CtxIds(c) + {root}
    && Rep(m, nil, t, Above(root, c)) && RepCtx(m, nil, root, c, Ptr(nil, t))
  }

  // ----- Moving attention -----

  lemma Down(m: Mem, nil: BNode, root: BNode, c: Ctx, s: Side, t: Tree)
    requires t.Node?
    ensures Holds(m, nil, root, c, t) <==> Holds(m, nil, root, In(s, t.id, t.red, t.Sub(s.Other()), c), t.Sub(s))
  {
  }

  lemma Up(m: Mem, nil: BNode, root: BNode, c: Ctx, t: Tree)
    requires c.In?
    ensures Holds(m, nil, root, c, t) <==> Holds(m, nil, root, c.up, Mk(c.side, c.id, c.red, t, c.sib))
  {
    Down(m, nil, root, c.up, c.side, Mk(c.side, c.id, c.red, t, c.sib));
  }

  lemma {:induction false} PlugHolds(m: Mem, nil: BNode, root: BNode, c: Ctx, t: Tree)
    ensures Holds(m, nil, root, c, t) <==> Holds(m, nil, root, Top, Plug(c, t))
  {
    if c.In? {
      Up(m, nil, root, c, t);
      PlugHolds(m, nil, root, c.up, Mk(c.side, c.id, c.red, t, c.sib));
    }
  }

  lemma HoldsKeys(m: Mem, nil: BNode, root: BNode, c: Ctx, t: Tree)
    requires Holds(m, nil, root, c, t)
    ensures m.Keys == Ids(t) + CtxIds(c) + {root}
  {
  }

  /** What the node in focus holds. */
  lemma AtFocus(m: Mem, nil: BNode, root: BNode, c: Ctx, t: Tree)
    requires Holds(m, nil, root, c, t)
    ensures t.Node? ==> Links(m, t.id, Above(root, c), t.red, Left, Ptr(nil, t.l), Ptr(nil, t.r))
    ensures t.Node? ==> t.id != nil && t.id != root && t.id != Above(root, c)
    ensures t.Node? && t.l.Node? ==> t.l.id in m && m[t.l.id].red == t.l.red && m[t.l.id].parent == t.id
    ensures t.Node? && t.r.Node? ==> t.r.id in m && m[t.r.id].red == t.r.red && m[t.r.id].parent == t.id
    ensures root in m && !m[root].red && m[root].right == nil && m[root].parent == nil
    ensures nil !in m && root != nil
    ensures Ptr(nil, t) != root && m[root].left == Ptr(nil, Plug(c, t)) && (c.In? ==> m[root].left != nil)
  {
    if t.Node? {
      assert Rep(m, nil, t.l, t.id) && Rep(m, nil, t.r, t.id);
    }
    PlugHolds(m, nil, root, c, t);
    if c.In? {
      PlugNode(c, t);
    }
  }

  lemma AboveIn(m: Mem, nil: BNode, root: BNode, c: Ctx, t: Tree)
    requires Holds(m, nil, root, c, t)
    ensures Above(root, c) in m
  {
  }

  /** What the node above the focus holds. */
  lemma AtAbove(m: Mem, nil: BNode, root: BNode, c: Ctx, t: Tree)
    requires Holds(m, nil, root, c, t) && c.In?
    ensures Links(m, c.id, Above(root, c.up), c.red, c.side, Ptr(nil, t), Ptr(nil, c.sib))
    ensures Ptr(nil, t) != Ptr(nil, c.sib) || (t.Leaf? && c.sib.Leaf?)
    ensures c.id != nil && c.id != root && c.id != Ptr(nil, t) && c.id != Above(root, c.up)
    ensures c.sib.Node? ==>
      c.sib.id in m && c.sib.id != nil && m[c.sib.id].red == c.sib.red && m[c.sib.id].parent == c.id
  {
    Up(m, nil, root, c, t);
    AtFocus(m, nil, root, c.up, Mk(c.side, c.id, c.red, t, c.sib));
    assert t.Node? ==> t.id in Ids(t);
    assert c.sib.Node? ==> c.sib.id in Ids(c.sib);
  }

  lemma {:induction false} PlugNode(c: Ctx, t: Tree)
    requires c.In? || t.Node?
    ensures Plug(c, t).Node?
  {
    if c.In? {
      PlugNode(c.up, Mk(c.side, c.id, c.red, t, c.sib));
    }
  }

  /** The real root is not the root of a proper subtree. */
  lemma {:induction false} PlugDeeper(c: Ctx, t: Tree)
    requires c.In? && t.Node? && CtxDistinct(c) && t.id !in CtxIds(c)
    ensures Plug(c, t).Node? && Plug(c, t).id != t.id && Plug(c, t).id in CtxIds(c)
  {
    if c.up.In? {
      PlugDeeper(c.up, Mk(c.side, c.id, c.red, t, c.sib));
    }
  }

  // ----- Changes to memory -----

  predicate SameLinks(a: Cell, b: Cell) {
    a.left == b.left && a.right == b.right && a.parent == b.parent && a.red == b.red
  }

  lemma Frame(m: Mem, m': Mem, nil: BNode, t: Tree, p: BNode)
    requires Rep(m, nil, t, p)
    requires forall n :: n in Ids(t) ==> n in m && n in m' && SameLinks(m'[n], m[n])
    ensures Rep(m', nil, t, p)
  {
  }

  lemma FrameCtx(m: Mem, m': Mem, nil: BNode, root: BNode, c: Ctx, hole: BNode)
    requires RepCtx(m, nil, root, c, hole)
    requires forall n :: n in CtxIds(c) + {root} ==> n in m && n in m' && SameLinks(m'[n], m[n])
    ensures RepCtx(m', nil, root, c, hole)
  {
    if c.In? {
      Frame(m, m', nil, c.sib, c.id);
    }
  }

  /** The augmented fields are no part of the tree. */
  lemma FrameAux(m: Mem, m': Mem, nil: BNode, root: BNode, c: Ctx, t: Tree)
    requires Holds(m, nil, root, c, t) && m'.Keys == m.Keys
    requires forall n :: n in m ==> SameLinks(m'[n], m[n])
    ensures Holds(m', nil, root, c, t)
  {
    Frame(m, m', nil, t, Above(root, c));
    FrameCtx(m, m', nil, root, c, Ptr(nil, t));
  }

  function Painted(m: Mem, n: BNode, red: bool): Mem
    requires n in m
  {
    m[n := m[n].(red := red)]
  }

  lemma PaintFocus(m: Mem, nil: BNode, root: BNode, c: Ctx, t: Tree, red: bool)
    requires Holds(m, nil, root, c, t) && t.Node? && t.id in m
    ensures Holds(Painted(m, t.id, red), nil, root, c, t.(red := red))
  {
    var m' := Painted(m, t.id, red);
    Frame(m, m', nil, t.l, t.id);
    Frame(m, m', nil, t.r, t.id);
    FrameCtx(m, m', nil, root, c, t.id);
  }

  lemma PaintAbove(m: Mem, nil: BNode, root: BNode, c: Ctx, t: Tree, red: bool)
    requires Holds(m, nil, root, c, t) && c.In? && c.id in m
    ensures Holds(Painted(m, c.id, red), nil, root, c.(red := red), t)
  {
    var p := Mk(c.side, c.id, c.red, t, c.sib);
    Up(m, nil, root, c, t);
    PaintFocus(m, nil, root, c.up, p, red);
    Up(Painted(m, c.id, red), nil, root, c.(red := red), t);
  }

  lemma PaintSib(m: Mem, nil: BNode, root: BNode, c: Ctx, t: Tree, red: bool)
    requires Holds(m, nil, root, c, t) && c.In? && c.sib.Node? && c.sib.id in m
    ensures Holds(Painted(m, c.sib.id, red), nil, root, c.(sib := c.sib.(red := red)), t)
  {
    var other := In(c.side.Other(), c.id, c.red, t, c.up);
    var m' := Painted(m, c.sib.id, red);
    Up(m, nil, root, c, t);
    Up(m, nil, root, other, c.sib);
    PaintFocus(m, nil, root, other, c.sib, red);
    Up(m', nil, root, other, c.sib.(red := red));
    Up(m', nil, root, c.(sib := c.sib.(red := red)), t);
  }

  /** Only the parent link of the topmost node changes. */
  lemma Reparent(m: Mem, m': Mem, nil: BNode, t: Tree, p: BNode, q: BNode)
    requires Rep(m, nil, t, p) && Distinct(t)
    requires forall n :: n in Ids(t) ==>
      n in m && n in m' && SameLinks(m'[n], if n == t.id then m[n].(parent := q) else m[n])
    ensures Rep(m', nil, t, q)
  {
    if t.Node? {
      Frame(m, m', nil, t.l, t.id);
      Frame(m, m', nil, t.r, t.id);
    }
  }

  /** Only the link to the hole changes. */
  lemma Rehole(m: Mem, m': Mem, nil: BNode, root: BNode, c: Ctx, was: BNode, now: BNode)
    requires RepCtx(m, nil, root, c, was) && CtxDistinct(c)
    requires root !in CtxIds(c) && was !in CtxIds(c) && (was == nil ==> c.Top? || c.side == Left || c.sib.Node?)
    requires nil !in CtxIds(c)
    requires forall n :: n in CtxIds(c) + {root} ==>
      n in m && n in m' && SameLinks(m'[n], if n == Above(root, c) then Relink(m[n], was, now) else m[n])
    ensures RepCtx(m', nil, root, c, now)
  {
    if c.In? {
      Frame(m, m', nil, c.sib, c.id);
      FrameCtx(m, m', nil, root, c.up, c.id);
    }
  }

  // ----- Rotation -----

  /** Node `t.id` goes down on side `s`, its child on the other side goes up. */
  function Rotated(s: Side, t: Tree): Tree
    requires t.Node? && t.Sub(s.Other()).Node?
  {
    var y := t.Sub(s.Other());
    Mk(s, y.id, y.red, Mk(s, t.id, t.red, t.Sub(s), y.Sub(s)), y.Sub(s.Other()))
  }

  lemma RotatedApart(nil: BNode, root: BNode, c: Ctx, s: Side, t: Tree)
    requires t.Node? && t.Sub(s.Other()).Node? && Apart(nil, root, c, t)
    ensures Apart(nil, root, c, Rotated(s, t))
    ensures Ids(Rotated(s, t)) == Ids(t)
  {
    if s == Left {
      assert Distinct(t.r);
      assert Distinct(Rotated(s, t).l);
    } else {
      assert Distinct(t.l);
      assert Distinct(Rotated(s, t).r);
    }
  }

  /** The nodes of the three subtrees a rotation rearranges, apart from the two it turns. */
  lemma RotationParts(s: Side, t: Tree)
    requires t.Node? && t.Sub(s.Other()).Node? && Distinct(t)
    ensures var y := t.Sub(s.Other());
      var A, B, C := t.Sub(s), y.Sub(s), y.Sub(s.Other());
      && t.id != y.id && t.id in Ids(t) && y.id in Ids(t)
      && Ids(A) <= Ids(t) && Ids(B) <= Ids(t) && Ids(C) <= Ids(t)
      && t.id !in Ids(A) && t.id !in Ids(B) && t.id !in Ids(C)
      && y.id !in Ids(A) && y.id !in Ids(B) && y.id !in Ids(C)
      && Ids(A) !! Ids(B) && Ids(B) !! Ids(C) && Distinct(B)
  {
    if s == Left {
      assert Distinct(t.r);
    } else {
      assert Distinct(t.l);
    }
  }

  /** Node `x` has a child `y` away from side `s`, and these two, the node above them and
      the middle subtree's root are four different nodes. */
  predicate CanRotate(m: Mem, nil: BNode, s: Side, x: BNode) {
    && x in m && m[x].Child(s.Other()) in m && m[x].parent in m
    && var y, top := m[x].Child(s.Other()), m[x].parent;
    && x != y && x != top && y != top && m[y].parent == x
    && var b := m[y].Child(s);
    && (b != nil ==> b in m && b != x && b != y && b != top)
  }

  /** What node `n` holds after the links of a rotation of node `x` with its child `y`. */
  function RotatedCell(m: Mem, nil: BNode, s: Side, x: BNode, n: BNode): Cell
    requires CanRotate(m, nil, s, x) && n in m
  {
    var y, top := m[x].Child(s.Other()), m[x].parent;
    var b := m[y].Child(s);
    if n == x then WithChild(m[x], s.Other(), b).(parent := y)
    else if n == y then WithChild(m[y], s, x).(parent := top)
    else if n == top then Relink(m[top], x, y)
    else if b != nil && n == b then m[b].(parent := x)
    else m[n]
  }

  function RotatedMem(m: Mem, nil: BNode, s: Side, x: BNode): (r: Mem)
    requires CanRotate(m, nil, s, x)
    ensures r.Keys == m.Keys
  {
    map n | n in m :: RotatedCell(m, nil, s, x, n)
  }

  lemma RotationLinks(m: Mem, nil: BNode, root: BNode, c: Ctx, s: Side, t: Tree)
    requires Holds(m, nil, root, c, t) && t.Node? && t.Sub(s.Other()).Node?
    ensures var x, y, top := t.id, t.Sub(s.Other()), Above(root, c);
      var A, B, C := t.Sub(s), y.Sub(s), y.Sub(s.Other());
      && CanRotate(m, nil, s, x)
      && Links(m, x, top, t.red, s, Ptr(nil, A), y.id)
      && Links(m, y.id, x, y.red, s, Ptr(nil, B), Ptr(nil, C))
      && Rep(m, nil, A, x) && Rep(m, nil, B, y.id) && Rep(m, nil, C, y.id)
  {
    RotationParts(s, t);
    assert Rep(m, nil, t.Sub(s.Other()), t.id);
  }

  /** A rotation leaves alone a subtree that holds none of the four nodes it writes. */
  lemma RotatedFrame(m: Mem, nil: BNode, s: Side, x: BNode, u: Tree, p: BNode)
    requires CanRotate(m, nil, s, x) && Rep(m, nil, u, p) && Ids(u) <= m.Keys
    requires x !in Ids(u) && m[x].Child(s.Other()) !in Ids(u) && m[x].parent !in Ids(u)
    requires var b := m[m[x].Child(s.Other())].Child(s); b == nil || b !in Ids(u)
    ensures Rep(RotatedMem(m, nil, s, x), nil, u, p)
  {
    Frame(m, RotatedMem(m, nil, s, x), nil, u, p);
  }

  lemma RotatedMiddle(m: Mem, nil: BNode, s: Side, x: BNode, u: Tree)
    requires CanRotate(m, nil, s, x) && Ids(u) <= m.Keys && Distinct(u) && nil !in Ids(u)
    requires var y := m[x].Child(s.Other()); Rep(m, nil, u, y) && m[y].Child(s) == Ptr(nil, u) && y !in Ids(u)
    requires x !in Ids(u) && m[x].parent !in Ids(u)
    ensures Rep(RotatedMem(m, nil, s, x), nil, u, x)
  {
    Reparent(m, RotatedMem(m, nil, s, x), nil, u, m[x].Child(s.Other()), x);
  }

  lemma RotatedAround(m: Mem, nil: BNode, root: BNode, c: Ctx, s: Side, x: BNode)
    requires CanRotate(m, nil, s, x) && RepCtx(m, nil, root, c, x) && CtxDistinct(c) && nil !in CtxIds(c)
    requires m[x].parent == Above(root, c) && CtxIds(c) <= m.Keys && root in m && root !in CtxIds(c)
    requires x !in CtxIds(c) && m[x].Child(s.Other()) !in CtxIds(c) && x != nil
    requires x != root && m[x].Child(s.Other()) != root
    requires var b := m[m[x].Child(s.Other())].Child(s); b == nil || (b !in CtxIds(c) && b != root)
    ensures RepCtx(RotatedMem(m, nil, s, x), nil, root, c, m[x].Child(s.Other()))
  {
    Rehole(m, RotatedMem(m, nil, s, x), nil, root, c, x, m[x].Child(s.Other()));
  }

  /** What a rotation does to the parts around the two nodes it turns. */
  lemma RotatedParts(m: Mem, nil: BNode, root: BNode, c: Ctx, s: Side, t: Tree)
    requires Holds(m, nil, root, c, t) && t.Node? && t.Sub(s.Other()).Node?
    requires CanRotate(m, nil, s, t.id)
    ensures var m' := RotatedMem(m, nil, s, t.id);
      var x, y := t.id, t.Sub(s.Other());
      && Rep(m', nil, t.Sub(s), x) && Rep(m', nil, y.Sub(s), x) && Rep(m', nil, y.Sub(s.Other()), y.id)
      && RepCtx(m', nil, root, c, y.id)
  {
    var x, y := t.id, t.Sub(s.Other());
    var A, B, C := t.Sub(s), y.Sub(s), y.Sub(s.Other());
    RotationLinks(m, nil, root, c, s, t);
    RotationParts(s, t);
    assert Ids(t) <= m.Keys && Above(root, c) !in Ids(t);
    assert B.Node? ==> B.id in Ids(B);
    RotatedFrame(m, nil, s, x, A, x);
    RotatedFrame(m, nil, s, x, C, y.id);
    RotatedMiddle(m, nil, s, x, B);
    RotatedAround(m, nil, root, c, s, x);
  }

  /** The links of the two turned nodes. */
  lemma RotatedLinks(m: Mem, nil: BNode, root: BNode, c: Ctx, s: Side, t: Tree)
    requires Holds(m, nil, root, c, t) && t.Node? && t.Sub(s.Other()).Node?
    requires CanRotate(m, nil, s, t.id)
    ensures var m', y := RotatedMem(m, nil, s, t.id), t.Sub(s.Other());
      && Links(m', t.id, y.id, t.red, s, Ptr(nil, t.Sub(s)), Ptr(nil, y.Sub(s)))
      && Links(m', y.id, Above(root, c), y.red, s, t.id, Ptr(nil, y.Sub(s.Other())))
  {
    hide Holds, Rep;
    RotationLinks(m, nil, root, c, s, t);
  }

  lemma RepNode(m: Mem, nil: BNode, s: Side, id: BNode, red: bool, a: Tree, b: Tree, p: BNode)
    requires Links(m, id, p, red, s, Ptr(nil, a), Ptr(nil, b)) && Rep(m, nil, a, id) && Rep(m, nil, b, id)
    ensures Rep(m, nil, Mk(s, id, red, a, b), p)
  {
  }

  lemma RotatedHolds(m: Mem, nil: BNode, root: BNode, c: Ctx, s: Side, t: Tree)
    requires Holds(m, nil, root, c, t) && t.Node? && t.Sub(s.Other()).Node?
    requires CanRotate(m, nil, s, t.id)
    ensures Holds(RotatedMem(m, nil, s, t.id), nil, root, c, Rotated(s, t))
  {
    hide Apart, Rep, RepCtx, Links, RotatedMem, CanRotate, Ids, CtxIds;
    var y := t.Sub(s.Other());
    var m' := RotatedMem(m, nil, s, t.id);
    RotatedParts(m, nil, root, c, s, t);
    RotatedLinks(m, nil, root, c, s, t);
    RotatedApart(nil, root, c, s, t);
    RepNode(m', nil, s, t.id, t.red, t.Sub(s), y.Sub(s), y.id);
    RepNode(m', nil, s, y.id, y.red, Mk(s, t.id, t.red, t.Sub(s), y.Sub(s)), y.Sub(s.Other()), Above(root, c));
  }
}
