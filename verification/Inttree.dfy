/** Interval trees, `src/ds/inttree.c`: the key of a node is the low end of its interval, the
    datablock its high end. */
module Inttree {
  import opened KeyOrder
  import opened TreeShape
  import opened RbShape
  import opened Bstree
  import opened BstreeRuns

  /** `inttree_cmp_overlap`. */
  predicate Overlap(aLow: int, aHigh: int, bLow: int, bHigh: int) {
    if aLow <= bLow then bLow <= aHigh else aLow <= bHigh
  }

  /** On proper intervals this says that they share a point. */
  lemma OverlapMeansCommonPoint(aLow: int, aHigh: int, bLow: int, bHigh: int)
    requires aLow <= aHigh && bLow <= bHigh
    ensures Overlap(aLow, aHigh, bLow, bHigh) <==> exists x: int :: Covers(aLow, aHigh, x) && Covers(bLow, bHigh, x)
  {
    if Overlap(aLow, aHigh, bLow, bHigh) {
      var x := if aLow <= bLow then bLow else aLow;
      assert Covers(aLow, aHigh, x) && Covers(bLow, bHigh, x);
    }
  }

  predicate Covers(low: int, high: int, x: int) { low <= x <= high }

  predicate Hit(n: BNode, low: int, high: int) { Overlap(n.key, n.data, low, high) }

  /** Some interval of the subtree overlaps. */
  ghost predicate SomeHit(t: Tree, low: int, high: int) {
    exists n :: n in Inorder(t) && Hit(n, low, high)
  }

  ghost predicate ProperIntervals(s: seq<BNode>) {
    forall n :: n in s ==> INT_MIN <= n.key <= n.data
  }

  lemma NodesOf(t: Tree)
    requires t.Node?
    ensures t.id in Inorder(t)
    ensures forall n :: n in Inorder(t.l) ==> n in Inorder(t)
    ensures forall n :: n in Inorder(t.r) ==> n in Inorder(t)
    ensures forall n :: n in Inorder(t) ==> n in Inorder(t.l) || n == t.id || n in Inorder(t.r)
  {
  }

  lemma LeafOrder(t: Tree)
    ensures t.Leaf? ==> Inorder(t) == []
  {
  }

  /** The greatest high end bounds all high ends, and some node attains it. */
  lemma {:induction false} ValueIsMax(t: Tree)
    requires t.Node? && forall n :: n in Inorder(t) ==> INT_MIN <= n.data
    ensures forall n :: n in Inorder(t) ==> n.data <= Value(Intervals, t)
    ensures exists n :: n in Inorder(t) && n.data == Value(Intervals, t)
  {
    assert t.id in Inorder(t);
    assert forall n :: n in Inorder(t.l) || n in Inorder(t.r) ==> n in Inorder(t);
    if t.l.Node? { ValueIsMax(t.l); }
    if t.r.Node? { ValueIsMax(t.r); }
    assert forall n :: n in Inorder(t) ==> n in Inorder(t.l) || n == t.id || n in Inorder(t.r);
  }

  /** Low ends ascend. */
  ghost predicate Ascending(s: seq<BNode>) { Sorted(Difference, s) }

  /** Nothing on the left reaches the interval: an overlap can only be on the right. */
  lemma GoRight(t: Tree, low: int, high: int)
    requires t.Node? && ProperIntervals(Inorder(t)) && !Hit(t.id, low, high)
    requires t.l.Leaf? || Value(Intervals, t.l) < low
    ensures SomeHit(t, low, high) <==> SomeHit(t.r, low, high)
  {
    hide Inorder, Value;
    NodesOf(t);
    if t.l.Node? { ValueIsMax(t.l); }
    LeafOrder(t.l);
  }

  /** Of ascending proper intervals, the first reaches the interval and does not overlap it: then
      none of the others overlaps it. */
  lemma Beyond(far: BNode, n: BNode, low: int, high: int)
    requires far.key < n.key && low <= far.data && !Hit(far, low, high)
    ensures !Hit(n, low, high)
  {
  }

  lemma AroundRoot(t: Tree)
    requires t.Node? && Ascending(Inorder(t))
    ensures forall n :: n in Inorder(t.l) ==> n.key < t.id.key
    ensures forall n :: n in Inorder(t.r) ==> t.id.key < n.key
  {
    hide Inorder;
    InorderNode(t);
    SortedParts(Difference, Inorder(t.l), t.id, Inorder(t.r));
  }

  /** Something on the left reaches it: if nothing there overlaps, nothing does. */
  lemma GoLeft(t: Tree, low: int, high: int)
    requires t.Node? && Ascending(Inorder(t)) && ProperIntervals(Inorder(t)) && !Hit(t.id, low, high)
    requires t.l.Node? && low <= Value(Intervals, t.l)
    ensures SomeHit(t, low, high) <==> SomeHit(t.l, low, high)
  {
    hide Inorder, Ascending, Hit, Value;
    NodesOf(t);
    AroundRoot(t);
    ValueIsMax(t.l);
    var far :| far in Inorder(t.l) && far.data == Value(Intervals, t.l);
    if !Hit(far, low, high) {
      forall n | n in Inorder(t.r) ensures !Hit(n, low, high) {
        Beyond(far, n, low, high);
      }
    }
  }

  lemma SubAscending(t: Tree)
    requires t.Node? && Ascending(Inorder(t))
    ensures Ascending(Inorder(t.l)) && Ascending(Inorder(t.r))
  {
    hide Inorder;
    InorderNode(t);
    AscendingParts(Inorder(t.l), t.id, Inorder(t.r));
  }

  lemma AscendingParts(a: seq<BNode>, x: BNode, b: seq<BNode>)
    requires Ascending(a + [x] + b)
    ensures Ascending(a) && Ascending(b)
  {
    var s := a + [x] + b;
    assert forall i :: 0 <= i < |a| ==> s[i] == a[i];
    assert forall i :: 0 <= i < |b| ==> s[|a| + 1 + i] == b[i];
  }

  // ----- The search -----

  /** Where the search ends. */
  ghost function Found(t: Tree, low: int, high: int): BNode? {
    if t.Leaf? then null
    else if Hit(t.id, low, high) then t.id
    else if t.l.Node? && Value(Intervals, t.l) >= low then Found(t.l, low, high)
    else Found(t.r, low, high)
  }

  lemma {:induction false} FoundHits(t: Tree, low: int, high: int)
    ensures Found(t, low, high) != null ==> Found(t, low, high) in Inorder(t) && Hit(Found(t, low, high), low, high)
  {
    if t.Node? {
      FoundHits(t.l, low, high);
      FoundHits(t.r, low, high);
    }
  }

  /** If low ends ascend, the search misses no overlap. */
  lemma {:induction false} FoundExact(t: Tree, low: int, high: int)
    requires Ascending(Inorder(t)) && ProperIntervals(Inorder(t))
    ensures Found(t, low, high) != null <==> SomeHit(t, low, high)
  {
    if t.Node? {
      NodesOf(t);
      SubAscending(t);
      FoundExact(t.l, low, high);
      FoundExact(t.r, low, high);
      if !Hit(t.id, low, high) {
        if t.l.Node? && Value(Intervals, t.l) >= low { GoLeft(t, low, high); } else { GoRight(t, low, high); }
      }
    }
  }

  /** Among two intervals it misses none, whatever their order. */
  lemma {:induction false} FoundAmongTwo(t: Tree, low: int, high: int)
    requires |Inorder(t)| <= 2 && ProperIntervals(Inorder(t))
    ensures Found(t, low, high) != null <==> SomeHit(t, low, high)
  {
    if t.Node? {
      NodesOf(t);
      FoundAmongTwo(t.l, low, high);
      FoundAmongTwo(t.r, low, high);
      if !Hit(t.id, low, high) && !(t.l.Node? && Value(Intervals, t.l) >= low) { GoRight(t, low, high); }
    }
  }

  /** `inttree_overlap_search`: it reads `max_high` of left children only. */
  method OverlapSearch(tr: BTree, node: BNode, low: int, high: int, ghost m: Mem, ghost c: Ctx, ghost t: Tree)
    returns (found: BNode?)
    requires tr.aux == Intervals && tr.At(m, c, t) && node == Ptr(tr.nil, t)
    requires t.Node? ==> Good(m, Intervals, t.l) && Good(m, Intervals, t.r)
    ensures found == Found(t, low, high)
    decreases t
  {
    tr.LookFocus(m, c, t);
    if node == tr.nil {
      return null;
    }
    if Overlap(node.key, node.data, low, high) {
      return node;
    }
    Down(m, tr.nil, tr.root, c, Left, t);
    Down(m, tr.nil, tr.root, c, Right, t);
    tr.LookFocus(m, In(Left, t.id, t.red, t.r, c), t.l);
    tr.ReadHigh(m, c, t);
    if node.left != tr.nil && node.left.maxHigh >= low {
      found := OverlapSearch(tr, node.left, low, high, m, In(Left, t.id, t.red, t.r, c), t.l);
    } else {
      found := OverlapSearch(tr, node.right, low, high, m, In(Right, t.id, t.red, t.l, c), t.r);
    }
  }

  /** The search from the real root, whose own `max_high` may be stale. */
  method Search(tr: BTree, low: int, high: int) returns (found: BNode?)
    requires tr.aux == Intervals && tr.Valid() && tr.sound && ProperIntervals(Inorder(tr.shape))
    ensures found == Found(tr.shape, low, high)
    ensures found != null ==> (found.key, found.data) in tr.Entries() && Overlap(found.key, found.data, low, high)
    ensures Ascending(Inorder(tr.shape)) || tr.current <= 2 ==>
      (found != null <==> exists e :: e in tr.Entries() && Overlap(e.0, e.1, low, high))
  {
    tr.LookFocus(tr.mem, Top, tr.shape);
    found := OverlapSearch(tr, tr.root.left, low, high, tr.mem, Top, tr.shape);
    FoundHits(tr.shape, low, high);
    assert forall n :: n in Inorder(tr.shape) ==> (n.key, n.data) in tr.Entries();
    if Ascending(Inorder(tr.shape)) {
      FoundExact(tr.shape, low, high);
    } else if tr.current <= 2 {
      FoundAmongTwo(tr.shape, low, high);
    }
  }

  // ----- Whole runs -----

  lemma {:induction false} KeptProper(ivs: seq<(int, int)>)
    requires forall iv :: iv in ivs ==> INT_MIN <= iv.0 <= iv.1
    ensures forall e :: e in Kept(ivs) ==> INT_MIN <= e.0 <= e.1
  {
    if ivs != [] {
      assert ivs[|ivs| - 1] in ivs;
      KeptProper(ivs[..|ivs| - 1]);
    }
  }

  ghost predicate Int32s(keys: set<int>) {
    forall k :: k in keys ==> Int32(k)
  }

  /** The low ends for which the search is right after any insertions: no more than two, or no two
      so far apart that their difference is not a 32-bit integer. */
  ghost predicate SearchSafe(lows: set<int>) {
    |lows| <= 2 || Close(lows)
  }

  /** A root and at most one child, on the side the comparison says. */
  ghost predicate Few(t: Tree) {
    t.Node? ==>
      && Int32(t.id.key)
      && (t.l.Node? ==>
            t.r.Leaf? && t.l.l.Leaf? && t.l.r.Leaf? && Int32(t.l.id.key) && CmpKey(t.l.id.key, t.id.key) < 0)
      && (t.r.Node? ==>
            t.l.Leaf? && t.r.l.Leaf? && t.r.r.Leaf? && Int32(t.r.id.key) && CmpKey(t.r.id.key, t.id.key) > 0)
  }

  /** A hole in a small tree is near the root. */
  lemma {:induction false} HoleDepth(c: Ctx, t: Tree)
    ensures |Inorder(Plug(c, t))| >= Depth(c) + |Inorder(t)|
  {
    if c.In? { HoleDepth(c.up, Mk(c.side, c.id, c.red, t, c.sib)); }
  }

  lemma ThreeKeys(lows: set<int>, a: int, b: int, k: int)
    requires a in lows && b in lows && k in lows && a != b && k != a && k != b
    ensures |lows| >= 3
  {
    var rest := lows - {a, b, k};
    assert lows == rest + {a, b, k} && |{a, b, k}| == 3;
  }

  ghost predicate IsCmpKey(cmp: Compare) {
    forall a, b :: cmp(a, b) == CmpKey(a, b)
  }

  /** With two low ends at most, a third node is never linked in. */
  lemma FewNext(cmp: Compare, t: Tree, c: Ctx, n: BNode, lows: set<int>)
    requires Few(t) && !Red(t) && |lows| <= 2 && KeysOf(Inorder(t)) <= lows && n.key in lows && Int32(n.key)
    requires Plug(c, Leaf) == t && Between(cmp, c, n.key) && IsCmpKey(cmp)
    ensures !CtxRed(c) && Few(Blackened(Plug(c, Node(n, true, Leaf, Leaf)))) && n.key !in KeysOf(Inorder(t))
  {
    HoleDepth(c, Leaf);
    if t.Node? {
      assert t.id in Inorder(t) && (t.l.Node? ==> t.l.id in Inorder(t)) && (t.r.Node? ==> t.r.id in Inorder(t));
      assert forall o :: o in Inorder(t) ==> o.key in KeysOf(Inorder(t));
      FewPlace(cmp, t, c, n.key, lows);
      assert c == In(if CmpKey(n.key, t.id.key) < 0 then Left else Right, t.id, t.red, Leaf, Top);
    }
  }

  lemma FewPlace(cmp: Compare, t: Tree, c: Ctx, k: int, lows: set<int>)
    requires t.Node? && Few(t) && |lows| <= 2 && t.id.key in lows && k in lows && Int32(k)
    requires (t.l.Node? ==> t.l.id.key in lows) && (t.r.Node? ==> t.r.id.key in lows)
    requires Plug(c, Leaf) == t && Between(cmp, c, k) && Depth(c) <= 2 && IsCmpKey(cmp)
    ensures t.l.Leaf? && t.r.Leaf? && c.In? && c.up.Top? && k != t.id.key
  {
    assert c.In? && Plug(c, Leaf) == Plug(c.up, Mk(c.side, c.id, c.red, Leaf, c.sib));
    assert Depth(c) == 1 + Depth(c.up) && Between(cmp, c.up, k);
    if c.up.In? {
      assert Depth(c.up) == 1 + Depth(c.up.up) && c.up.up.Top?;
    }
    CmpKeyDistinct(k, t.id.key);
    if t.l.Node? && k != t.id.key && k != t.l.id.key {
      CmpKeyDistinct(t.l.id.key, t.id.key);
      ThreeKeys(lows, t.id.key, t.l.id.key, k);
    }
    if t.r.Node? && k != t.id.key && k != t.r.id.key {
      CmpKeyDistinct(t.r.id.key, t.id.key);
      ThreeKeys(lows, t.id.key, t.r.id.key, k);
    }
  }

  /** Insertions in any order and number, then a search: the answer is an overlapping interval exactly
      when one is stored. */
  method InsertAllThenSearch(ivs: seq<(int, int)>, low: int, high: int) returns (tr: BTree, found: BNode?)
    requires forall iv :: iv in ivs ==> INT_MIN <= iv.0 <= iv.1
    requires Int32s(FirstKeys(ivs)) && SearchSafe(FirstKeys(ivs))
    ensures tr.Valid() && tr.aux == Intervals && tr.Entries() == Kept(ivs)
    ensures found != null <==> exists e :: e in Kept(ivs) && Overlap(e.0, e.1, low, high)
    ensures found != null ==> (found.key, found.data) in Kept(ivs) && Overlap(found.key, found.data, low, high)
  {
    tr := InsertIntervals(ivs);
    KeptProper(ivs);
    assert forall n :: n in Inorder(tr.shape) ==> (n.key, n.data) in tr.Entries();
    found := Search(tr, low, high);
  }

  /** How the tree of a run is known to be searched right. */
  ghost predicate Searchable(tr: BTree, lows: set<int>)
    reads tr
  {
    && tr.Keys() <= lows
    && if Close(lows) then tr.Ordered() else Few(tr.shape)
  }

  lemma CloseOrder(cmp: Compare, lows: set<int>)
    requires Close(lows) && IsCmpKey(cmp)
    ensures OrderOn(cmp, lows)
  {
    CmpKeyClose(lows);
  }

  lemma CloseAscending(cmp: Compare, s: seq<BNode>, lows: set<int>)
    requires Close(lows) && IsCmpKey(cmp) && Sorted(cmp, s) && KeysOf(s) <= lows
    ensures Ascending(s)
  {
    CmpKeyClose(lows);
    forall i, j | 0 <= i < j < |s| ensures s[i].key < s[j].key {
      assert s[i].key in KeysOf(s) && s[j].key in KeysOf(s);
    }
  }

  lemma NothingSearchable(tr: BTree, lows: set<int>)
    requires tr.Valid() && tr.Ordered() && Inorder(tr.shape) == [] && tr.cmp == Callback(Intervals, Difference)
    ensures Searchable(tr, lows) && IsCmpKey(tr.cmp)
  {
  }

  lemma SearchableWell(tr: BTree, lows: set<int>)
    requires tr.Valid() && Searchable(tr, lows) && IsCmpKey(tr.cmp)
    ensures Ascending(Inorder(tr.shape)) || tr.current <= 2
  {
    if Close(lows) { CloseAscending(tr.cmp, Inorder(tr.shape), lows); }
  }

  /** The insertions; nothing depends on the ghost facts that differ between the two safe cases. */
  method InsertIntervals(ivs: seq<(int, int)>) returns (tr: BTree)
    requires Int32s(FirstKeys(ivs)) && SearchSafe(FirstKeys(ivs))
    ensures tr.Valid() && tr.aux == Intervals && tr.sound && tr.Entries() == Kept(ivs)
    ensures Ascending(Inorder(tr.shape)) || tr.current <= 2
  {
    hide BTree.Valid, BTree.Ordered, Close, Few, EntriesOf, KeysOf, Kept, IsCmpKey, FirstKeys, SearchSafe, Searchable;
    ghost var lows := FirstKeys(ivs);
    tr := new BTree(Intervals, Difference);
    NothingYet(tr.shape);
    NothingSearchable(tr, lows);
    for i := 0 to |ivs|
      invariant tr.Valid() && tr.sound && tr.aux == Intervals && tr.Entries() == Kept(ivs[..i])
      invariant Searchable(tr, lows) && IsCmpKey(tr.cmp)
      invariant fresh(tr) && fresh(tr.mem.Keys) && fresh(tr.nil)
    {
      assert ivs[..i + 1] == ivs[..i] + [ivs[i]];
      FirstKeysOf(ivs, i);
      InsertInterval(tr, ivs[i].0, ivs[i].1, lows, ivs[..i]);
    }
    assert ivs[..|ivs|] == ivs;
    SearchableWell(tr, lows);
  }

  lemma RootBlack(tr: BTree)
    requires tr.Valid()
    ensures !Red(tr.shape)
  {
  }

  /** A node the comparison takes for the key has the key. */
  lemma Met(cmp: Compare, s: seq<BNode>, n: BNode, low: int, lows: set<int>)
    requires IsCmpKey(cmp) && n in s && KeysOf(s) <= lows && Int32s(lows) && low in lows && cmp(low, n.key) == 0
    ensures low in KeysOf(s)
  {
    assert n.key in KeysOf(s);
    CmpKeyDistinct(low, n.key);
  }

  method InsertInterval(tr: BTree, low: int, high: int, ghost lows: set<int>, ghost before: seq<(int, int)>)
    requires tr.Valid() && tr.sound && tr.aux == Intervals && tr.Entries() == Kept(before)
    requires Searchable(tr, lows) && IsCmpKey(tr.cmp) && Int32s(lows) && SearchSafe(lows) && low in lows
    modifies tr, tr.mem.Keys, tr.nil
    ensures tr.Valid() && tr.sound && tr.Entries() == Kept(before + [(low, high)]) && Searchable(tr, lows)
    ensures fresh(tr.mem.Keys - old(tr.mem.Keys))
  {
    hide BTree.Valid, BTree.Ordered, OrderOn, Close, Few, EntriesOf, KeysOf, Kept, Between, IsCmpKey, CtxRed, Blackened,
      Plug;
    ghost var was := tr.shape;
    if Close(lows) {
      CloseOrder(tr.cmp, lows);
      OrderNext(tr.cmp, lows, tr.Keys(), low);
    } else {
      RootBlack(tr);
    }
    var r;
    ghost var c, n;
    r, c, n := tr.InsertPlace(low, high);
    EntriesAround(Before(c), n, After(c));
    if r == ERROR {
      Met(tr.cmp, Inorder(was), n, low, lows);
    } else if !Close(lows) {
      FewNext(tr.cmp, was, c, n, lows);
    }
    KeptNext(Inorder(was), tr.Entries(), before, (low, high));
  }

  // ----- The other half: where the search goes wrong -----

  /** A black root and two red children. */
  ghost predicate Three(t: Tree, r: int, l: int, q: int) {
    && t.Node? && Point(t.id, r) && t.l.Node? && Point(t.l.id, l) && t.l.l.Leaf? && t.l.r.Leaf?
    && t.r.Node? && Point(t.r.id, q) && t.r.l.Leaf? && t.r.r.Leaf?
  }

  ghost predicate Two(t: Tree, r: int, l: int) {
    && t.Node? && Point(t.id, r) && t.r.Leaf?
    && t.l.Node? && Point(t.l.id, l) && t.l.l.Leaf? && t.l.r.Leaf?
  }

  ghost predicate One(t: Tree, r: int) {
    t.Node? && Point(t.id, r) && t.l.Leaf? && t.r.Leaf?
  }

  /** The interval of one point. */
  predicate Point(n: BNode, x: int) { n.key == x && n.data == x }

  /** The comparison puts `l` left of `r` and `q` right of it; as integers `q` is below `l`. */
  predicate Crossed(r: int, l: int, q: int) {
    Int32(r) && Int32(l) && Int32(q) && r != q && q < l && CmpKey(l, r) < 0 && CmpKey(q, r) > 0
  }

  /** The left child's greatest high end sends the search left, away from the interval it is after. */
  lemma ThreeMisses(t: Tree, r: int, l: int, q: int)
    requires Three(t, r, l, q) && Crossed(r, l, q)
    ensures Found(t, q, q) == null
  {
    assert Value(Intervals, t.l) >= l;
    assert Found(t, q, q) == Found(t.l, q, q);
  }

  lemma PlaceFirst(c: Ctx, n: BNode)
    requires Plug(c, Leaf) == Leaf && Point(n, n.key)
    ensures !CtxRed(c) && One(Blackened(Plug(c, Node(n, true, Leaf, Leaf))), n.key)
  {
    HoleDepth(c, Leaf);
    assert c.Top?;
  }

  lemma PlaceSecond(cmp: Compare, t: Tree, c: Ctx, n: BNode, r: int)
    requires One(t, r) && !Red(t) && IsCmpKey(cmp) && Plug(c, Leaf) == t && Between(cmp, c, n.key)
    requires CmpKey(n.key, r) < 0 && Point(n, n.key)
    ensures !CtxRed(c) && Two(Blackened(Plug(c, Node(n, true, Leaf, Leaf))), r, n.key)
  {
    HoleDepth(c, Leaf);
    assert c.In? && Plug(c, Leaf) == Plug(c.up, Mk(c.side, c.id, c.red, Leaf, c.sib));
    assert Depth(c) == 1 + Depth(c.up) && c.up.Top?;
  }

  lemma PlaceThird(cmp: Compare, t: Tree, c: Ctx, n: BNode, r: int, l: int)
    requires Two(t, r, l) && !Red(t) && IsCmpKey(cmp) && Plug(c, Leaf) == t && Between(cmp, c, n.key)
    requires CmpKey(n.key, r) > 0 && Point(n, n.key)
    ensures !CtxRed(c) && Three(Blackened(Plug(c, Node(n, true, Leaf, Leaf))), r, l, n.key)
  {
    HoleDepth(c, Leaf);
    assert c.In? && Plug(c, Leaf) == Plug(c.up, Mk(c.side, c.id, c.red, Leaf, c.sib));
    assert Depth(c) == 1 + Depth(c.up) && Between(cmp, c.up, n.key);
    assert c.up.Top?;
  }

  /** A node with a new key is linked in. */
  method InsertPoint(tr: BTree, x: int) returns (ghost c: Ctx, ghost n: BNode)
    requires tr.Valid() && tr.sound && tr.aux == Intervals && IsCmpKey(tr.cmp)
    requires Int32s(tr.Keys()) && Int32(x) && x !in tr.Keys()
    modifies tr, tr.mem.Keys, tr.nil
    ensures tr.Valid() && tr.sound && fresh(tr.mem.Keys - old(tr.mem.Keys))
    ensures tr.Keys() == old(tr.Keys()) + {x} && tr.Entries() == old(tr.Entries()) + {(x, x)}
    ensures Point(n, x) && !Red(old(tr.shape)) && Plug(c, Leaf) == old(tr.shape) && Between(tr.cmp, c, x)
    ensures !CtxRed(c) ==> tr.shape == Blackened(Plug(c, Node(n, true, Leaf, Leaf)))
  {
    hide BTree.Valid, BTree.Ordered, OrderOn, EntriesOf, KeysOf, Between, IsCmpKey, CtxRed, Blackened, Plug;
    ghost var was := tr.shape;
    RootBlack(tr);
    var r;
    r, c, n := tr.InsertPlace(x, x);
    if r == ERROR {
      Met(tr.cmp, Inorder(was), n, x, KeysOf(Inorder(was)) + {x});
      assert false;
    }
    EntriesAround(Before(c), n, After(c));
  }

  /** Three insertions after which a stored interval is not found. */
  method MissThird(r: int, l: int, q: int) returns (tr: BTree, found: BNode?)
    requires Crossed(r, l, q)
    ensures tr.Valid() && tr.aux == Intervals && tr.Entries() == {(r, r), (l, l), (q, q)} && found == null
  {
    hide BTree.Valid, BTree.Ordered, OrderOn, EntriesOf, KeysOf, Between, IsCmpKey, CtxRed, Blackened, Plug, Found;
    hide One, Two, Three;
    tr := new BTree(Intervals, Difference);
    NothingYet(tr.shape);
    NothingSearchable(tr, {});
    ghost var c, n;
    c, n := InsertPoint(tr, r);
    PlaceFirst(c, n);
    c, n := InsertPoint(tr, l);
    PlaceSecond(tr.cmp, Plug(c, Leaf), c, n, r);
    c, n := InsertPoint(tr, q);
    PlaceThird(tr.cmp, Plug(c, Leaf), c, n, r, l);
    PointsProper(tr);
    found := Search(tr, q, q);
    ThreeMisses(tr.shape, r, l, q);
  }

  lemma PointsProper(tr: BTree)
    requires forall e :: e in tr.Entries() ==> INT_MIN <= e.0 <= e.1
    ensures ProperIntervals(Inorder(tr.shape))
  {
    assert forall n :: n in Inorder(tr.shape) ==> (n.key, n.data) in tr.Entries();
  }

  /** Three of the low ends that the comparison gets wrong. */
  method PickCrossed(lows: set<int>) returns (r: int, l: int, q: int)
    requires Int32s(lows) && !SearchSafe(lows)
    ensures {r, l, q} <= lows && Crossed(r, l, q)
  {
    hide Crossed;
    var a, b :| a in lows && b in lows && !Int32(a - b);
    OneMore(lows, a, b);
    var c :| c in lows && c != a && c != b;
    var lo, hi := if a < b then a else b, if a < b then b else a;
    if c < lo {
      lo, c := c, lo;
    } else if hi < c {
      hi, c := c, hi;
    }
    Crossing(lo, c, hi);
    if c - lo < 0x8000_0000 {
      return lo, hi, c;
    } else {
      return hi, c, lo;
    }
  }

  /** Whenever low ends are not safe, some insertions with these low ends make the search miss an
      interval that overlaps. So `SearchSafe` says exactly when the search is right. */
  method SearchMisses(lows: set<int>) returns (r: int, l: int, q: int, tr: BTree, found: BNode?)
    requires Int32s(lows) && !SearchSafe(lows)
    ensures {r, l, q} <= lows && tr.Valid() && tr.aux == Intervals && tr.Entries() == {(r, r), (l, l), (q, q)}
    ensures found == null && Overlap(q, q, q, q)
  {
    hide Crossed, Int32s, SearchSafe, BTree.Valid;
    r, l, q := PickCrossed(lows);
    tr, found := MissThird(r, l, q);
  }

  /** Of three keys with the outer two too far apart, the comparison gets two in the wrong order. */
  lemma Crossing(lo: int, c: int, hi: int)
    requires Int32(lo) && Int32(c) && Int32(hi) && lo < c < hi && hi - lo >= 0x8000_0000
    ensures if c - lo < 0x8000_0000 then Crossed(lo, hi, c) else Crossed(hi, c, lo)
  {
  }

  lemma SubsetSize(some: set<int>, all: set<int>)
    requires some <= all
    ensures |some| <= |all|
  {
    assert all == some + (all - some);
  }

  lemma OneMore(lows: set<int>, a: int, b: int)
    requires |lows| > 2
    ensures exists c :: c in lows && c != a && c != b
  {
    if forall c :: c in lows ==> c == a || c == b { SubsetSize(lows, {a, b}); }
  }
}
