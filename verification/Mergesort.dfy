/** The two mergesorts on linked lists of `src/algorithm/sort.c`, which relink the nodes in place. */
module Mergesort {
  import opened Stable

  /** `struct llist_node`. */
  class LNode {
    var next: LNode?
    var prev: LNode?
    const data: int

    constructor (data: int)
      ensures this.data == data && next == null && prev == null
    {
      this.data, next, prev := data, null, null;
    }
  }

  /** The order of nodes that a comparison of data gives. */
  function By(cmpe: (int, int) -> int): (LNode, LNode) -> bool {
    (a: LNode, b: LNode) => cmpe(a.data, b.data) <= 0
  }

  predicate Distinct(s: seq<LNode>) {
    forall i, j :: 0 <= i < j < |s| ==> s[i] != s[j]
  }

  function First(s: seq<LNode>, end: LNode?): LNode? {
    if s == [] then end else s[0]
  }

  function After(s: seq<LNode>, i: nat, end: LNode?): LNode? {
    if i + 1 < |s| then s[i + 1] else end
  }

  function Before(s: seq<LNode>, i: nat): LNode? {
    if 0 < i <= |s| then s[i - 1] else null
  }

  /** The `next` links lead through `s` to `end`. */
  ghost predicate Chain(s: seq<LNode>, end: LNode?)
    reads s
  {
    forall i :: 0 <= i < |s| ==> s[i].next == After(s, i, end)
  }

  /** The `prev` links lead back through `s`. */
  ghost predicate Backward(s: seq<LNode>)
    reads s
  {
    forall i :: 0 <= i < |s| ==> s[i].prev == Before(s, i)
  }

  /** `m` is linked up so far: its last node may lead anywhere. */
  ghost predicate Linked(m: seq<LNode>, isdouble: bool)
    reads m
  {
    && (forall i :: 0 <= i < |m| - 1 ==> m[i].next == After(m, i, null))
    && (isdouble ==> Backward(m))
  }

  function Last(m: seq<LNode>): LNode? {
    if m == [] then null else m[|m| - 1]
  }

  predicate Apart(a: seq<LNode>, b: seq<LNode>) {
    forall i :: 0 <= i < |a| ==> a[i] !in b
  }

  /** The lines at the end of both merge loops. */
  method Append(tail: LNode?, next: LNode, isdouble: bool, ghost m: seq<LNode>)
    requires tail == Last(m) && next !in m && Linked(m, isdouble) && Distinct(m)
    modifies m, next`prev
    ensures Linked(m + [next], isdouble) && next.next == old(next.next)
    ensures forall n :: n in m ==> n.prev == old(n.prev)
    ensures !isdouble ==> next.prev == old(next.prev)
  {
    if tail != null {
      tail.next := next;
    }
    if isdouble {
      next.prev := tail;
    }
    assert forall i :: 0 <= i < |m| - 1 ==> m[i] != tail && m[i].next == After(m, i, null);
    Extended(m, next, isdouble);
  }

  lemma Extended(m: seq<LNode>, next: LNode, isdouble: bool)
    requires forall i :: 0 <= i < |m| - 1 ==> m[i].next == After(m, i, null)
    requires m != [] ==> m[|m| - 1].next == next
    requires isdouble ==> Backward(m) && next.prev == Last(m)
    ensures Linked(m + [next], isdouble)
  {
    var s := m + [next];
    assert forall i :: 0 <= i < |m| ==> s[i] == m[i] && Before(s, i) == Before(m, i);
    assert forall i :: 0 <= i < |m| - 1 ==> After(s, i, null) == After(m, i, null);
  }

  lemma Rest(s: seq<LNode>, end: LNode?)
    requires s != [] && Distinct(s) && Chain(s, end)
    ensures Chain(s[1..], end) && Distinct(s[1..]) && Within(s[1..], s) && s[0] !in s[1..]
    ensures s[0].next == First(s[1..], end)
  {
  }

  /** What the comparison in the loop decides. */
  lemma MergeStep(le: (LNode, LNode) -> bool, a: seq<LNode>, b: seq<LNode>)
    requires a != [] || b != []
    ensures
      if b == [] || (a != [] && le(a[0], b[0])) then a != [] && Merge(le, a, b) == [a[0]] + Merge(le, a[1..], b)
      else b != [] && Merge(le, a, b) == [b[0]] + Merge(le, a, b[1..])
  {
    if b == [] { assert a == [a[0]] + a[1..]; }
    if a == [] { assert b == [b[0]] + b[1..]; }
  }

  // ----- mergesort_rec -----

  /** Two lists left to merge, and what is merged already. */
  ghost predicate Merging(list: LNode?, right: LNode?, tail: LNode?, isdouble: bool,
                          ra: seq<LNode>, rb: seq<LNode>, m: seq<LNode>)
    reads ra, rb, m
  {
    && list == First(ra, null) && right == First(rb, null) && Chain(ra, null) && Chain(rb, null)
    && Linked(m, isdouble) && tail == Last(m) && (m != [] ==> tail.next == list || tail.next == right)
    && Shared(ra, rb, m)
  }

  /** No node is in two places. */
  predicate Shared(ra: seq<LNode>, rb: seq<LNode>, m: seq<LNode>) {
    Distinct(m) && Distinct(ra) && Distinct(rb) && Apart(ra, rb) && Apart(ra, m) && Apart(rb, m)
  }

  lemma Moved(ra: seq<LNode>, rb: seq<LNode>, m: seq<LNode>)
    requires Shared(ra, rb, m) && ra != []
    ensures Shared(ra[1..], rb, m + [ra[0]]) && ra[0] !in m && ra[0] !in ra[1..] && ra[0] !in rb
    ensures Apart(ra[1..], m) && Apart(rb, m) && Distinct(ra) && Distinct(m)
  {
    assert Within(ra[1..], ra);
    DistinctAdd(m, ra[0]);
  }

  lemma DistinctAdd(m: seq<LNode>, x: LNode)
    requires Distinct(m) && x !in m
    ensures Distinct(m + [x])
  {
    assert forall i :: 0 <= i < |m| ==> (m + [x])[i] == m[i] && m[i] in m;
  }

  lemma MergingSwap(list: LNode?, right: LNode?, tail: LNode?, isdouble: bool, ra: seq<LNode>, rb: seq<LNode>,
                    m: seq<LNode>)
    requires Merging(list, right, tail, isdouble, ra, rb, m)
    ensures Merging(right, list, tail, isdouble, rb, ra, m)
  {
  }

  lemma Fronts(list: LNode?, right: LNode?, tail: LNode?, isdouble: bool, ra: seq<LNode>, rb: seq<LNode>, m: seq<LNode>)
    requires Merging(list, right, tail, isdouble, ra, rb, m)
    ensures list == First(ra, null) && right == First(rb, null)
    ensures list == right == null && m != [] ==> Chain(m, null) && Linked(m, isdouble)
  {
  }

  /** One turn of the loop: `next` comes from the front of `ra`. */
  method TakeFirst(list: LNode, tail: LNode?, isdouble: bool, ghost right: LNode?,
                   ghost ra: seq<LNode>, ghost rb: seq<LNode>, ghost m: seq<LNode>)
    returns (list': LNode?)
    requires Merging(list, right, tail, isdouble, ra, rb, m)
    modifies m, ra
    ensures Merging(list', right, list, isdouble, ra[1..], rb, m + [list])
    ensures !isdouble ==> forall n :: n in ra || n in m ==> n.prev == old(n.prev)
  {
    Moved(ra, rb, m);
    Rest(ra, null);
    hide Shared, Distinct, Chain, Linked;
    list' := list.next;
    Append(tail, list, isdouble, m);
  }

  predicate Inside(s: seq<LNode>, all: set<LNode>) {
    forall i :: 0 <= i < |s| ==> s[i] in all
  }

  /** One turn of the loop that merges two lists into one. */
  method MergeTurn(list: LNode?, right: LNode?, tail: LNode?, cmpe: (int, int) -> int, isdouble: bool,
                   ghost all: set<LNode>, ghost ra: seq<LNode>, ghost rb: seq<LNode>, ghost m: seq<LNode>)
    returns (list': LNode?, right': LNode?, next: LNode, ghost ra': seq<LNode>, ghost rb': seq<LNode>)
    requires Merging(list, right, tail, isdouble, ra, rb, m) && (list != null || right != null)
    requires Inside(ra, all) && Inside(rb, all) && Inside(m, all)
    modifies all
    ensures Merging(list', right', next, isdouble, ra', rb', m + [next])
    ensures Merge(By(cmpe), ra, rb) == [next] + Merge(By(cmpe), ra', rb') && |ra'| + |rb'| < |ra| + |rb|
    ensures Inside(ra', all) && Inside(rb', all) && Inside(m + [next], all)
    ensures !isdouble ==> forall n :: n in all ==> n.prev == old(n.prev)
  {
    Fronts(list, right, tail, isdouble, ra, rb, m);
    MergeStep(By(cmpe), ra, rb);
    list', right', ra', rb' := list, right, ra, rb;
    hide Merge, Merging;
    if right == null || (list != null && cmpe(list.data, right.data) <= 0) {
      next := list;
      list' := TakeFirst(list, tail, isdouble, right, ra, rb, m);
      ra' := ra[1..];
    } else {
      next := right;
      MergingSwap(list, right, tail, isdouble, ra, rb, m);
      right' := TakeFirst(right, tail, isdouble, list, rb, ra, m);
      rb' := rb[1..];
      MergingSwap(right', list, next, isdouble, rb', ra, m + [next]);
    }
  }

  /** The loop that merges two lists into one. */
  method MergeLists(list0: LNode, right0: LNode, cmpe: (int, int) -> int, isdouble: bool, ghost all: set<LNode>,
                    ghost a: seq<LNode>, ghost b: seq<LNode>)
    returns (result: LNode?)
    requires Merging(list0, right0, null, isdouble, a, b, []) && Inside(a, all) && Inside(b, all)
    modifies all
    ensures var m := Merge(By(cmpe), a, b);
      m != [] && result == m[0] && Chain(m, null) && Linked(m, isdouble)
    ensures !isdouble ==> forall n :: n in all ==> n.prev == old(n.prev)
  {
    var list: LNode?, right: LNode? := list0, right0;
    var tail: LNode? := null;
    result := null;
    ghost var ra, rb, m := a, b, [];
    ghost var le := By(cmpe);
    Fronts(list0, right0, null, isdouble, a, b, []);
    hide Merge, Merging, Linked, Chain, Inside;
    while list != null || right != null
      invariant Merge(le, a, b) == m + Merge(le, ra, rb)
      invariant Merging(list, right, tail, isdouble, ra, rb, m) && result == First(m, null)
      invariant Inside(ra, all) && Inside(rb, all) && Inside(m, all)
      invariant !isdouble ==> forall n :: n in all ==> n.prev == old(n.prev)
      decreases |ra| + |rb|
    {
      var next;
      ghost var ra', rb';
      list, right, next, ra', rb' := MergeTurn(list, right, tail, cmpe, isdouble, all, ra, rb, m);
      if result == null {
        result := next;
      }
      tail := next;
      Regroup(m, next, Merge(le, ra', rb'));
      ra, rb, m := ra', rb', m + [next];
    }
    Fronts(list, right, tail, isdouble, ra, rb, m);
    MergeDone(le, a, b, m);
  }

  lemma Regroup(m: seq<LNode>, x: LNode, rest: seq<LNode>)
    ensures m + ([x] + rest) == (m + [x]) + rest
  {
  }

  lemma MergeDone(le: (LNode, LNode) -> bool, a: seq<LNode>, b: seq<LNode>, m: seq<LNode>)
    requires Merge(le, a, b) == m + Merge(le, [], []) && a != []
    ensures m == Merge(le, a, b) && m != []
  {
    MergeMembers(le, a, b);
  }

  /** Finds the halves by running two pointers, one at twice the speed of the other. */
  method Halve(list: LNode, ghost nodes: seq<LNode>) returns (right: LNode, last: LNode)
    requires |nodes| >= 2 && list == nodes[0] && Chain(nodes, null)
    ensures right == nodes[|nodes| / 2] && last == nodes[|nodes| / 2 - 1]
  {
    right, last := list, list;
    var temp: LNode? := list;
    ghost var k := 0;
    while temp != null && temp.next != null
      invariant 2 * k <= |nodes| && temp == (if 2 * k < |nodes| then nodes[2 * k] else null)
      invariant right == nodes[k] && last == if k == 0 then nodes[0] else nodes[k - 1]
      decreases |nodes| - 2 * k
    {
      last := right;
      right := right.next;
      temp := temp.next.next;
      k := k + 1;
    }
  }

  lemma Halves(nodes: seq<LNode>, k: nat)
    requires Distinct(nodes) && 0 < k < |nodes|
    ensures Distinct(nodes[..k]) && Distinct(nodes[k..]) && Apart(nodes[..k], nodes[k..])
    ensures Apart(nodes[k..], nodes[..k])
    ensures Within(nodes[..k], nodes) && Within(nodes[k..], nodes) && nodes == nodes[..k] + nodes[k..]
    ensures From(nodes[..k], nodes) && From(nodes[k..], nodes)
  {
  }

  predicate From(s: seq<LNode>, t: seq<LNode>) {
    forall i :: 0 <= i < |s| ==> s[i] in t
  }

  /** A rearrangement has the same nodes. */
  lemma Rearranged(s: seq<LNode>, out: seq<LNode>)
    requires Distinct(s) && multiset(out) == multiset(s)
    ensures Distinct(out) && |out| == |s| && From(out, s) && From(s, out)
  {
    SameMembers(out, s);
    OnceEach(s);
    forall i, j | 0 <= i < j < |out| ensures out[i] != out[j] {
      if out[i] == out[j] { Twice(out, i, j); }
    }
  }

  lemma Twice(s: seq<LNode>, i: nat, j: nat)
    requires i < j < |s| && s[i] == s[j]
    ensures multiset(s)[s[i]] >= 2
  {
    assert s == s[..i] + [s[i]] + s[i + 1..j] + [s[j]] + s[j + 1..];
  }

  lemma {:induction false} OnceEach(s: seq<LNode>)
    requires Distinct(s)
    ensures forall n :: multiset(s)[n] <= 1
  {
    if s != [] {
      OnceEach(s[1..]);
      assert s == [s[0]] + s[1..];
    }
  }

  /** The two cut off lists after the first is sorted, and after both are. */
  lemma CutOff(a: seq<LNode>, b: seq<LNode>, outA: seq<LNode>, outB: seq<LNode>)
    requires Distinct(a) && Distinct(b) && Apart(a, b) && multiset(outA) == multiset(a) && multiset(outB) == multiset(b)
    ensures Shared(outA, outB, []) && Apart(outA, b)
  {
    Rearranged(a, outA);
    Rearranged(b, outB);
    forall i | 0 <= i < |outA| ensures outA[i] !in b && outA[i] !in outB {
      assert outA[i] in a;
      var j :| 0 <= j < |a| && a[j] == outA[i];
      SameMembers(outB, b);
    }
  }

  /** A list with exactly these nodes. */
  ghost predicate IsList(head: LNode?, s: seq<LNode>)
    reads s
  {
    head == First(s, null) && Chain(s, null) && Distinct(s)
  }

  method CutAt(last: LNode, ghost nodes: seq<LNode>, ghost k: nat)
    requires Chain(nodes, null) && Distinct(nodes) && 0 < k < |nodes| && last == nodes[k - 1]
    modifies last`next
    ensures Chain(nodes[..k], null) && Chain(nodes[k..], null)
  {
    assert forall i :: 0 <= i < |nodes| && nodes[i] == last ==> i == k - 1;
    last.next := null;
    assert forall i :: 0 <= i < |nodes| ==> nodes[i].next == if i == k - 1 then null else After(nodes, i, null);
    Cut(nodes, k);
  }

  /** Breaks the list in two. */
  method Divide(list: LNode, ghost nodes: seq<LNode>) returns (right: LNode, ghost a: seq<LNode>, ghost b: seq<LNode>)
    requires |nodes| >= 2 && IsList(list, nodes)
    modifies nodes`next
    ensures nodes == a + b && 0 < |a| < |nodes| && Apart(a, b) && Apart(b, a) && Distinct(a) && Distinct(b)
    ensures IsList(list, a) && IsList(right, b) && From(a, nodes) && From(b, nodes)
  {
    var last;
    right, last := Halve(list, nodes);
    ghost var k := |nodes| / 2;
    a, b := nodes[..k], nodes[k..];
    Halves(nodes, k);
    hide Chain;
    CutAt(last, nodes, k);
  }

  lemma Cut(nodes: seq<LNode>, k: nat)
    requires 0 < k < |nodes|
    requires forall i :: 0 <= i < |nodes| ==> nodes[i].next == if i == k - 1 then null else After(nodes, i, null)
    ensures Chain(nodes[..k], null) && Chain(nodes[k..], null)
  {
  }

  lemma ReadyToMerge(left: LNode?, right: LNode?, isdouble: bool, outA: seq<LNode>, outB: seq<LNode>)
    requires IsList(left, outA) && IsList(right, outB) && Shared(outA, outB, [])
    ensures Merging(left, right, null, isdouble, outA, outB, [])
  {
  }

  lemma Parts(nodes: seq<LNode>, a: seq<LNode>, b: seq<LNode>, outA: seq<LNode>, outB: seq<LNode>)
    requires nodes == a + b && a != [] && b != [] && Distinct(a) && Distinct(b) && multiset(outA) == multiset(a)
    requires multiset(outB) == multiset(b)
    ensures outA != [] && outB != []
    ensures var all := set n | n in nodes :: n; Inside(outA, all) && Inside(outB, all)
  {
    Rearranged(a, outA);
    Rearranged(b, outB);
    forall i | 0 <= i < |outA| ensures outA[i] in nodes { assert outA[i] in a; }
    forall i | 0 <= i < |outB| ensures outB[i] in nodes { assert outB[i] in b; }
  }

  /** `mergesort_rec`: it relinks the given nodes into the one stable sorted list. */
  method MergesortRec(list: LNode?, cmpe: (int, int) -> int, isdouble: bool, ghost dom: seq<LNode>,
                      ghost nodes: seq<LNode>)
    returns (result: LNode?, ghost out: seq<LNode>)
    requires Preorder(By(cmpe), dom) && Within(nodes, dom) && IsList(list, nodes)
    modifies nodes
    ensures out == Msort(By(cmpe), nodes) && StableSort(By(cmpe), dom, nodes, out) && IsList(result, out)
    ensures isdouble && |nodes| >= 2 ==> Backward(out)
    ensures !isdouble || |nodes| < 2 ==> forall n :: n in nodes ==> n.prev == old(n.prev)
    decreases |nodes|, 2
  {
    if list == null || list.next == null {
      SortedAlready(By(cmpe), dom, nodes);
      OnlyMsort(By(cmpe), dom, nodes, nodes);
      return list, nodes;
    }
    Longer(list, nodes);
    result, out := SortHalves(list, cmpe, isdouble, dom, nodes);
    OnlyMsort(By(cmpe), dom, nodes, out);
  }

  lemma Longer(list: LNode?, nodes: seq<LNode>)
    requires IsList(list, nodes) && list != null && list.next != null
    ensures |nodes| >= 2
  {
  }

  /** The general case. */
  method SortHalves(list: LNode, cmpe: (int, int) -> int, isdouble: bool, ghost dom: seq<LNode>,
                    ghost nodes: seq<LNode>)
    returns (result: LNode?, ghost out: seq<LNode>)
    requires Preorder(By(cmpe), dom) && Within(nodes, dom) && IsList(list, nodes) && |nodes| >= 2
    modifies nodes
    ensures StableSort(By(cmpe), dom, nodes, out) && IsList(result, out)
    ensures isdouble ==> Backward(out)
    ensures !isdouble ==> forall n :: n in nodes ==> n.prev == old(n.prev)
    decreases |nodes|, 1
  {
    var right: LNode?, left: LNode?;
    ghost var a, b, outA, outB;
    right, a, b := Divide(list, nodes);
    assert Within(a, dom) && Within(b, dom);
    hide IsList, Chain, Preorder, Within, StableSort;
    left, right, outA, outB := SortBoth(list, right, cmpe, isdouble, dom, nodes, a, b);
    result, out := MergeSortedHalves(left, right, cmpe, isdouble, dom, nodes, a, b, outA, outB);
  }

  /** The two recursive calls. */
  method SortBoth(list: LNode?, right: LNode?, cmpe: (int, int) -> int, isdouble: bool, ghost dom: seq<LNode>,
                  ghost nodes: seq<LNode>, ghost a: seq<LNode>, ghost b: seq<LNode>)
    returns (left': LNode?, right': LNode?, ghost outA: seq<LNode>, ghost outB: seq<LNode>)
    requires Preorder(By(cmpe), dom) && Within(a, dom) && Within(b, dom) && IsList(list, a) && IsList(right, b)
    requires Apart(a, b) && Apart(b, a) && From(a, nodes) && From(b, nodes) && |a| < |nodes| && |b| < |nodes|
    requires Distinct(a) && Distinct(b)
    modifies nodes
    ensures StableSort(By(cmpe), dom, a, outA) && IsList(left', outA)
    ensures StableSort(By(cmpe), dom, b, outB) && IsList(right', outB)
    ensures !isdouble ==> forall n :: n in a || n in b ==> n.prev == old(n.prev)
    decreases |nodes|, 0
  {
    hide IsList, Chain, Distinct, Backward, Preorder, Within, Msort;
    left', outA := MergesortRec(list, cmpe, isdouble, dom, a);
    right', outB := MergesortRec(right, cmpe, isdouble, dom, b);
    CutOff(a, b, outA, outB);
  }

  lemma SortedAlready(le: (LNode, LNode) -> bool, dom: seq<LNode>, s: seq<LNode>)
    requires |s| <= 1
    ensures StableSort(le, dom, s, s)
  {
  }

  method MergeSortedHalves(left: LNode?, right: LNode?, cmpe: (int, int) -> int, isdouble: bool, ghost dom: seq<LNode>,
                           ghost nodes: seq<LNode>, ghost a: seq<LNode>, ghost b: seq<LNode>, ghost outA: seq<LNode>,
                           ghost outB: seq<LNode>)
    returns (result: LNode?, ghost out: seq<LNode>)
    requires Preorder(By(cmpe), dom) && Within(nodes, dom) && nodes == a + b && a != [] && b != []
    requires Distinct(a) && Distinct(b) && Apart(a, b) && Distinct(nodes)
    requires IsList(left, outA) && IsList(right, outB) && StableSort(By(cmpe), dom, a, outA)
    requires StableSort(By(cmpe), dom, b, outB)
    modifies nodes
    ensures StableSort(By(cmpe), dom, nodes, out) && IsList(result, out)
    ensures isdouble ==> Backward(out)
    ensures !isdouble ==> forall n :: n in nodes ==> n.prev == old(n.prev)
  {
    CutOff(a, b, outA, outB);
    Parts(nodes, a, b, outA, outB);
    ReadyToMerge(left, right, isdouble, outA, outB);
    MergeStable(By(cmpe), dom, a, b, outA, outB);
    out := Merge(By(cmpe), outA, outB);
    Rearranged(nodes, out);
    hide Preorder, StableSort, Merge, Merging, Chain;
    result := MergeLists(left, right, cmpe, isdouble, (set n | n in nodes :: n), outA, outB);
  }
}
