/** The bottom-up mergesort of `src/algorithm/sort.c`, and that it agrees with the recursive one. */
module MergesortIter {
  import opened Stable
  import opened Mergesort

  // ----- One pass, on values -----

  function Take<T>(s: seq<T>, m: nat): seq<T> { if |s| <= m then s else s[..m] }
  function Drop<T>(s: seq<T>, m: nat): seq<T> { if |s| <= m then [] else s[m..] }

  /** A pass merges neighbouring blocks of `m` elements. */
  function Pass<T>(le: (T, T) -> bool, s: seq<T>, m: nat): seq<T>
    requires m > 0
    decreases |s|
  {
    if s == [] then []
    else Merge(le, Take(s, m), Take(Drop(s, m), m)) + Pass(le, Drop(Drop(s, m), m), m)
  }

  /** The number of merges in a pass over `n` elements. */
  function Merges(n: nat, m: nat): nat
    requires m > 0
    decreases n
  {
    if n == 0 then 0 else 1 + if n <= 2 * m then 0 else Merges(n - 2 * m, m)
  }

  ghost predicate BlocksSorted<T>(le: (T, T) -> bool, s: seq<T>, m: nat)
    requires m > 0
    decreases |s|
  {
    s == [] || (Sorted(le, Take(s, m)) && BlocksSorted(le, Drop(s, m), m))
  }

  lemma {:induction false} SingleBlocks<T>(le: (T, T) -> bool, s: seq<T>)
    ensures BlocksSorted(le, s, 1)
    decreases |s|
  {
    if s != [] { SingleBlocks(le, Drop(s, 1)); }
  }

  lemma TakeDrop<T>(s: seq<T>, m: nat, dom: seq<T>)
    requires Within(s, dom)
    ensures s == Take(s, m) + Drop(s, m) && Within(Take(s, m), dom) && Within(Drop(s, m), dom)
  {
    assert forall x :: x in Take(s, m) ==> x in s;
    assert forall x :: x in Drop(s, m) ==> x in s;
  }

  lemma {:induction false} PassSize<T>(le: (T, T) -> bool, s: seq<T>, m: nat)
    requires m > 0
    ensures |Pass(le, s, m)| == |s|
    decreases |s|
  {
    if s != [] {
      MergeMembers(le, Take(s, m), Take(Drop(s, m), m));
      PassSize(le, Drop(Drop(s, m), m), m);
    }
  }

  /** A pass makes blocks twice as long. */
  lemma {:induction false} PassBlocks<T>(le: (T, T) -> bool, dom: seq<T>, s: seq<T>, m: nat)
    requires m > 0 && Preorder(le, dom) && Within(s, dom) && BlocksSorted(le, s, m)
    ensures BlocksSorted(le, Pass(le, s, m), 2 * m)
    decreases |s|
  {
    if s != [] {
      var a, b, rest := Take(s, m), Take(Drop(s, m), m), Drop(Drop(s, m), m);
      TakeDrop(s, m, dom);
      TakeDrop(Drop(s, m), m, dom);
      PassBlocks(le, dom, rest, m);
      PassSize(le, rest, m);
      MergeMembers(le, a, b);
      MergeSorted(le, dom, a, b);
      var out := Merge(le, a, b) + Pass(le, rest, m);
      assert Take(out, 2 * m) == Merge(le, a, b) && Drop(out, 2 * m) == Pass(le, rest, m);
    }
  }

  lemma {:induction false} PassSame<T>(le: (T, T) -> bool, s: seq<T>, m: nat)
    requires m > 0
    ensures multiset(Pass(le, s, m)) == multiset(s)
    decreases |s|
  {
    if s != [] {
      var a, b, rest := Take(s, m), Take(Drop(s, m), m), Drop(Drop(s, m), m);
      TakeDrop(s, m, s);
      TakeDrop(Drop(s, m), m, Drop(s, m));
      PassSame(le, rest, m);
      MergeMembers(le, a, b);
    }
  }

  /** A pass moves no element past one that compares equal. */
  lemma {:induction false} PassClass<T>(le: (T, T) -> bool, dom: seq<T>, s: seq<T>, m: nat, x: T)
    requires m > 0 && Preorder(le, dom) && Within(s, dom) && BlocksSorted(le, s, m) && x in dom
    ensures Class(le, Pass(le, s, m), x) == Class(le, s, x)
    decreases |s|
  {
    if s != [] {
      var a, b, rest := Take(s, m), Take(Drop(s, m), m), Drop(Drop(s, m), m);
      TakeDrop(s, m, dom);
      TakeDrop(Drop(s, m), m, dom);
      PassClass(le, dom, rest, m, x);
      hide Class, Take, Drop, Merge;
      MergeClass(le, dom, a, b, x);
      ClassConcat(le, Merge(le, a, b), Pass(le, rest, m), x);
      ClassConcat(le, a, Drop(s, m), x);
      ClassConcat(le, b, rest, x);
    }
  }

  /** A pass of one merge leaves everything sorted; more merges mean more than two blocks. */
  lemma OneMerge(n: nat, m: nat)
    requires m > 0
    ensures Merges(n, m) == 1 <==> 0 < n <= 2 * m
  {
    if n > 2 * m { assert Merges(n - 2 * m, m) >= 1; }
  }

  lemma WholeBlock<T>(le: (T, T) -> bool, s: seq<T>, m: nat)
    requires m > 0 && BlocksSorted(le, s, m) && |s| <= m
    ensures Sorted(le, s)
  {
    if s != [] { assert Take(s, m) == s; }
  }

  // ----- The pass on nodes -----

  /** Inside a merge: `ra` is left of the first block and leads to `end`, `rest` is left of the
      second block and of what follows it, `out` is linked up already. */
  ghost predicate InPass(p1: LNode?, p2: LNode?, tail: LNode?, isdouble: bool,
                         ra: seq<LNode>, end: LNode?, rest: seq<LNode>, out: seq<LNode>)
    reads ra, rest, out
  {
    && p1 == First(ra, end) && Chain(ra, end) && p2 == First(rest, null) && Chain(rest, null)
    && Linked(out, isdouble) && tail == Last(out) && Shared(ra, rest, out)
  }

  lemma SharedTurn(ra: seq<LNode>, rb: seq<LNode>, m: seq<LNode>)
    requires Shared(ra, rb, m)
    ensures Shared(rb, ra, m)
  {
  }

  method TakeP1(p1: LNode, tail: LNode?, isdouble: bool, ghost p2: LNode?,
                ghost ra: seq<LNode>, ghost end: LNode?, ghost rest: seq<LNode>, ghost out: seq<LNode>)
    returns (p1': LNode?)
    requires InPass(p1, p2, tail, isdouble, ra, end, rest, out) && ra != []
    modifies out, ra
    ensures InPass(p1', p2, p1, isdouble, ra[1..], end, rest, out + [p1])
    ensures !isdouble ==> forall n :: n in ra || n in out ==> n.prev == old(n.prev)
  {
    Moved(ra, rest, out);
    Rest(ra, end);
    hide Shared, Distinct, Chain, Linked;
    p1' := p1.next;
    Append(tail, p1, isdouble, out);
  }

  method TakeP2(p2: LNode, tail: LNode?, isdouble: bool, ghost p1: LNode?,
                ghost ra: seq<LNode>, ghost end: LNode?, ghost rest: seq<LNode>, ghost out: seq<LNode>)
    returns (p2': LNode?)
    requires InPass(p1, p2, tail, isdouble, ra, end, rest, out) && rest != []
    modifies out, rest
    ensures InPass(p1, p2', p2, isdouble, ra, end, rest[1..], out + [p2])
    ensures !isdouble ==> forall n :: n in rest || n in out ==> n.prev == old(n.prev)
  {
    SharedTurn(ra, rest, out);
    Moved(rest, ra, out);
    Rest(rest, null);
    SharedTurn(rest[1..], ra, out + [rest[0]]);
    hide Shared, Distinct, Chain, Linked;
    p2' := p2.next;
    Append(tail, p2, isdouble, out);
  }

  /** What is left of the second block: `size` counts its nodes, and more if the list ends first. */
  predicate SecondBlock(rb: seq<LNode>, after: seq<LNode>, size: nat) {
    size >= |rb| && (size > |rb| ==> after == [])
  }

  lemma SplitRest(rb: seq<LNode>, after: seq<LNode>)
    requires rb != []
    ensures (rb + after)[1..] == rb[1..] + after && (rb + after)[0] == rb[0]
  {
  }

  /** One turn of the inner loop. */
  method IterTurn(p1: LNode?, p2: LNode?, size1: nat, size2: nat, tail: LNode?, cmpe: (int, int) -> int, isdouble: bool,
                  ghost all: set<LNode>, ghost ra: seq<LNode>, ghost end: LNode?, ghost rb: seq<LNode>,
                  ghost after: seq<LNode>, ghost out: seq<LNode>)
    returns (p1': LNode?, p2': LNode?, size1': nat, size2': nat, next: LNode, ghost ra': seq<LNode>,
      ghost rb': seq<LNode>)
    requires InPass(p1, p2, tail, isdouble, ra, end, rb + after, out)
    requires size1 == |ra| && SecondBlock(rb, after, size2) && (size1 > 0 || (size2 > 0 && p2 != null))
    requires Inside(ra, all) && Inside(rb + after, all) && Inside(out, all)
    modifies all
    ensures InPass(p1', p2', next, isdouble, ra', end, rb' + after, out + [next])
    ensures size1' == |ra'| && SecondBlock(rb', after, size2') && |ra'| + |rb'| < |ra| + |rb|
    ensures Merge(By(cmpe), ra, rb) == [next] + Merge(By(cmpe), ra', rb')
    ensures Inside(ra', all) && Inside(rb' + after, all) && Inside(out + [next], all)
    ensures !isdouble ==> forall n :: n in all ==> n.prev == old(n.prev)
  {
    MergeStep(By(cmpe), ra, rb);
    p1', p2', size1', size2', ra', rb' := p1, p2, size1, size2, ra, rb;
    if rb != [] { SplitRest(rb, after); }
    assert rb == [] ==> rb + after == after;
    hide Merge, Chain, Linked, Shared;
    if size1 == 0 || !(size2 == 0 || p2 == null || cmpe(p1.data, p2.data) <= 0) {
      next := p2;
      p2' := TakeP2(p2, tail, isdouble, p1, ra, end, rb + after, out);
      size2' := size2 - 1;
      rb' := rb[1..];
    } else {
      next := p1;
      p1' := TakeP1(p1, tail, isdouble, p2, ra, end, rb + after, out);
      size1' := size1 - 1;
      ra' := ra[1..];
    }
  }

  /** Steps forward over at most `merge_size` nodes. */
  method StepPast(p1: LNode, mergeSize: nat, ghost rest: seq<LNode>) returns (p2: LNode?, size1: nat)
    requires rest != [] && p1 == rest[0] && Chain(rest, null) && mergeSize > 0
    ensures size1 == |Take(rest, mergeSize)| && p2 == First(Drop(rest, mergeSize), null)
  {
    p2, size1 := p1, 0;
    var i := 0;
    while i < mergeSize
      invariant i == size1 <= mergeSize && size1 < |rest| && p2 == rest[size1]
    {
      size1 := size1 + 1;
      p2 := p2.next;
      if p2 == null {
        break;
      }
      i := i + 1;
    }
  }

  /** Between two merges there is only one list left. */
  lemma BeginMerge(p1: LNode?, tail: LNode?, isdouble: bool, rest: seq<LNode>, out: seq<LNode>, m: nat)
    requires InPass(null, p1, tail, isdouble, [], null, rest, out) && rest != [] && m > 0
    ensures var p2 := First(Drop(rest, m), null);
      InPass(p1, p2, tail, isdouble, Take(rest, m), p2, Drop(rest, m), out)
  {
    var a, b := Take(rest, m), Drop(rest, m);
    assert forall i :: 0 <= i < |a| ==> a[i] == rest[i];
    assert forall i :: 0 <= i < |b| ==> b[i] == rest[|a| + i];
    assert Chain(a, First(b, null)) && Chain(b, null);
  }

  lemma EndMerge(p1: LNode?, p2: LNode?, tail: LNode?, isdouble: bool, end: LNode?, after: seq<LNode>, out: seq<LNode>)
    requires InPass(p1, p2, tail, isdouble, [], end, [] + after, out)
    ensures InPass(null, p2, tail, isdouble, [], null, after, out)
  {
    assert [] + after == after;
  }

  lemma BlockParts(rest: seq<LNode>, m: nat, all: set<LNode>)
    requires m > 0 && Inside(rest, all)
    ensures var rest2 := Drop(rest, m);
      && Take(rest2, m) + Drop(rest2, m) == rest2 && SecondBlock(Take(rest2, m), Drop(rest2, m), m)
      && Inside(Take(rest, m), all) && Inside(rest2, all) && Inside(Drop(rest2, m), all)
  {
  }

  /** The merge of two neighbouring blocks. */
  method MergeBlock(p1: LNode, mergeSize: nat, head: LNode?, tail: LNode?, cmpe: (int, int) -> int, isdouble: bool,
                    ghost all: set<LNode>, ghost rest: seq<LNode>, ghost out: seq<LNode>)
    returns (p1': LNode?, head': LNode?, tail': LNode?, ghost out': seq<LNode>)
    requires InPass(null, p1, tail, isdouble, [], null, rest, out) && rest != [] && mergeSize > 0
    requires head == First(out, null)
    requires Inside(rest, all) && Inside(out, all)
    modifies all
    ensures out' == out + Merge(By(cmpe), Take(rest, mergeSize), Take(Drop(rest, mergeSize), mergeSize))
    ensures InPass(null, p1', tail', isdouble, [], null, Drop(Drop(rest, mergeSize), mergeSize), out')
    ensures head' == First(out', null)
    ensures Inside(out', all)
    ensures !isdouble ==> forall n :: n in all ==> n.prev == old(n.prev)
  {
    var p2, size1 := StepPast(p1, mergeSize, rest);
    var size2 := mergeSize;
    var q: LNode? := p1;
    head', tail', out' := head, tail, out;
    ghost var le, end, after := By(cmpe), p2, Drop(Drop(rest, mergeSize), mergeSize);
    ghost var ra, rb := Take(rest, mergeSize), Take(Drop(rest, mergeSize), mergeSize);
    BeginMerge(p1, tail, isdouble, rest, out, mergeSize);
    BlockParts(rest, mergeSize, all);
    ghost var merged := Merge(le, ra, rb);
    hide Merge, InPass, Inside, Take, Drop;
    while size1 > 0 || (size2 > 0 && p2 != null)
      invariant out' + Merge(le, ra, rb) == out + merged
      invariant InPass(q, p2, tail', isdouble, ra, end, rb + after, out') && head' == First(out', null)
      invariant size1 == |ra| && SecondBlock(rb, after, size2)
      invariant Inside(ra, all) && Inside(rb + after, all) && Inside(out', all)
      invariant !isdouble ==> forall n :: n in all ==> n.prev == old(n.prev)
      decreases |ra| + |rb|
    {
      var next;
      ghost var ra', rb';
      q, p2, size1, size2, next, ra', rb' := IterTurn(q, p2, size1, size2, tail', cmpe, isdouble, all, ra, end, rb,
        after, out');
      if tail' == null {
        head' := next;
      }
      tail' := next;
      Regroup(out', next, Merge(le, ra', rb'));
      out', ra, rb := out' + [next], ra', rb';
    }
    BothEmpty(q, p2, size2, tail', isdouble, ra, end, rb, after, out');
    EndMerge(q, p2, tail', isdouble, end, after, out');
    MergeNone(le);
    p1' := p2;
  }

  lemma BothEmpty(p1: LNode?, p2: LNode?, size2: nat, tail: LNode?, isdouble: bool, ra: seq<LNode>, end: LNode?,
                  rb: seq<LNode>, after: seq<LNode>, out: seq<LNode>)
    requires InPass(p1, p2, tail, isdouble, ra, end, rb + after, out) && |ra| == 0 && SecondBlock(rb, after, size2)
    requires size2 == 0 || p2 == null
    ensures ra == [] && rb == []
  {
  }

  lemma MergeNone(le: (LNode, LNode) -> bool)
    ensures Merge(le, [], []) == []
  {
  }

  /** One pass over the whole list. */
  method OnePass(head0: LNode, mergeSize: nat, cmpe: (int, int) -> int, isdouble: bool, ghost all: set<LNode>,
                 ghost nodes: seq<LNode>)
    returns (head: LNode?, nMerges: nat, ghost out: seq<LNode>)
    requires IsList(head0, nodes) && mergeSize > 0 && Inside(nodes, all)
    modifies all
    ensures out == Pass(By(cmpe), nodes, mergeSize) && nMerges == Merges(|nodes|, mergeSize)
    ensures IsList(head, out) && Inside(out, all) && (isdouble ==> Backward(out))
    ensures !isdouble ==> forall n :: n in all ==> n.prev == old(n.prev)
  {
    var p1: LNode?, tail: LNode? := head0, null;
    head, nMerges, out := null, 0, [];
    ghost var rest, le := nodes, By(cmpe);
    BeginPass(head0, isdouble, nodes, le, mergeSize);
    hide InPass, Pass, Merges, Inside, Take, Drop, Merge, Chain, Distinct;
    while p1 != null
      invariant InPass(null, p1, tail, isdouble, [], null, rest, out) && head == First(out, null)
      invariant out + Pass(le, rest, mergeSize) == Pass(le, nodes, mergeSize)
      invariant nMerges + Merges(|rest|, mergeSize) == Merges(|nodes|, mergeSize)
      invariant Inside(rest, all) && Inside(out, all) && (p1 != null <==> rest != [])
      invariant !isdouble ==> forall n :: n in all ==> n.prev == old(n.prev)
      decreases |rest|
    {
      nMerges := nMerges + 1;
      BlockParts(rest, mergeSize, all);
      PassTurn(le, rest, mergeSize, out);
      p1, head, tail, out := MergeBlock(p1, mergeSize, head, tail, cmpe, isdouble, all, rest, out);
      rest := Drop(Drop(rest, mergeSize), mergeSize);
      RestEnds(p1, tail, isdouble, rest, out);
    }
    NothingLeft(le, mergeSize, out);
    PassEnds(tail, isdouble, out);
    hide Chain, Linked, Distinct, Backward, IsList;
    Terminate(tail, isdouble, all, out);
  }

  /** The sorted list ends where the pass ended. */
  method Terminate(tail: LNode?, isdouble: bool, ghost all: set<LNode>, ghost out: seq<LNode>)
    requires Linked(out, isdouble) && Distinct(out) && tail == Last(out) && Inside(out, all)
    modifies all`next
    ensures IsList(First(out, null), out) && (isdouble ==> Backward(out))
  {
    assert tail != null ==> out[|out| - 1] == tail;
    if tail != null {
      tail.next := null;
    }
    assert forall i :: 0 <= i < |out| - 1 ==> out[i] != tail;
  }

  lemma BeginPass(head: LNode, isdouble: bool, nodes: seq<LNode>, le: (LNode, LNode) -> bool, m: nat)
    requires IsList(head, nodes) && m > 0
    ensures InPass(null, head, null, isdouble, [], null, nodes, []) && nodes != []
    ensures [] + Pass(le, nodes, m) == Pass(le, nodes, m)
  {
  }

  lemma NothingLeft(le: (LNode, LNode) -> bool, m: nat, out: seq<LNode>)
    requires m > 0
    ensures out + Pass(le, [], m) == out && Merges(0, m) == 0
  {
  }

  lemma PassTurn(le: (LNode, LNode) -> bool, rest: seq<LNode>, m: nat, out: seq<LNode>)
    requires m > 0 && rest != []
    ensures var rest' := Drop(Drop(rest, m), m);
      && Merges(|rest|, m) == 1 + Merges(|rest'|, m) && |rest'| < |rest|
      && out + Pass(le, rest, m) == (out + Merge(le, Take(rest, m), Take(Drop(rest, m), m))) + Pass(le, rest', m)
  {
    hide Merge, Merges, Pass, Take;
    PassNext(le, rest, m);
    MergesNext(|rest|, m);
    Regroup2(out, Merge(le, Take(rest, m), Take(Drop(rest, m), m)), Pass(le, Drop(Drop(rest, m), m), m));
  }

  lemma PassNext(le: (LNode, LNode) -> bool, rest: seq<LNode>, m: nat)
    requires m > 0 && rest != []
    ensures Pass(le, rest, m) == Merge(le, Take(rest, m), Take(Drop(rest, m), m)) + Pass(le, Drop(Drop(rest, m), m), m)
  {
    hide Merge;
  }

  lemma MergesNext(n: nat, m: nat)
    requires m > 0 && n > 0
    ensures Merges(n, m) == 1 + Merges(if n <= 2 * m then 0 else n - 2 * m, m)
  {
  }

  lemma Regroup2<T>(a: seq<T>, b: seq<T>, c: seq<T>)
    ensures a + (b + c) == (a + b) + c
  {
  }

  lemma RestEnds(p1: LNode?, tail: LNode?, isdouble: bool, rest: seq<LNode>, out: seq<LNode>)
    requires InPass(null, p1, tail, isdouble, [], null, rest, out)
    ensures p1 != null <==> rest != []
  {
  }

  lemma PassEnds(tail: LNode?, isdouble: bool, out: seq<LNode>)
    requires InPass(null, null, tail, isdouble, [], null, [], out)
    ensures Linked(out, isdouble) && Distinct(out) && tail == Last(out)
  {
  }

  // ----- All passes -----

  /** A stable rearrangement of `nodes` with sorted blocks of `m`. */
  ghost predicate Halfway(le: (LNode, LNode) -> bool, nodes: seq<LNode>, s: seq<LNode>, m: nat) {
    && m > 0 && BlocksSorted(le, s, m) && multiset(s) == multiset(nodes)
    && forall x :: x in nodes ==> Class(le, s, x) == Class(le, nodes, x)
  }

  lemma PassHalfway(le: (LNode, LNode) -> bool, nodes: seq<LNode>, s: seq<LNode>, m: nat)
    requires m > 0 && Preorder(le, nodes) && Halfway(le, nodes, s, m)
    ensures Halfway(le, nodes, Pass(le, s, m), 2 * m) && |s| == |nodes|
  {
    SameMembers(s, nodes);
    assert Within(s, nodes);
    PassBlocks(le, nodes, s, m);
    PassSame(le, s, m);
    hide Class, Pass, BlocksSorted, Preorder;
    forall x | x in nodes ensures Class(le, Pass(le, s, m), x) == Class(le, nodes, x) {
      PassClass(le, nodes, s, m, x);
    }
  }

  lemma Finished(le: (LNode, LNode) -> bool, nodes: seq<LNode>, s: seq<LNode>, m: nat)
    requires Preorder(le, nodes) && Halfway(le, nodes, s, m) && |nodes| <= m
    ensures StableSort(le, nodes, nodes, s) && s == Msort(le, nodes)
  {
    SameMembers(s, nodes);
    WholeBlock(le, s, m);
    OnlyMsort(le, nodes, nodes, s);
  }

  /** After some passes; one with a single merge was the last. */
  ghost predicate SoFar(head: LNode?, mergeSize: nat, nMerges: nat, isdouble: bool, le: (LNode, LNode) -> bool,
                        nodes: seq<LNode>, out: seq<LNode>)
    reads out
  {
    && IsList(head, out) && head != null && mergeSize > 0 && (nMerges == 1 ==> isdouble ==> Backward(out))
    && if nMerges == 1 then |nodes| <= 2 * mergeSize && Halfway(le, nodes, out, 2 * mergeSize)
       else (mergeSize == 1 || mergeSize < |nodes|) && Halfway(le, nodes, out, mergeSize)
  }

  /** One turn of the loop over the passes. */
  method NextPass(head: LNode, mergeSize: nat, cmpe: (int, int) -> int, isdouble: bool, ghost all: set<LNode>,
                  ghost nodes: seq<LNode>, ghost cur: seq<LNode>)
    returns (head': LNode?, mergeSize': nat, nMerges: nat, ghost out: seq<LNode>)
    requires Preorder(By(cmpe), nodes) && Inside(cur, all) && nodes != []
    requires IsList(head, cur) && mergeSize > 0 && Halfway(By(cmpe), nodes, cur, mergeSize)
    modifies all
    ensures SoFar(head', mergeSize', nMerges, isdouble, By(cmpe), nodes, out) && Inside(out, all)
    ensures nMerges != 1 ==> mergeSize < mergeSize' < |nodes|
    ensures !isdouble ==> forall n :: n in all ==> n.prev == old(n.prev)
  {
    hide Pass, Halfway, Chain, Distinct, Backward, Preorder, Inside, First, Merges;
    PassHalfway(By(cmpe), nodes, cur, mergeSize);
    OneMerge(|nodes|, mergeSize);
    head', nMerges, out := OnePass(head, mergeSize, cmpe, isdouble, all, cur);
    mergeSize' := if nMerges == 1 then mergeSize else mergeSize * 2;
    NotEmpty(head', out, nodes, By(cmpe), 2 * mergeSize);
  }

  /** The loop over the passes. */
  method Passes(list: LNode, cmpe: (int, int) -> int, isdouble: bool, ghost all: set<LNode>, ghost nodes: seq<LNode>)
    returns (head: LNode?, ghost out: seq<LNode>)
    requires Preorder(By(cmpe), nodes) && IsList(list, nodes) && Inside(nodes, all)
    requires nodes != [] && Halfway(By(cmpe), nodes, nodes, 1)
    modifies all
    ensures out == Msort(By(cmpe), nodes) && StableSort(By(cmpe), nodes, nodes, out) && IsList(head, out)
    ensures isdouble ==> Backward(out)
    ensures !isdouble ==> forall n :: n in all ==> n.prev == old(n.prev)
  {
    var mergeSize, nMerges := 1, 0;
    head, out := list, nodes;
    while nMerges != 1
      invariant SoFar(head, mergeSize, nMerges, isdouble, By(cmpe), nodes, out) && Inside(out, all)
      invariant !isdouble ==> forall n :: n in all ==> n.prev == old(n.prev)
      decreases nMerges != 1, |nodes| - mergeSize
    {
      hide Halfway, Chain, Distinct, Backward, Preorder, Inside;
      head, mergeSize, nMerges, out := NextPass(head, mergeSize, cmpe, isdouble, all, nodes, out);
      hide SoFar;
    }
    Finished(By(cmpe), nodes, out, 2 * mergeSize);
  }

  /** `mergesort_iter` on a list that is not empty; on an empty list no pass makes a merge, and the
      loop would not end. */
  method MergesortIter(list: LNode, cmpe: (int, int) -> int, isdouble: bool, ghost nodes: seq<LNode>)
    returns (head: LNode?, ghost out: seq<LNode>)
    requires Preorder(By(cmpe), nodes) && IsList(list, nodes)
    modifies nodes
    ensures out == Msort(By(cmpe), nodes) && StableSort(By(cmpe), nodes, nodes, out) && IsList(head, out)
    ensures isdouble ==> Backward(out)
    ensures !isdouble ==> forall n :: n in nodes ==> n.prev == old(n.prev)
  {
    ghost var all := set n | n in nodes :: n;
    Start(list, nodes, By(cmpe));
    head, out := Passes(list, cmpe, isdouble, all, nodes);
  }

  lemma Start(list: LNode, nodes: seq<LNode>, le: (LNode, LNode) -> bool)
    requires IsList(list, nodes)
    ensures nodes != [] && Halfway(le, nodes, nodes, 1) && Inside(nodes, set n | n in nodes :: n)
  {
    SingleBlocks(le, nodes);
    assert forall i :: 0 <= i < |nodes| ==> nodes[i] in nodes;
  }

  lemma NotEmpty(head: LNode?, out: seq<LNode>, nodes: seq<LNode>, le: (LNode, LNode) -> bool, m: nat)
    requires IsList(head, out) && Halfway(le, nodes, out, m) && nodes != []
    ensures head != null
  {
    SameMembers(out, nodes);
  }
}
