/** The two quicksorts of `src/algorithm/sort.c`, in place on an array. */
module Quicksort {

  /** `cmpe` is a comparison: any two elements compare, and comparing is transitive. */
  ghost predicate Comparison(cmpe: (int, int) -> int) {
    && (forall x, y :: cmpe(x, y) <= 0 || cmpe(y, x) <= 0)
    && (forall x, y :: cmpe(x, y) > 0 ==> cmpe(y, x) <= 0)
    && (forall x, y, z :: cmpe(x, y) <= 0 && cmpe(y, z) <= 0 ==> cmpe(x, z) <= 0)
  }

  predicate Le(cmpe: (int, int) -> int, x: int, y: int) { cmpe(x, y) <= 0 }

  ghost predicate SortedIn(cmpe: (int, int) -> int, s: seq<int>, lo: int, hi: int) {
    forall i, j :: 0 <= lo <= i < j <= hi < |s| ==> Le(cmpe, s[i], s[j])
  }

  /** The same elements, moved around between `lo` and `hi` only. */
  ghost predicate Shuffled(s: seq<int>, t: seq<int>, lo: int, hi: int) {
    && |s| == |t| && multiset(s) == multiset(t)
    && forall i :: 0 <= i < |s| && !(lo <= i <= hi) ==> t[i] == s[i]
  }

  lemma ShuffledTwice(s: seq<int>, t: seq<int>, u: seq<int>, lo: int, hi: int, lo': int, hi': int)
    requires Shuffled(s, t, lo, hi) && Shuffled(t, u, lo', hi') && lo <= lo' && hi' <= hi
    ensures Shuffled(s, u, lo, hi)
  {
  }

  /** What is true of every element between the bounds stays so when they are shuffled. */
  lemma ShuffledKeeps(s: seq<int>, t: seq<int>, lo: int, hi: int, i: int) returns (j: int)
    requires Shuffled(s, t, lo, hi) && 0 <= lo <= i <= hi < |s|
    ensures lo <= j <= hi && t[i] == s[j]
  {
    var a, m, b := s[..lo], s[lo..hi + 1], s[hi + 1..];
    var m' := t[lo..hi + 1];
    assert s == a + m + b;
    assert t == a + m' + b by {
      assert t[..lo] == a && t[hi + 1..] == b;
      assert t == t[..lo] + m' + t[hi + 1..];
    }
    assert multiset(s) == multiset(a) + multiset(m) + multiset(b);
    assert multiset(t) == multiset(a) + multiset(m') + multiset(b);
    Cancel(multiset(a), multiset(m), multiset(m'), multiset(b));
    assert m'[i - lo] == t[i] && t[i] in multiset(m);
    var k :| 0 <= k < |m| && m[k] == t[i];
    j := lo + k;
  }

  lemma Cancel(a: multiset<int>, m: multiset<int>, n: multiset<int>, b: multiset<int>)
    requires a + m + b == a + n + b
    ensures m == n
  {
    forall x ensures m[x] == n[x] {
      assert (a + m + b)[x] == (a + n + b)[x];
    }
  }

  function Swapped(s: seq<int>, i: int, j: int): seq<int>
    requires 0 <= i < |s| && 0 <= j < |s|
  {
    s[i := s[j]][j := s[i]]
  }

  method Swap(arr: array<int>, i: int, j: int)
    requires 0 <= i < arr.Length && 0 <= j < arr.Length
    modifies arr
    ensures arr[..] == Swapped(old(arr[..]), i, j)
    ensures Shuffled(old(arr[..]), arr[..], if i < j then i else j, if i < j then j else i)
  {
    var tmp := arr[i];
    arr[i] := arr[j];
    arr[j] := tmp;
  }

  /** Around index `p`: nothing greater below, only greater above. */
  ghost predicate Split(cmpe: (int, int) -> int, s: seq<int>, lo: int, p: int, hi: int) {
    && 0 <= lo <= p <= hi < |s|
    && (forall i :: lo <= i < p ==> Le(cmpe, s[i], s[p]))
    && (forall i :: p < i <= hi ==> !Le(cmpe, s[i], s[p]))
  }

  /** What the two pointers have passed. */
  ghost predicate Passed(cmpe: (int, int) -> int, s: seq<int>, lo: int, left: int, right: int, hi: int) {
    && 0 <= lo <= left <= hi < |s| && lo <= right <= hi
    && (forall i :: lo <= i < left ==> Le(cmpe, s[i], s[lo]))
    && (forall i :: right < i <= hi ==> !Le(cmpe, s[i], s[lo]))
  }

  lemma Bounds(cmpe: (int, int) -> int, s: seq<int>, lo: int, left: int, right: int, hi: int)
    requires Passed(cmpe, s, lo, left, right, hi)
    ensures 0 <= lo <= left <= hi < |s| && lo <= right <= hi
  {
  }

  lemma PassLeft(cmpe: (int, int) -> int, s: seq<int>, lo: int, left: int, right: int, hi: int)
    requires Passed(cmpe, s, lo, left, right, hi) && left < hi && Le(cmpe, s[left], s[lo])
    ensures Passed(cmpe, s, lo, left + 1, right, hi)
  {
  }

  lemma PassRight(cmpe: (int, int) -> int, s: seq<int>, lo: int, left: int, right: int, hi: int)
    requires Comparison(cmpe) && Passed(cmpe, s, lo, left, right, hi) && !Le(cmpe, s[right], s[lo])
    ensures Passed(cmpe, s, lo, left, right - 1, hi)
  {
    Reflexive(cmpe, s[lo]);
  }

  /** The inner loops: each pointer moves past what is on its side already. The right pointer is
      stopped by index 0, and never gets past `lo`. */
  method Advance(arr: array<int>, lo: int, hi: int, left0: int, right0: int, cmpe: (int, int) -> int)
    returns (left: int, right: int)
    requires Comparison(cmpe) && Passed(cmpe, arr[..], lo, left0, right0, hi)
    requires left0 < right0 && Le(cmpe, arr[left0], arr[lo])
    ensures Passed(cmpe, arr[..], lo, left, right, hi) && left0 < left && right <= right0
    ensures Le(cmpe, arr[right], arr[lo])
    ensures left < right ==> !Le(cmpe, arr[left], arr[lo])
  {
    hide Comparison, Passed;
    left, right := left0, right0;
    Bounds(cmpe, arr[..], lo, left, right, hi);
    while cmpe(arr[left], arr[lo]) <= 0 && left < hi
      invariant Passed(cmpe, arr[..], lo, left, right, hi) && left0 <= left <= hi
      invariant left == left0 ==> Le(cmpe, arr[left], arr[lo])
      decreases hi - left
    {
      PassLeft(cmpe, arr[..], lo, left, right, hi);
      left := left + 1;
    }
    while cmpe(arr[right], arr[lo]) > 0 && right > 0
      invariant Passed(cmpe, arr[..], lo, left, right, hi) && lo <= right <= right0
      decreases right
    {
      PassRight(cmpe, arr[..], lo, left, right, hi);
      right := right - 1;
      Bounds(cmpe, arr[..], lo, left, right, hi);
    }
    if right == 0 { Reflexive(cmpe, arr[lo]); }
  }

  lemma SwapPassed(cmpe: (int, int) -> int, s: seq<int>, lo: int, left: int, right: int, hi: int)
    requires Passed(cmpe, s, lo, left, right, hi) && lo < left < right && Le(cmpe, s[right], s[lo])
    ensures var t := Swapped(s, left, right); Passed(cmpe, t, lo, left, right, hi) && Le(cmpe, t[left], t[lo])
  {
  }

  lemma SwapPivot(cmpe: (int, int) -> int, s: seq<int>, lo: int, left: int, right: int, hi: int)
    requires Passed(cmpe, s, lo, left, right, hi) && right <= left && Le(cmpe, s[right], s[lo])
    requires Le(cmpe, s[lo], s[lo])
    ensures Split(cmpe, Swapped(s, lo, right), lo, right, hi)
  {
  }

  /** `partition`. */
  method Partition(arr: array<int>, lo: int, hi: int, cmpe: (int, int) -> int) returns (p: int)
    requires Comparison(cmpe) && 0 <= lo < hi < arr.Length
    modifies arr
    ensures Split(cmpe, arr[..], lo, p, hi) && Shuffled(old(arr[..]), arr[..], lo, hi)
  {
    assert Le(cmpe, arr[lo], arr[lo]);
    assert Passed(cmpe, arr[..], lo, lo, hi, hi);
    hide Comparison, Passed, Le, Shuffled, Swapped, Split;
    var left, right := lo, hi;
    ghost var was := arr[..];
    Unmoved(was, lo, hi);
    while left < right
      invariant lo <= left <= hi && lo <= right <= hi
      invariant Passed(cmpe, arr[..], lo, left, right, hi) && Shuffled(was, arr[..], lo, hi)
      invariant if left < right then Le(cmpe, arr[left], arr[lo]) else Le(cmpe, arr[right], arr[lo])
      decreases right - left
    {
      left, right := Advance(arr, lo, hi, left, right, cmpe);
      Bounds(cmpe, arr[..], lo, left, right, hi);
      if left < right {
        ghost var now := arr[..];
        SwapPassed(cmpe, now, lo, left, right, hi);
        Swap(arr, left, right);
        ShuffledTwice(was, now, arr[..], lo, hi, left, right);
      }
    }
    ghost var now := arr[..];
    Reflexive(cmpe, arr[lo]);
    SwapPivot(cmpe, now, lo, left, right, hi);
    Swap(arr, lo, right);
    ShuffledTwice(was, now, arr[..], lo, hi, lo, right);
    return right;
  }

  lemma Unmoved(s: seq<int>, lo: int, hi: int)
    ensures Shuffled(s, s, lo, hi)
  {
  }

  lemma Reflexive(cmpe: (int, int) -> int, x: int)
    requires Comparison(cmpe)
    ensures Le(cmpe, x, x)
  {
  }

  // ----- qsort_rec -----

  /** Sorting both sides of a split sorts the whole. */
  lemma SidesSorted(cmpe: (int, int) -> int, s: seq<int>, t: seq<int>, u: seq<int>, lo: int, p: int, hi: int)
    requires Comparison(cmpe) && Split(cmpe, s, lo, p, hi)
    requires Shuffled(s, t, lo, p - 1) && SortedIn(cmpe, t, lo, p - 1) && Shuffled(t, u, p + 1, hi)
    requires SortedIn(cmpe, u, p + 1, hi)
    ensures SortedIn(cmpe, u, lo, hi)
  {
    assert u[p] == s[p];
    forall i | lo <= i < p ensures Le(cmpe, u[i], u[p]) {
      var k := ShuffledKeeps(s, t, lo, p - 1, i);
    }
    forall i | p < i <= hi ensures Le(cmpe, u[p], u[i]) {
      var k := ShuffledKeeps(t, u, p + 1, hi, i);
      assert !Le(cmpe, s[k], s[p]);
    }
    forall i, j | lo <= i < j <= hi ensures Le(cmpe, u[i], u[j]) {
      if i < p < j { assert Le(cmpe, u[i], u[p]) && Le(cmpe, u[p], u[j]); }
    }
  }

  method QsortRec(arr: array<int>, lo: int, hi: int, cmpe: (int, int) -> int)
    requires Comparison(cmpe) && 0 <= lo <= hi + 1 <= arr.Length
    modifies arr
    ensures SortedIn(cmpe, arr[..], lo, hi) && Shuffled(old(arr[..]), arr[..], lo, hi)
    decreases hi - lo
  {
    if hi > lo {
      var p := Partition(arr, lo, hi, cmpe);
      ghost var s := arr[..];
      QsortRec(arr, lo, p - 1, cmpe);
      ghost var t := arr[..];
      QsortRec(arr, p + 1, hi, cmpe);
      SidesSorted(cmpe, s, t, arr[..], lo, p, hi);
      ShuffledTwice(old(arr[..]), s, t, lo, hi, lo, p - 1);
      ShuffledTwice(old(arr[..]), t, arr[..], lo, hi, p + 1, hi);
    }
  }

  // ----- qsort_iter -----

  /** The ranges still to be sorted, from left to right, each at least two long. */
  predicate Pending(ranges: seq<(int, int)>, n: int) {
    && (forall k :: 0 <= k < |ranges| ==> 0 <= ranges[k].0 < ranges[k].1 < n)
    && (forall k, l :: 0 <= k < l < |ranges| ==> ranges[k].1 < ranges[l].0)
  }

  predicate Within(r: (int, int), i: int, j: int) { r.0 <= i && j <= r.1 }

  /** Two elements are in order, or both still in one pending range. */
  ghost predicate Settled(cmpe: (int, int) -> int, s: seq<int>, n: int, ranges: seq<(int, int)>) {
    n <= |s| && forall i, j :: 0 <= i < j < n ==> Le(cmpe, s[i], s[j]) || exists r :: r in ranges && Within(r, i, j)
  }

  /** Two slots for each range, bounds in order. */
  ghost predicate Stacked(stack: seq<int>, top: int, ranges: seq<(int, int)>) {
    && top + 1 == 2 * |ranges| <= |stack|
    && forall k :: 0 <= k < |ranges| ==> stack[2 * k] == ranges[k].0 && stack[2 * k + 1] == ranges[k].1
  }

  /** Ranges that do not overlap, two long or longer, leave the stack room: one of `n` slots suffices. */
  lemma {:induction false} StackSuffices(ranges: seq<(int, int)>, n: int)
    requires Pending(ranges, n) && ranges != []
    ensures 2 * |ranges| <= ranges[|ranges| - 1].1 + 1 <= n
  {
    if |ranges| > 1 {
      StackSuffices(ranges[..|ranges| - 1], n);
    }
  }

  function Sides(lo: int, p: int, hi: int): seq<(int, int)> {
    (if p - 1 > lo then [(lo, p - 1)] else []) + (if p + 1 < hi then [(p + 1, hi)] else [])
  }

  function Size(ranges: seq<(int, int)>): int {
    if ranges == [] then 0 else Size(ranges[..|ranges| - 1]) + ranges[|ranges| - 1].1 - ranges[|ranges| - 1].0 + 1
  }

  lemma PendingSides(rest: seq<(int, int)>, lo: int, p: int, hi: int, n: int)
    requires Pending(rest + [(lo, hi)], n) && lo <= p <= hi
    ensures Pending(rest + Sides(lo, p, hi), n)
    ensures forall r :: r in rest ==> r.1 < lo && r.0 < r.1
  {
    var s := rest + [(lo, hi)];
    assert forall k :: 0 <= k < |rest| ==> s[k] == rest[k] && s[k].1 < s[|rest|].0;
  }

  lemma SizeOneMore(ranges: seq<(int, int)>, r: (int, int))
    ensures Size(ranges + [r]) == Size(ranges) + r.1 - r.0 + 1
  {
    assert (ranges + [r])[..|ranges|] == ranges;
  }

  lemma SidesCases(rest: seq<(int, int)>, lo: int, p: int, hi: int)
    ensures var left := if p - 1 > lo then rest + [(lo, p - 1)] else rest;
      rest + Sides(lo, p, hi) == if p + 1 < hi then left + [(p + 1, hi)] else left
  {
  }

  lemma SizeFalls(rest: seq<(int, int)>, lo: int, p: int, hi: int, n: int)
    requires Pending(rest + [(lo, hi)], n) && lo <= p <= hi
    ensures 0 <= Size(rest + Sides(lo, p, hi)) < Size(rest + [(lo, hi)])
  {
    hide Pending, Sides, Size;
    LastRange(rest, lo, hi, n);
    PendingSides(rest, lo, p, hi, n);
    SizeNonNegative(rest + Sides(lo, p, hi), n);
    SidesCases(rest, lo, p, hi);
    SizeOneMore(rest, (lo, hi));
    SizeOneMore(rest, (lo, p - 1));
    SizeOneMore(if p - 1 > lo then rest + [(lo, p - 1)] else rest, (p + 1, hi));
  }

  lemma {:induction false} SizeNonNegative(ranges: seq<(int, int)>, n: int)
    requires Pending(ranges, n)
    ensures Size(ranges) >= 0
  {
    if ranges != [] { SizeNonNegative(ranges[..|ranges| - 1], n); }
  }

  /** Two elements the next range does not both hold. */
  lemma SettledOutside(cmpe: (int, int) -> int, s: seq<int>, t: seq<int>, n: int, rest: seq<(int, int)>, lo: int,
                       hi: int, i: int, j: int)
    requires Settled(cmpe, s, n, rest + [(lo, hi)]) && Pending(rest + [(lo, hi)], n) && Shuffled(s, t, lo, hi)
    requires 0 <= i < j < n && !Within((lo, hi), i, j)
    ensures Le(cmpe, t[i], t[j]) || exists r :: r in rest && Within(r, i, j)
  {
    LastRange(rest, lo, hi, n);
    var k, l := i, j;
    if lo <= i <= hi { k := ShuffledKeeps(s, t, lo, hi, i); }
    if lo <= j <= hi { l := ShuffledKeeps(s, t, lo, hi, j); }
    assert t[i] == s[k] && t[j] == s[l] && k < l;
    if !Le(cmpe, s[k], s[l]) {
      var ranges := rest + [(lo, hi)];
      assert exists r :: r in ranges && Within(r, k, l);
      var r :| r in ranges && Within(r, k, l);
      assert r in rest || r == (lo, hi);
      assert r in rest && Within(r, i, j);
    }
  }

  lemma LastRange(rest: seq<(int, int)>, lo: int, hi: int, n: int)
    requires Pending(rest + [(lo, hi)], n)
    ensures 0 <= lo < hi < n && Pending(rest, n) && forall r :: r in rest ==> 0 <= r.0 < r.1 < lo
  {
    var s := rest + [(lo, hi)];
    assert s[|rest|] == (lo, hi);
    assert forall k :: 0 <= k < |rest| ==> s[k] == rest[k];
    forall r | r in rest ensures 0 <= r.0 < r.1 < lo {
      var k :| 0 <= k < |rest| && rest[k] == r;
      assert s[k].1 < s[|rest|].0;
    }
  }

  /** Two elements both in the range, after the split. */
  lemma SettledInside(cmpe: (int, int) -> int, t: seq<int>, lo: int, p: int, hi: int, i: int, j: int)
    requires Comparison(cmpe) && Split(cmpe, t, lo, p, hi) && Within((lo, hi), i, j) && i < j
    ensures Le(cmpe, t[i], t[j]) || exists r :: r in Sides(lo, p, hi) && Within(r, i, j)
  {
    if j < p {
      assert (lo, p - 1) in Sides(lo, p, hi) && Within((lo, p - 1), i, j);
    } else if p < i {
      assert (p + 1, hi) in Sides(lo, p, hi) && Within((p + 1, hi), i, j);
    } else {
      assert i < p ==> Le(cmpe, t[i], t[p]);
      assert p < j ==> Le(cmpe, t[p], t[j]);
    }
  }

  lemma SettledStep(cmpe: (int, int) -> int, s: seq<int>, t: seq<int>, n: int, rest: seq<(int, int)>, lo: int, p: int,
                    hi: int)
    requires Comparison(cmpe) && Settled(cmpe, s, n, rest + [(lo, hi)]) && Pending(rest + [(lo, hi)], n)
    requires Shuffled(s, t, lo, hi) && Split(cmpe, t, lo, p, hi)
    ensures Settled(cmpe, t, n, rest + Sides(lo, p, hi))
  {
    hide Comparison, Pending, Split, Le, Within, Sides;
    var ranges := rest + Sides(lo, p, hi);
    assert forall r :: r in rest || r in Sides(lo, p, hi) ==> r in ranges;
    forall i, j | 0 <= i < j < n ensures Le(cmpe, t[i], t[j]) || exists r :: r in ranges && Within(r, i, j) {
      if Within((lo, hi), i, j) {
        SettledInside(cmpe, t, lo, p, hi, i, j);
      } else {
        SettledOutside(cmpe, s, t, n, rest, lo, hi, i, j);
      }
    }
  }

  method Push(stack: array<int>, top: int, lo: int, hi: int, ghost ranges: seq<(int, int)>) returns (top': int)
    requires Stacked(stack[..], top, ranges) && 2 * |ranges| + 2 <= stack.Length
    modifies stack
    ensures Stacked(stack[..], top', ranges + [(lo, hi)])
  {
    stack[top + 1] := lo;
    stack[top + 2] := hi;
    top' := top + 2;
  }

  /** Pushes what is left on both sides of the split. */
  method PushSides(stack: array<int>, top: int, lo: int, p: int, hi: int, ghost rest: seq<(int, int)>, ghost n: int)
    returns (top': int)
    requires Stacked(stack[..], top, rest) && Pending(rest + Sides(lo, p, hi), n) && stack.Length == n
    modifies stack
    ensures Stacked(stack[..], top', rest + Sides(lo, p, hi))
  {
    ghost var ranges := rest + Sides(lo, p, hi);
    if ranges != [] { StackSuffices(ranges, n); }
    top' := top;
    if p - 1 > lo {
      top' := Push(stack, top', lo, p - 1, rest);
    }
    ghost var mid := if p - 1 > lo then rest + [(lo, p - 1)] else rest;
    if p + 1 < hi {
      top' := Push(stack, top', p + 1, hi, mid);
      assert mid + [(p + 1, hi)] == ranges;
    } else {
      assert mid == ranges;
    }
  }

  /** One turn of the loop. */
  method IterTurn(arr: array<int>, stack: array<int>, top: int, cmpe: (int, int) -> int, ghost ranges: seq<(int, int)>)
    returns (top': int, ghost ranges': seq<(int, int)>)
    requires Comparison(cmpe) && stack.Length <= arr.Length && stack != arr && top >= 0
    requires Stacked(stack[..], top, ranges) && Pending(ranges, stack.Length)
    requires Settled(cmpe, arr[..], stack.Length, ranges)
    modifies arr, stack
    ensures Stacked(stack[..], top', ranges') && Pending(ranges', stack.Length)
    ensures Settled(cmpe, arr[..], stack.Length, ranges')
    ensures Shuffled(old(arr[..]), arr[..], 0, stack.Length - 1) && 0 <= Size(ranges') < Size(ranges)
  {
    var n := stack.Length;
    var hi := stack[top];
    var lo := stack[top - 1];
    ghost var rest, was := ranges[..|ranges| - 1], arr[..];
    assert ranges[|ranges| - 1] == (lo, hi);
    assert ranges == rest + [(lo, hi)];
    LastRange(rest, lo, hi, n);
    Unstacked(stack[..], top, rest, lo, hi);
    hide Comparison, Pending, Stacked, Settled, Shuffled, Split, Size, Sides;
    var p := Partition(arr, lo, hi, cmpe);
    SplitBounds(cmpe, arr[..], lo, p, hi);
    SettledStep(cmpe, was, arr[..], n, rest, lo, p, hi);
    PendingSides(rest, lo, p, hi, n);
    SizeFalls(rest, lo, p, hi, n);
    Unmoved(was, 0, n - 1);
    ShuffledTwice(was, was, arr[..], 0, n - 1, lo, hi);
    ranges' := rest + Sides(lo, p, hi);
    top' := PushSides(stack, top - 2, lo, p, hi, rest, n);
  }

  lemma Unstacked(stack: seq<int>, top: int, rest: seq<(int, int)>, lo: int, hi: int)
    requires Stacked(stack, top, rest + [(lo, hi)])
    ensures Stacked(stack, top - 2, rest)
  {
    assert forall k :: 0 <= k < |rest| ==> (rest + [(lo, hi)])[k] == rest[k];
  }

  lemma SplitBounds(cmpe: (int, int) -> int, s: seq<int>, lo: int, p: int, hi: int)
    requires Split(cmpe, s, lo, p, hi)
    ensures lo <= p <= hi
  {
  }

  /** `qsort_iter`. The stack has one slot for each element; a single element would need two. */
  method QsortIter(arr: array<int>, maxIndex: int, cmpe: (int, int) -> int)
    requires Comparison(cmpe) && 1 <= maxIndex < arr.Length
    modifies arr
    ensures SortedIn(cmpe, arr[..], 0, maxIndex) && Shuffled(old(arr[..]), arr[..], 0, maxIndex)
  {
    var stack := new int[maxIndex + 1];
    var top := Push(stack, -1, 0, maxIndex, []);
    ghost var was, ranges := arr[..], [(0, maxIndex)];
    Start(cmpe, was, maxIndex);
    assert [] + ranges == ranges;
    hide Comparison, Pending, Settled, Shuffled;
    while top >= 0
      invariant Stacked(stack[..], top, ranges) && Pending(ranges, maxIndex + 1)
      invariant Settled(cmpe, arr[..], maxIndex + 1, ranges)
      invariant Shuffled(was, arr[..], 0, maxIndex)
      decreases Size(ranges)
    {
      ghost var now := arr[..];
      top, ranges := IterTurn(arr, stack, top, cmpe, ranges);
      ShuffledTwice(was, now, arr[..], 0, maxIndex, 0, maxIndex);
    }
    End(cmpe, arr[..], maxIndex, ranges);
  }

  lemma Start(cmpe: (int, int) -> int, s: seq<int>, maxIndex: int)
    requires 1 <= maxIndex < |s|
    ensures Pending([(0, maxIndex)], maxIndex + 1) && Settled(cmpe, s, maxIndex + 1, [(0, maxIndex)])
    ensures Shuffled(s, s, 0, maxIndex)
  {
    var r := (0, maxIndex);
    assert forall i, j :: 0 <= i < j < maxIndex + 1 ==> r in [r] && Within(r, i, j);
  }

  lemma End(cmpe: (int, int) -> int, s: seq<int>, maxIndex: int, ranges: seq<(int, int)>)
    requires Settled(cmpe, s, maxIndex + 1, ranges) && ranges == []
    ensures SortedIn(cmpe, s, 0, maxIndex)
  {
  }
}
