/** Enumerating permutations in place, `arr32_permute` of `src/utils/utils.c`. */
module Permute {

  function Swapped<T>(s: seq<T>, i: nat, j: nat): (r: seq<T>)
    requires i < |s| && j < |s|
    ensures |r| == |s| && multiset(r) == multiset(s)
  {
    s[i := s[j]][j := s[i]]
  }

  /** The permutations of `s` from `start` on, in the order of the calls; `PermsBelow` are those
      with one of the elements from `start` to before `j` at `start`. */
  function Perms<T>(s: seq<T>, start: nat): seq<seq<T>>
    requires start <= |s|
    decreases |s| - start, |s| + 1
  {
    if start == |s| then [s] else PermsBelow(s, start, |s|)
  }

  function PermsBelow<T>(s: seq<T>, start: nat, j: nat): seq<seq<T>>
    requires start < |s| && start <= j <= |s|
    decreases |s| - start, j
  {
    if j == start then []
    else PermsBelow(s, start, j - 1) + Perms(Swapped(s, start, j - 1), start + 1)
  }

  lemma NextGroup<T>(s: seq<T>, start: nat, j: nat)
    requires start < j <= |s|
    ensures PermsBelow(s, start, j) == PermsBelow(s, start, j - 1) + Perms(Swapped(s, start, j - 1), start + 1)
  {
  }

  lemma NoGroup<T>(s: seq<T>, start: nat)
    requires start < |s|
    ensures PermsBelow(s, start, start) == [] && Perms(s, start) == PermsBelow(s, start, |s|)
  {
  }

  function Factorial(n: nat): nat {
    if n == 0 then 1 else n * Factorial(n - 1)
  }

  lemma MulNext(n: nat, f: nat)
    ensures n * f + f == (n + 1) * f
  {
  }

  // ----- How many -----

  lemma {:induction false} PermsCount<T>(s: seq<T>, start: nat)
    requires start <= |s|
    ensures |Perms(s, start)| == Factorial(|s| - start)
    decreases |s| - start, |s| + 1
  {
    if start < |s| { BelowCount(s, start, |s|); }
  }

  lemma {:induction false} BelowCount<T>(s: seq<T>, start: nat, j: nat)
    requires start < |s| && start <= j <= |s|
    ensures |PermsBelow(s, start, j)| == (j - start) * Factorial(|s| - start - 1)
    decreases |s| - start, j
  {
    hide Perms, PermsBelow, Factorial, Swapped;
    NoGroup(s, start);
    if j > start {
      NextGroup(s, start, j);
      BelowCount(s, start, j - 1);
      PermsCount(Swapped(s, start, j - 1), start + 1);
      MulNext(j - 1 - start, Factorial(|s| - start - 1));
    }
  }

  // ----- Which -----

  /** A rearrangement of `s` from `start` on. */
  ghost predicate Rearranges<T>(p: seq<T>, s: seq<T>, start: nat)
    requires start <= |s|
  {
    |p| == |s| && multiset(p) == multiset(s) && p[..start] == s[..start]
  }

  lemma {:induction false} PermsSound<T>(s: seq<T>, start: nat, p: seq<T>)
    requires start <= |s| && p in Perms(s, start)
    ensures Rearranges(p, s, start)
    decreases |s| - start, |s| + 1
  {
    if start < |s| { var j := BelowSound(s, start, |s|, p); }
  }

  lemma {:induction false} BelowSound<T>(s: seq<T>, start: nat, j: nat, p: seq<T>) returns (k: nat)
    requires start < |s| && start <= j <= |s| && p in PermsBelow(s, start, j)
    ensures Rearranges(p, s, start) && start <= k < j && p[start] == s[k]
    decreases |s| - start, j
  {
    hide Perms, PermsBelow, Swapped, Rearranges;
    NoGroup(s, start);
    assert j > start;
    NextGroup(s, start, j);
    if p in PermsBelow(s, start, j - 1) {
      k := BelowSound(s, start, j - 1, p);
    } else {
      k := j - 1;
      PermsSound(Swapped(s, start, k), start + 1, p);
      GroupSound(s, start, k, p);
    }
  }

  lemma GroupSound<T>(s: seq<T>, start: nat, k: nat, p: seq<T>)
    requires start <= k < |s| && Rearranges(p, Swapped(s, start, k), start + 1)
    ensures Rearranges(p, s, start) && p[start] == s[k]
  {
    var t := Swapped(s, start, k);
    assert p[..start + 1][start] == t[..start + 1][start];
    assert p[..start] == p[..start + 1][..start] == t[..start + 1][..start] == s[..start];
  }

  /** Every rearrangement is among the calls... */
  lemma {:induction false} PermsComplete<T>(s: seq<T>, start: nat, p: seq<T>)
    requires start <= |s| && Rearranges(p, s, start)
    ensures p in Perms(s, start)
    decreases |s| - start
  {
    if start == |s| {
      assert p == p[..start] && s == s[..start];
    } else {
      var j := Chosen(s, start, p);
      var t := Swapped(s, start, j);
      assert p[..start + 1] == p[..start] + [p[start]] && t[..start + 1] == s[..start] + [s[j]];
      PermsComplete(t, start + 1, p);
      GroupIncluded(s, start, j, |s|, p);
    }
  }

  /** The element a rearrangement has at `start`. */
  lemma Chosen<T>(s: seq<T>, start: nat, p: seq<T>) returns (j: nat)
    requires start < |s| && Rearranges(p, s, start)
    ensures start <= j < |s| && s[j] == p[start]
  {
    SameRest(p, s, start);
    assert p[start] == p[start..][0];
    MultisetMember(p[start..], s[start..], p[start]);
    var k :| 0 <= k < |s| - start && s[start..][k] == p[start];
    j := start + k;
  }

  lemma SameRest<T>(p: seq<T>, s: seq<T>, start: nat)
    requires start <= |s| && Rearranges(p, s, start)
    ensures multiset(p[start..]) == multiset(s[start..])
  {
    var a := p[..start];
    assert p == a + p[start..] && s == a + s[start..];
    Cancel(multiset(a), multiset(p[start..]), multiset(s[start..]));
  }

  lemma Cancel<T>(a: multiset<T>, m: multiset<T>, n: multiset<T>)
    requires a + m == a + n
    ensures m == n
  {
    forall x ensures m[x] == n[x] {
      assert (a + m)[x] == (a + n)[x];
    }
  }

  lemma MultisetMember<T>(p: seq<T>, s: seq<T>, x: T)
    requires multiset(p) == multiset(s) && x in p
    ensures x in s
  {
    assert multiset(p)[x] > 0;
    assert multiset(s)[x] > 0;
  }

  lemma {:induction false} GroupIncluded<T>(s: seq<T>, start: nat, j: nat, hi: nat, p: seq<T>)
    requires start <= j < hi <= |s| && p in Perms(Swapped(s, start, j), start + 1)
    ensures p in PermsBelow(s, start, hi)
    decreases hi
  {
    hide Perms, PermsBelow, Swapped;
    NextGroup(s, start, hi);
    if hi > j + 1 { GroupIncluded(s, start, j, hi - 1, p); }
  }

  // ----- Once each -----

  predicate Distinct<T(==)>(s: seq<T>) {
    forall i, j :: 0 <= i < j < |s| ==> s[i] != s[j]
  }

  lemma DistinctConcat<T>(a: seq<T>, b: seq<T>)
    requires Distinct(a) && Distinct(b) && forall x :: x in a ==> x !in b
    ensures Distinct(a + b)
  {
    var c := a + b;
    forall i, j | 0 <= i < j < |c| ensures c[i] != c[j] {
      if i < |a| <= j {
        assert c[i] in a && c[j] in b;
      }
    }
  }

  lemma SwappedDistinct<T>(s: seq<T>, i: nat, j: nat)
    requires Distinct(s) && i < |s| && j < |s|
    ensures Distinct(Swapped(s, i, j))
  {
  }

  /** ...and, if the elements are distinct, only once. */
  lemma {:induction false} PermsDistinct<T>(s: seq<T>, start: nat)
    requires start <= |s| && Distinct(s)
    ensures Distinct(Perms(s, start))
    decreases |s| - start, |s| + 1
  {
    if start < |s| { BelowDistinct(s, start, |s|); }
  }

  lemma {:induction false} BelowDistinct<T>(s: seq<T>, start: nat, j: nat)
    requires start < |s| && start <= j <= |s| && Distinct(s)
    ensures Distinct(PermsBelow(s, start, j))
    decreases |s| - start, j
  {
    hide Perms, PermsBelow, Swapped, Rearranges, Distinct;
    NoGroup(s, start);
    if j > start {
      var t := Swapped(s, start, j - 1);
      var a, b := PermsBelow(s, start, j - 1), Perms(t, start + 1);
      BelowDistinct(s, start, j - 1);
      SwappedDistinct(s, start, j - 1);
      PermsDistinct(t, start + 1);
      NextGroup(s, start, j);
      forall p | p in a ensures p !in b {
        var k := BelowSound(s, start, j - 1, p);
        if p in b {
          PermsSound(t, start + 1, p);
          GroupSound(s, start, j - 1, p);
          Different(s, k, j - 1);
        }
      }
      DistinctConcat(a, b);
    } else {
      Nothing<seq<T>>();
    }
  }

  lemma Different<T>(s: seq<T>, i: nat, j: nat)
    requires Distinct(s) && i < j < |s|
    ensures s[i] != s[j]
  {
  }

  lemma Nothing<T>()
    ensures Distinct<T>([])
  {
  }

  // ----- The program -----

  /** `arr32_elt_swap`. */
  method Swap<T>(v: array<T>, i: nat, j: nat)
    requires i < v.Length && j < v.Length
    modifies v
    ensures v[..] == Swapped(old(v[..]), i, j)
  {
    var t := v[i];
    v[i] := v[j];
    v[j] := t;
  }

  lemma SwappedBack<T>(s: seq<T>, i: nat, j: nat)
    requires i < |s| && j < |s|
    ensures Swapped(Swapped(s, i, j), i, j) == s
  {
  }

  /** One turn of the loop. */
  method TryWith<T>(arr: array<T>, start: nat, j: nat) returns (calls: seq<seq<T>>)
    requires start <= j < arr.Length
    modifies arr
    ensures arr[..] == old(arr[..]) && calls == Perms(Swapped(arr[..], start, j), start + 1)
    decreases arr.Length - start, 0
  {
    hide Perms, Swapped;
    SwappedBack(arr[..], start, j);
    Swap(arr, start, j);
    calls := PermuteFrom(arr, start + 1);
    Swap(arr, start, j);
  }

  /** `arr32_permute`; `calls` is what the callback sees, call by call. */
  method PermuteFrom<T>(arr: array<T>, start: nat) returns (calls: seq<seq<T>>)
    requires start <= arr.Length
    modifies arr
    ensures arr[..] == old(arr[..]) && calls == Perms(arr[..], start)
    decreases arr.Length - start, 1
  {
    if start == arr.Length {
      return [arr[..]];
    }
    calls := [];
    ghost var s := arr[..];
    NoGroup(s, start);
    var j := start;
    while j < arr.Length
      invariant start <= j <= arr.Length && arr[..] == s && calls == PermsBelow(s, start, j)
    {
      NextGroup(s, start, j + 1);
      var more := TryWith(arr, start, j);
      calls := calls + more;
      j := j + 1;
    }
  }

  /** From index 0 on distinct elements: every permutation, exactly once, and the array is as it was. */
  method AllPermutations<T>(arr: array<T>) returns (calls: seq<seq<T>>)
    requires Distinct(arr[..])
    modifies arr
    ensures arr[..] == old(arr[..])
    ensures |calls| == Factorial(arr.Length) && Distinct(calls)
    ensures forall p :: p in calls ==> |p| == arr.Length && multiset(p) == multiset(arr[..])
    ensures forall p :: |p| == arr.Length && multiset(p) == multiset(arr[..]) ==> p in calls
  {
    calls := PermuteFrom(arr, 0);
    var s := arr[..];
    PermsCount(s, 0);
    PermsDistinct(s, 0);
    forall p | p in calls ensures |p| == |s| && multiset(p) == multiset(s) {
      PermsSound(s, 0, p);
    }
    forall p | |p| == |s| && multiset(p) == multiset(s) ensures p in calls {
      PermsComplete(s, 0, p);
    }
  }
}
