/** Stable sorting: what it is, that there is only one result, and that merging gives it. */
module Stable {

  /** `le` is a total preorder on the elements of `s`. */
  ghost predicate Preorder<T>(le: (T, T) -> bool, s: seq<T>) {
    && (forall x, y :: x in s && y in s ==> le(x, y) || le(y, x))
    && (forall x, y, z :: x in s && y in s && z in s && le(x, y) && le(y, z) ==> le(x, z))
  }

  ghost predicate Sorted<T>(le: (T, T) -> bool, s: seq<T>) {
    forall i, j :: 0 <= i < j < |s| ==> le(s[i], s[j])
  }

  predicate Alike<T>(le: (T, T) -> bool, x: T, y: T) { le(x, y) && le(y, x) }

  /** The elements of `s` that compare equal to `x`, in their order. */
  function Class<T>(le: (T, T) -> bool, s: seq<T>, x: T): seq<T> {
    if s == [] then [] else (if Alike(le, s[0], x) then [s[0]] else []) + Class(le, s[1..], x)
  }

  predicate Within<T(==)>(s: seq<T>, dom: seq<T>) {
    forall x :: x in s ==> x in dom
  }

  /** `out` is sorted, and elements that compare equal keep the order they have in `s`; `dom` holds
      all there is to compare. */
  ghost predicate StableSort<T>(le: (T, T) -> bool, dom: seq<T>, s: seq<T>, out: seq<T>) {
    && Sorted(le, out) && multiset(out) == multiset(s)
    && forall x :: x in dom ==> Class(le, out, x) == Class(le, s, x)
  }

  lemma ClassFrom<T>(le: (T, T) -> bool, s: seq<T>, x: T)
    ensures Class(le, s, x) ==
      if s == [] then [] else (if Alike(le, s[0], x) then [s[0]] else []) + Class(le, s[1..], x)
  {
  }

  lemma {:induction false} ClassConcat<T>(le: (T, T) -> bool, a: seq<T>, b: seq<T>, x: T)
    ensures Class(le, a + b, x) == Class(le, a, x) + Class(le, b, x)
  {
    hide Alike, Class;
    ClassFrom(le, a, x);
    if a == [] {
      assert a + b == b;
    } else {
      ClassFrom(le, a + b, x);
      assert (a + b)[1..] == a[1..] + b;
      ClassConcat(le, a[1..], b, x);
    }
  }

  lemma {:induction false} ClassNone<T>(le: (T, T) -> bool, s: seq<T>, x: T)
    requires forall y :: y in s ==> !Alike(le, y, x)
    ensures Class(le, s, x) == []
  {
    if s != [] { ClassNone(le, s[1..], x); }
  }

  // ----- Uniqueness -----

  lemma {:induction false} ClassFirst<T>(le: (T, T) -> bool, s: seq<T>, x: T)
    requires s != [] && Alike(le, s[0], x)
    ensures Class(le, s, x) != [] && Class(le, s, x)[0] == s[0]
  {
  }

  /** Equal classes start with the same element. */
  lemma SameFirst<T>(le: (T, T) -> bool, dom: seq<T>, a: seq<T>, b: seq<T>)
    requires Preorder(le, dom) && Within(a, dom) && Sorted(le, a) && Sorted(le, b) && multiset(a) == multiset(b)
    requires a != []
    requires forall x :: x in dom ==> Class(le, a, x) == Class(le, b, x)
    ensures b != [] && a[0] == b[0]
  {
    SameMembers(a, b);
    assert a[0] in a && b[0] in b && b[0] in a && a[0] in b;
    FirstLeast(le, dom, a, b[0]);
    FirstLeast(le, dom, b, a[0]);
    ClassFirst(le, a, a[0]);
    ClassFirst(le, b, a[0]);
  }

  lemma FirstLeast<T>(le: (T, T) -> bool, dom: seq<T>, a: seq<T>, y: T)
    requires Preorder(le, dom) && Within(a, dom) && Sorted(le, a) && y in a
    ensures le(a[0], y)
  {
    var i :| 0 <= i < |a| && a[i] == y;
    assert a[0] in dom;
  }

  lemma SameMembers<T>(a: seq<T>, b: seq<T>)
    requires multiset(a) == multiset(b)
    ensures |a| == |b| && forall x :: x in a <==> x in b
  {
    assert |multiset(a)| == |multiset(b)|;
    forall x ensures x in a <==> x in b {
      assert x in a <==> multiset(a)[x] > 0;
      assert x in b <==> multiset(b)[x] > 0;
    }
  }

  lemma TailsAlike<T>(le: (T, T) -> bool, a: seq<T>, b: seq<T>, x: T)
    requires a != [] && b != [] && a[0] == b[0] && Class(le, a, x) == Class(le, b, x)
    ensures Class(le, a[1..], x) == Class(le, b[1..], x)
  {
    var e := if Alike(le, a[0], x) then [a[0]] else [];
    assert Class(le, a, x) == e + Class(le, a[1..], x) && Class(le, b, x) == e + Class(le, b[1..], x);
    assert Class(le, a[1..], x) == Class(le, a, x)[|e|..];
  }

  lemma TailsCount<T>(a: seq<T>, b: seq<T>)
    requires a != [] && b != [] && a[0] == b[0] && multiset(a) == multiset(b)
    ensures multiset(a[1..]) == multiset(b[1..])
  {
    assert a == [a[0]] + a[1..] && b == [b[0]] + b[1..];
    assert multiset(a[1..]) == multiset(a) - multiset{a[0]} == multiset(b[1..]);
  }

  lemma Tails<T>(le: (T, T) -> bool, dom: seq<T>, a: seq<T>, b: seq<T>)
    requires a != [] && b != [] && a[0] == b[0] && multiset(a) == multiset(b)
    requires forall x :: x in dom ==> Class(le, a, x) == Class(le, b, x)
    ensures multiset(a[1..]) == multiset(b[1..])
    ensures forall x :: x in dom ==> Class(le, a[1..], x) == Class(le, b[1..], x)
  {
    hide Class;
    TailsCount(a, b);
    forall x | x in dom ensures Class(le, a[1..], x) == Class(le, b[1..], x) {
      TailsAlike(le, a, b, x);
    }
  }

  /** There is only one stable result. */
  lemma {:induction false} Unique<T>(le: (T, T) -> bool, dom: seq<T>, a: seq<T>, b: seq<T>)
    requires Preorder(le, dom) && Within(a, dom) && Sorted(le, a) && Sorted(le, b) && multiset(a) == multiset(b)
    requires forall x :: x in dom ==> Class(le, a, x) == Class(le, b, x)
    ensures a == b
  {
    if a == [] {
      assert |multiset(b)| == 0;
    } else {
      SameFirst(le, dom, a, b);
      Tails(le, dom, a, b);
      hide Class;
      Unique(le, dom, a[1..], b[1..]);
    }
  }

  // ----- Merging -----

  /** The first of two lists is preferred on ties. */
  function Merge<T>(le: (T, T) -> bool, a: seq<T>, b: seq<T>): seq<T>
    decreases |a| + |b|
  {
    if a == [] then b
    else if b == [] then a
    else if le(a[0], b[0]) then [a[0]] + Merge(le, a[1..], b)
    else [b[0]] + Merge(le, a, b[1..])
  }

  lemma {:induction false} MergeMembers<T>(le: (T, T) -> bool, a: seq<T>, b: seq<T>)
    ensures multiset(Merge(le, a, b)) == multiset(a) + multiset(b)
    ensures |Merge(le, a, b)| == |a| + |b|
    ensures forall x :: x in Merge(le, a, b) ==> x in a || x in b
    ensures forall x :: x in a || x in b ==> x in Merge(le, a, b)
    decreases |a| + |b|
  {
    if a != [] && b != [] {
      if le(a[0], b[0]) {
        MergeMembers(le, a[1..], b);
        assert a == [a[0]] + a[1..];
      } else {
        MergeMembers(le, a, b[1..]);
        assert b == [b[0]] + b[1..];
      }
    }
  }

  lemma ConsSorted<T>(le: (T, T) -> bool, x: T, s: seq<T>)
    requires Sorted(le, s) && forall y :: y in s ==> le(x, y)
    ensures Sorted(le, [x] + s)
  {
  }

  lemma {:induction false} MergeSorted<T>(le: (T, T) -> bool, dom: seq<T>, a: seq<T>, b: seq<T>)
    requires Preorder(le, dom) && Within(a, dom) && Within(b, dom) && Sorted(le, a) && Sorted(le, b)
    ensures Sorted(le, Merge(le, a, b))
    decreases |a| + |b|
  {
    if a != [] && b != [] {
      assert a[0] in dom && b[0] in dom;
      if le(a[0], b[0]) {
        MergeSorted(le, dom, a[1..], b);
        MergeMembers(le, a[1..], b);
        FirstOfAll(le, dom, a, b, Merge(le, a[1..], b));
      } else {
        MergeSorted(le, dom, a, b[1..]);
        MergeMembers(le, a, b[1..]);
        FirstOfAll(le, dom, b, a, Merge(le, a, b[1..]));
      }
    }
  }

  lemma FirstOfAll<T>(le: (T, T) -> bool, dom: seq<T>, a: seq<T>, b: seq<T>, rest: seq<T>)
    requires Preorder(le, dom) && Within(a, dom) && Within(b, dom) && Sorted(le, a) && Sorted(le, b) && Sorted(le, rest)
    requires a != [] && b != [] && le(a[0], b[0]) && forall y :: y in rest ==> y in a || y in b
    ensures Sorted(le, [a[0]] + rest)
  {
    forall y | y in rest ensures le(a[0], y) {
      if y in a {
        FirstLeast(le, dom, a, y);
      } else {
        FirstLeast(le, dom, b, y);
        assert a[0] in dom && b[0] in dom && y in dom;
      }
    }
    ConsSorted(le, a[0], rest);
  }

  /** Merging keeps the order of elements that compare equal; `dom` holds all there is to compare. */
  lemma {:induction false} MergeClass<T>(le: (T, T) -> bool, dom: seq<T>, a: seq<T>, b: seq<T>, x: T)
    requires Preorder(le, dom) && Sorted(le, a) && Sorted(le, b) && x in dom
    requires Within(a, dom) && Within(b, dom)
    ensures Class(le, Merge(le, a, b), x) == Class(le, a, x) + Class(le, b, x)
    decreases |a| + |b|
  {
    if a != [] && b != [] {
      assert a[0] in dom && b[0] in dom;
      if le(a[0], b[0]) {
        MergeClass(le, dom, a[1..], b, x);
      } else {
        MergeClass(le, dom, a, b[1..], x);
        if Alike(le, b[0], x) {
          forall y | y in a ensures !Alike(le, y, x) {
            var j :| 0 <= j < |a| && a[j] == y;
            assert j > 0 ==> le(a[0], a[j]);
          }
          ClassNone(le, a, x);
        }
      }
    }
  }

  /** Merging the stable results of two halves gives the stable result of the whole. */
  lemma MergeStable<T>(le: (T, T) -> bool, dom: seq<T>, s: seq<T>, t: seq<T>, a: seq<T>, b: seq<T>)
    requires Preorder(le, dom) && Within(s, dom) && Within(t, dom)
    requires StableSort(le, dom, s, a) && StableSort(le, dom, t, b)
    ensures StableSort(le, dom, s + t, Merge(le, a, b))
  {
    SameMembers(a, s);
    SameMembers(b, t);
    MergeMembers(le, a, b);
    MergeSorted(le, dom, a, b);
    forall x | x in dom ensures Class(le, Merge(le, a, b), x) == Class(le, s + t, x) {
      MergeClass(le, dom, a, b, x);
      ClassConcat(le, s, t, x);
    }
  }

  /** The stable sorted rearrangement of `s`. */
  function Msort<T>(le: (T, T) -> bool, s: seq<T>): seq<T>
    decreases |s|
  {
    if |s| < 2 then s else Merge(le, Msort(le, s[..|s| / 2]), Msort(le, s[|s| / 2..]))
  }

  lemma {:induction false} MsortStable<T>(le: (T, T) -> bool, dom: seq<T>, s: seq<T>)
    requires Preorder(le, dom) && Within(s, dom)
    ensures StableSort(le, dom, s, Msort(le, s))
    decreases |s|
  {
    if |s| >= 2 {
      var a, b := s[..|s| / 2], s[|s| / 2..];
      assert s == a + b;
      MsortStable(le, dom, a);
      MsortStable(le, dom, b);
      MergeStable(le, dom, a, b, Msort(le, a), Msort(le, b));
    }
  }

  /** Whatever is a stable sorted rearrangement is this one. */
  lemma OnlyMsort<T>(le: (T, T) -> bool, dom: seq<T>, s: seq<T>, out: seq<T>)
    requires Preorder(le, dom) && Within(s, dom) && StableSort(le, dom, s, out)
    ensures out == Msort(le, s)
  {
    MsortStable(le, dom, s);
    SameMembers(out, s);
    Unique(le, dom, out, Msort(le, s));
  }
}
