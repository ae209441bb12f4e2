/** What one step of a radix sort does to a sequence, and why the steps sort it. */
module RadixOrder {
  import S = Stable

  /** The symbol of `x` at the place of value `exp`. */
  function Digit(x: nat, exp: nat, base: nat): (d: nat)
    requires exp > 0 && base > 0
    ensures d < base
  {
    (x / exp) % base
  }

  /** The elements with symbol `j`, in order. */
  function Select(s: seq<nat>, exp: nat, base: nat, j: nat): seq<nat>
    requires exp > 0 && base > 0
  {
    if s == [] then []
    else Select(s[..|s| - 1], exp, base, j) + if Digit(s[|s| - 1], exp, base) == j then [s[|s| - 1]] else []
  }

  /** The elements with a symbol below `j`, symbol by symbol. */
  function Gathered(s: seq<nat>, exp: nat, base: nat, j: nat): seq<nat>
    requires exp > 0 && base > 0
  {
    if j == 0 then [] else Gathered(s, exp, base, j - 1) + Select(s, exp, base, j - 1)
  }

  lemma {:induction false} SelectConcat(a: seq<nat>, b: seq<nat>, exp: nat, base: nat, j: nat)
    requires exp > 0 && base > 0
    ensures Select(a + b, exp, base, j) == Select(a, exp, base, j) + Select(b, exp, base, j)
  {
    if b == [] {
      assert a + b == a;
    } else {
      var init := b[..|b| - 1];
      assert (a + b)[..|a + b| - 1] == a + init;
      SelectConcat(a, init, exp, base, j);
    }
  }

  lemma {:induction false} SelectShort(s: seq<nat>, exp: nat, base: nat, j: nat)
    requires exp > 0 && base > 0
    ensures |Select(s, exp, base, j)| <= |s|
    ensures forall x :: x in Select(s, exp, base, j) ==> x in s && Digit(x, exp, base) == j
  {
    if s != [] { SelectShort(s[..|s| - 1], exp, base, j); }
  }

  /** Adding an element adds it to the group of its symbol. */
  lemma {:induction false} GatheredAdd(s: seq<nat>, x: nat, exp: nat, base: nat, j: nat)
    requires exp > 0 && base > 0
    ensures multiset(Gathered(s + [x], exp, base, j)) ==
      multiset(Gathered(s, exp, base, j)) + if Digit(x, exp, base) < j then multiset{x} else multiset{}
  {
    hide Digit, Select;
    if j > 0 {
      GatheredAdd(s, x, exp, base, j - 1);
      SelectLast(s + [x], exp, base, j - 1);
      assert (s + [x])[..|s|] == s;
    }
  }

  lemma {:induction false} GatheredNothing(exp: nat, base: nat, j: nat)
    requires exp > 0 && base > 0
    ensures Gathered([], exp, base, j) == []
  {
    if j > 0 { GatheredNothing(exp, base, j - 1); }
  }

  lemma {:induction false} GatheredSame(s: seq<nat>, exp: nat, base: nat)
    requires exp > 0 && base > 0
    ensures multiset(Gathered(s, exp, base, base)) == multiset(s)
  {
    if s == [] {
      GatheredNothing(exp, base, base);
    } else {
      var init, x := s[..|s| - 1], s[|s| - 1];
      assert s == init + [x];
      GatheredSame(init, exp, base);
      GatheredAdd(init, x, exp, base, base);
    }
  }

  lemma {:induction false} GatheredDigits(s: seq<nat>, exp: nat, base: nat, j: nat)
    requires exp > 0 && base > 0
    ensures forall x :: x in Gathered(s, exp, base, j) ==> Digit(x, exp, base) < j
  {
    if j > 0 {
      GatheredDigits(s, exp, base, j - 1);
      SelectShort(s, exp, base, j - 1);
    }
  }

  // ----- One step is a stable sort by one symbol -----

  function ByDigit(exp: nat, base: nat): (nat, nat) -> bool
    requires exp > 0 && base > 0
  {
    (x: nat, y: nat) => Digit(x, exp, base) <= Digit(y, exp, base)
  }

  lemma {:induction false} ClassSelect(s: seq<nat>, exp: nat, base: nat, x: nat)
    requires exp > 0 && base > 0
    ensures S.Class(ByDigit(exp, base), s, x) == Select(s, exp, base, Digit(x, exp, base))
  {
    if s != [] {
      var init, last := s[..|s| - 1], [s[|s| - 1]];
      assert s == init + last;
      ClassSelect(init, exp, base, x);
      S.ClassConcat(ByDigit(exp, base), init, last, x);
      assert last[1..] == [];
    }
  }

  lemma SelectNothing(exp: nat, base: nat, j: nat)
    requires exp > 0 && base > 0
    ensures Select([], exp, base, j) == []
  {
  }

  /** Selecting from what was gathered gives back one group. */
  lemma {:induction false} SelectGathered(s: seq<nat>, exp: nat, base: nat, j: nat, d: nat)
    requires exp > 0 && base > 0
    ensures Select(Gathered(s, exp, base, j), exp, base, d) == if d < j then Select(s, exp, base, d) else []
  {
    hide Digit, Select;
    SelectNothing(exp, base, d);
    if j > 0 {
      var before, group := Gathered(s, exp, base, j - 1), Select(s, exp, base, j - 1);
      SelectGathered(s, exp, base, j - 1, d);
      SelectConcat(before, group, exp, base, d);
      SelectTwice(s, exp, base, j - 1, d);
    }
  }

  lemma SelectOne(x: nat, exp: nat, base: nat, j: nat)
    requires exp > 0 && base > 0
    ensures Select([x], exp, base, j) == if Digit(x, exp, base) == j then [x] else []
  {
    assert [x][..0] == [];
  }

  lemma {:induction false} SelectTwice(s: seq<nat>, exp: nat, base: nat, i: nat, j: nat)
    requires exp > 0 && base > 0
    ensures Select(Select(s, exp, base, i), exp, base, j) == if i == j then Select(s, exp, base, i) else []
  {
    if s != [] {
      var init, x := s[..|s| - 1], s[|s| - 1];
      SelectTwice(init, exp, base, i, j);
      SelectLast(s, exp, base, i);
      SelectOne(x, exp, base, j);
      SelectConcat(Select(init, exp, base, i), [x], exp, base, j);
      var a := Select(init, exp, base, i);
      hide Select, Digit;
      if Digit(x, exp, base) != i { assert a + [] == a; }
    }
  }

  lemma SelectLast(s: seq<nat>, exp: nat, base: nat, j: nat)
    requires exp > 0 && base > 0 && s != []
    ensures Select(s, exp, base, j) ==
      Select(s[..|s| - 1], exp, base, j) + if Digit(s[|s| - 1], exp, base) == j then [s[|s| - 1]] else []
  {
  }

  lemma {:induction false} GatheredSorted(s: seq<nat>, exp: nat, base: nat, j: nat)
    requires exp > 0 && base > 0
    ensures S.Sorted(ByDigit(exp, base), Gathered(s, exp, base, j))
  {
    if j > 0 {
      GatheredSorted(s, exp, base, j - 1);
      GatheredDigits(s, exp, base, j - 1);
      SelectShort(s, exp, base, j - 1);
    }
  }

  /** Gathering group by group is the stable sort by the current symbol. */
  lemma GatheredStable(s: seq<nat>, exp: nat, base: nat)
    requires exp > 0 && base > 0
    ensures S.StableSort(ByDigit(exp, base), s, s, Gathered(s, exp, base, base))
  {
    var out := Gathered(s, exp, base, base);
    GatheredSorted(s, exp, base, base);
    GatheredSame(s, exp, base);
    forall x | x in s ensures S.Class(ByDigit(exp, base), out, x) == S.Class(ByDigit(exp, base), s, x) {
      ClassSelect(out, exp, base, x);
      ClassSelect(s, exp, base, x);
      SelectGathered(s, exp, base, base, Digit(x, exp, base));
    }
  }

  // ----- The steps together sort -----

  predicate SortedMod(s: seq<nat>, exp: nat)
    requires exp > 0
  {
    forall i, j :: 0 <= i < j < |s| ==> s[i] % exp <= s[j] % exp
  }

  lemma MulOrder(a: nat, b: nat, c: nat)
    requires a <= b
    ensures a * c <= b * c
  {
  }

  lemma Expand(a: int, b: int, c: int, d: int)
    ensures (a * b + c) * d == a * (d * b) + c * d
  {
  }

  /** The digits of a number from its quotients and remainders. */
  lemma Places(x: nat, exp: nat, base: nat, q: nat, r: nat, p: nat, d: nat)
    requires x == q * exp + r && r < exp && q == p * base + d && d < base
    ensures exp * base > 0 && x == p * (exp * base) + (d * exp + r) && d * exp + r < exp * base
  {
    Expand(p, base, d, exp);
    MulOrder(d + 1, base, exp);
    assert (d + 1) * exp == d * exp + exp;
  }

  /** A place more: the symbol, then the places below. */
  lemma ModDigit(x: nat, exp: nat, base: nat)
    requires exp > 0 && base > 0
    ensures exp * base > 0 && x % (exp * base) == Digit(x, exp, base) * exp + x % exp
  {
    var q, r := x / exp, x % exp;
    Places(x, exp, base, q, r, q / base, q % base);
    DivModUnique(x, exp * base, q / base, (q % base) * exp + r);
  }

  lemma DivModUnique(x: nat, m: nat, q: nat, r: nat)
    requires m > 0 && r < m && x == q * m + r
    ensures x % m == r && x / m == q
  {
    var q', r' := x / m, x % m;
    assert x == q' * m + r';
    OneQuotient(m, q, r, q', r');
  }

  lemma OneQuotient(m: nat, q: nat, r: nat, q': nat, r': nat)
    requires r < m && r' < m && q * m + r == q' * m + r'
    ensures q == q' && r == r'
  {
    if q < q' {
      MoreQuotient(m, q, r, q', r');
    } else if q' < q {
      MoreQuotient(m, q', r', q, r);
    }
  }

  lemma MoreQuotient(m: nat, q: nat, r: nat, q': nat, r': nat)
    requires q < q' && r < m
    ensures q * m + r < q' * m + r'
  {
    MulOrder(q + 1, q', m);
    assert (q + 1) * m == q * m + m;
  }

  lemma {:induction false} SelectSortedMod(s: seq<nat>, exp: nat, base: nat, j: nat)
    requires exp > 0 && base > 0 && SortedMod(s, exp)
    ensures SortedMod(Select(s, exp, base, j), exp)
  {
    if s != [] {
      var init := s[..|s| - 1];
      SelectSortedMod(init, exp, base, j);
      SelectShort(init, exp, base, j);
      var a := Select(init, exp, base, j);
      forall i | 0 <= i < |a| ensures a[i] % exp <= s[|s| - 1] % exp {
        assert a[i] in init;
      }
    }
  }

  /** Within a group the lower places decide, between groups the symbol does. */
  lemma GroupOrder(x: nat, y: nat, exp: nat, base: nat)
    requires exp > 0 && base > 0
    requires Digit(x, exp, base) < Digit(y, exp, base)
      || (Digit(x, exp, base) == Digit(y, exp, base) && x % exp <= y % exp)
    ensures exp * base > 0 && x % (exp * base) <= y % (exp * base)
  {
    ModDigit(x, exp, base);
    ModDigit(y, exp, base);
    var d, e, a, b := Digit(x, exp, base), Digit(y, exp, base), x % exp, y % exp;
    hide Digit;
    if d < e {
      MulOrder(d + 1, e, exp);
      assert (d + 1) * exp == d * exp + exp;
    }
  }

  lemma {:induction false} GatheredSortedMod(s: seq<nat>, exp: nat, base: nat, j: nat)
    requires exp > 0 && base > 0 && SortedMod(s, exp)
    ensures exp * base > 0 && SortedMod(Gathered(s, exp, base, j), exp * base)
  {
    hide Gathered, Select, SortedMod, Digit;
    PlacePositive(exp, base);
    if j > 0 {
      GatheredSortedMod(s, exp, base, j - 1);
      GatheredDigits(s, exp, base, j - 1);
      SelectShort(s, exp, base, j - 1);
      SelectSortedMod(s, exp, base, j - 1);
      GatheredNext(s, exp, base, j);
      GroupsSorted(Gathered(s, exp, base, j - 1), Select(s, exp, base, j - 1), exp, base, j - 1);
    } else {
      GatheredNext(s, exp, base, j);
      NothingSorted(exp * base);
    }
  }

  lemma PlacePositive(exp: nat, base: nat)
    requires exp > 0 && base > 0
    ensures exp * base > 0
  {
  }

  lemma NothingSorted(m: nat)
    requires m > 0
    ensures SortedMod([], m)
  {
  }

  lemma GatheredNext(s: seq<nat>, exp: nat, base: nat, j: nat)
    requires exp > 0 && base > 0
    ensures Gathered(s, exp, base, j)
      == if j == 0 then [] else Gathered(s, exp, base, j - 1) + Select(s, exp, base, j - 1)
  {
  }

  /** A group of the next symbol behind groups of smaller symbols. */
  lemma GroupsSorted(a: seq<nat>, b: seq<nat>, exp: nat, base: nat, j: nat)
    requires exp > 0 && base > 0 && exp * base > 0 && SortedMod(a, exp * base) && SortedMod(b, exp)
    requires (forall x :: x in a ==> Digit(x, exp, base) < j) && (forall x :: x in b ==> Digit(x, exp, base) == j)
    ensures SortedMod(a + b, exp * base)
  {
    hide Digit;
    var out := a + b;
    forall i, k | 0 <= i < k < |out| ensures out[i] % (exp * base) <= out[k] % (exp * base) {
      if |a| <= k {
        assert out[k] in b;
        if i < |a| {
          assert out[i] in a;
        } else {
          assert out[i] in b && b[i - |a|] % exp <= b[k - |a|] % exp;
        }
        GroupOrder(out[i], out[k], exp, base);
      }
    }
  }

  /** Once the place value is above every element, the order by remainders is the order itself. */
  lemma ModAll(s: seq<nat>, exp: nat)
    requires exp > 0 && SortedMod(s, exp) && forall x :: x in s ==> x < exp
    ensures forall i, j :: 0 <= i < j < |s| ==> s[i] <= s[j]
  {
    assert forall i :: 0 <= i < |s| ==> s[i] in s;
    assert forall x: nat :: x < exp ==> x % exp == x;
  }
}
