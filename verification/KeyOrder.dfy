/** Orders of keys: what `bstree_init` demands of its `cmpkey` callback, and the comparison that
    `inttree_init` puts in its place (`src/ds/inttree.c`). */
module KeyOrder {
  type Compare = (int, int) -> int

  /** `cmp` puts the keys of `keys` in a strict order, and tells different keys apart. */
  ghost predicate OrderOn(cmp: Compare, keys: set<int>) {
    && (forall a, b :: a in keys && b in keys ==> (cmp(a, b) == 0 <==> a == b) && (cmp(a, b) < 0 <==> cmp(b, a) > 0))
    && (forall a, b, c :: a in keys && b in keys && c in keys && cmp(a, b) < 0 && cmp(b, c) < 0 ==> cmp(a, c) < 0)
  }

  lemma OrderSome(cmp: Compare, keys: set<int>, some: set<int>)
    requires OrderOn(cmp, keys) && some <= keys
    ensures OrderOn(cmp, some)
  {
  }

  /** The order of the integers. */
  function Difference(a: int, b: int): int { a - b }

  // ----- The comparison of interval trees -----

  const INT_MIN := -0x8000_0000
  const TWO_32 := 0x1_0000_0000

  predicate Int32(x: int) { INT_MIN <= x < 0x8000_0000 }

  /** The difference of two 32-bit integers as a 32-bit machine stores it. */
  function Wrapped(x: int): (y: int)
    ensures Int32(y) && (x - y) % TWO_32 == 0
  {
    var y := x % TWO_32;
    if y < 0x8000_0000 then y else y - TWO_32
  }

  /** `inttree_cmp_key`. */
  function CmpKey(a: int, b: int): int { Wrapped(a - b) }

  /** It orders two keys as integers exactly when their difference is itself a 32-bit integer. */
  lemma CmpKeyOrders(a: int, b: int)
    requires Int32(a) && Int32(b)
    ensures ((CmpKey(a, b) < 0 <==> a < b) && (CmpKey(a, b) == 0 <==> a == b)) <==> Int32(a - b)
  {
  }

  /** It always tells different keys apart. */
  lemma CmpKeyDistinct(a: int, b: int)
    requires Int32(a) && Int32(b)
    ensures CmpKey(a, b) == 0 <==> a == b
  {
  }

  /** Any two of these keys differ by a 32-bit integer. */
  ghost predicate Close(keys: set<int>) {
    forall a, b :: a in keys && b in keys ==> Int32(a) && Int32(a - b)
  }

  /** On such keys it is the order of the integers. */
  lemma CmpKeyClose(keys: set<int>)
    requires Close(keys)
    ensures OrderOn(CmpKey, keys)
    ensures forall a, b :: a in keys && b in keys ==> (CmpKey(a, b) < 0 <==> a < b)
  {
    forall a, b | a in keys && b in keys
      ensures (CmpKey(a, b) < 0 <==> a < b) && (CmpKey(a, b) == 0 <==> a == b)
      ensures CmpKey(a, b) < 0 <==> CmpKey(b, a) > 0
    {
      assert Int32(a - b) && Int32(b - a);
      CmpKeyOrders(a, b);
      CmpKeyOrders(b, a);
    }
  }
}
