/** Whole runs: what a search tree holds after any sequence of operations on an empty one. */
module BstreeRuns {
  import opened KeyOrder
  import opened TreeShape
  import opened RbShape
  import opened Bstree

  lemma KeysOfEntries(s: seq<BNode>)
    ensures KeysOf(s) == set e | e in EntriesOf(s) :: e.0
  {
    forall n | n in s ensures n.key in (set e | e in EntriesOf(s) :: e.0) {
      assert (n.key, n.data) in EntriesOf(s);
    }
  }

  // ----- Insertions only, on any kind of tree -----

  /** What is left of the pairs of a key and its datablock when a key keeps its first datablock. */
  ghost function Kept(pairs: seq<(int, int)>): set<(int, int)> {
    if pairs == [] then {}
    else
      var before, e := Kept(pairs[..|pairs| - 1]), pairs[|pairs| - 1];
      if exists f :: f in before && f.0 == e.0 then before else before + {e}
  }

  lemma KeptNext(before: seq<BNode>, after: set<(int, int)>, pairs: seq<(int, int)>, e: (int, int))
    requires EntriesOf(before) == Kept(pairs)
    requires after == if e.0 in KeysOf(before) then EntriesOf(before) else EntriesOf(before) + {e}
    ensures after == Kept(pairs + [e])
  {
    KeysOfEntries(before);
    assert (pairs + [e])[..|pairs|] == pairs;
  }

  /** A new tree stores nothing. */
  lemma NothingYet(t: Tree)
    requires Inorder(t) == []
    ensures EntriesOf(Inorder(t)) == Kept([]) && Stores(EntriesOf(Inorder(t)), Applied([])) && KeysOf(Inorder(t)) == {}
  {
  }

  ghost function FirstKeys(pairs: seq<(int, int)>): set<int> {
    set e | e in pairs :: e.0
  }

  lemma FirstKeysOf(pairs: seq<(int, int)>, i: nat)
    requires i < |pairs|
    ensures pairs[i].0 in FirstKeys(pairs)
  {
  }

  /** The order of all keys orders those in the tree and the next one. */
  lemma OrderNext(cmp: Compare, all: set<int>, keys: set<int>, key: int)
    requires OrderOn(cmp, all) && keys <= all && key in all
    ensures OrderOn(cmp, keys + {key}) && keys + {key} <= all
  {
    OrderSome(cmp, all, keys + {key});
  }

  /** Insertions in any order and number, on any kind of tree. */
  method InsertAll(aux: Aux, cmp: Compare, pairs: seq<(int, int)>) returns (tr: BTree)
    requires OrderOn(Callback(aux, cmp), FirstKeys(pairs))
    ensures tr.Valid() && tr.Ordered() && tr.sound && tr.Entries() == Kept(pairs)
    ensures tr.aux == aux && tr.cmp == Callback(aux, cmp)
  {
    hide BTree.Valid, BTree.Ordered, OrderOn, EntriesOf, KeysOf, Kept, Callback, FirstKeys;
    tr := new BTree(aux, cmp);
    NothingYet(tr.shape);
    for i := 0 to |pairs|
      invariant tr.Valid() && tr.Ordered() && tr.sound && tr.Entries() == Kept(pairs[..i])
      invariant tr.aux == aux && tr.cmp == Callback(aux, cmp) && tr.Keys() <= FirstKeys(pairs)
      invariant fresh(tr) && fresh(tr.mem.Keys) && fresh(tr.nil)
    {
      ghost var before := tr.shape;
      FirstKeysOf(pairs, i);
      OrderNext(tr.cmp, FirstKeys(pairs), tr.Keys(), pairs[i].0);
      var r := tr.Insert(pairs[i].0, pairs[i].1);
      KeptNext(Inorder(before), tr.Entries(), pairs[..i], pairs[i]);
      assert pairs[..i + 1] == pairs[..i] + [pairs[i]];
    }
    assert pairs[..|pairs|] == pairs;
  }

  // ----- Insertions and removals -----

  datatype Op = Ins(key: int, data: int) | Rem(key: int)

  /** The dictionary the operations describe. */
  function Applied(ops: seq<Op>): map<int, int> {
    if ops == [] then map[]
    else
      var before := Applied(ops[..|ops| - 1]);
      match ops[|ops| - 1]
      case Ins(k, d) => if k in before then before else before[k := d]
      case Rem(k) => before - {k}
  }

  ghost predicate Stores(entries: set<(int, int)>, d: map<int, int>) {
    && (forall e :: e in entries ==> e.0 in d && d[e.0] == e.1)
    && (forall k :: k in d ==> (k, d[k]) in entries)
  }

  lemma StoresKeys(s: seq<BNode>, d: map<int, int>)
    requires Stores(EntriesOf(s), d)
    ensures KeysOf(s) == d.Keys
  {
    KeysOfEntries(s);
    forall k | k in d ensures k in KeysOf(s) {
      assert (k, d[k]) in EntriesOf(s);
    }
  }

  lemma InsStores(before: set<(int, int)>, after: set<(int, int)>, ops: seq<Op>, op: Op)
    requires op.Ins? && Stores(before, Applied(ops))
    requires after == if op.key in Applied(ops) then before else before + {(op.key, op.data)}
    ensures Stores(after, Applied(ops + [op]))
  {
    assert (ops + [op])[..|ops|] == ops;
  }

  lemma RemStores(before: set<(int, int)>, after: set<(int, int)>, ops: seq<Op>, op: Op)
    requires op.Rem? && Stores(before, Applied(ops))
    requires after == set e | e in before && e.0 != op.key
    ensures Stores(after, Applied(ops + [op]))
  {
    assert (ops + [op])[..|ops|] == ops;
  }

  ghost function OpKeys(ops: seq<Op>): set<int> {
    set op | op in ops :: op.key
  }

  lemma OpKeysOf(ops: seq<Op>, i: nat)
    requires i < |ops|
    ensures ops[i].key in OpKeys(ops)
  {
  }

  method Apply(tr: BTree, op: Op, ghost ops: seq<Op>, ghost all: set<int>)
    requires tr.Valid() && tr.Ordered() && Stores(tr.Entries(), Applied(ops))
    requires OrderOn(tr.cmp, all) && tr.Keys() <= all && op.key in all
    modifies tr, tr.mem.Keys, tr.nil
    ensures tr.Valid() && tr.Ordered() && Stores(tr.Entries(), Applied(ops + [op]))
    ensures tr.Keys() <= all && fresh(tr.mem.Keys - old(tr.mem.Keys))
  {
    hide BTree.Valid, BTree.Ordered, OrderOn, Stores, Applied, EntriesOf, KeysOf;
    StoresKeys(Inorder(tr.shape), Applied(ops));
    OrderNext(tr.cmp, all, tr.Keys(), op.key);
    ghost var before := tr.Entries();
    var r;
    match op
    case Ins(k, d) =>
      r := tr.Insert(k, d);
      InsStores(before, tr.Entries(), ops, op);
    case Rem(k) =>
      r := tr.Remove(k);
      RemStores(before, tr.Entries(), ops, op);
  }

  /** After any run, on any kind of tree, it is a red-black search tree that stores exactly that
      dictionary. */
  method Run(aux: Aux, cmp: Compare, ops: seq<Op>) returns (tr: BTree)
    requires OrderOn(Callback(aux, cmp), OpKeys(ops))
    ensures tr.Valid() && tr.Ordered() && Stores(tr.Entries(), Applied(ops))
    ensures tr.aux == aux && tr.cmp == Callback(aux, cmp)
  {
    hide BTree.Valid, BTree.Ordered, OrderOn, Stores, Applied, EntriesOf, KeysOf, Kept, Callback, OpKeys;
    tr := new BTree(aux, cmp);
    NothingYet(tr.shape);
    for i := 0 to |ops|
      invariant tr.Valid() && tr.Ordered() && Stores(tr.Entries(), Applied(ops[..i]))
      invariant tr.aux == aux && tr.cmp == Callback(aux, cmp) && tr.Keys() <= OpKeys(ops)
      invariant fresh(tr) && fresh(tr.mem.Keys) && fresh(tr.nil)
    {
      assert ops[..i] + [ops[i]] == ops[..i + 1];
      OpKeysOf(ops, i);
      Apply(tr, ops[i], ops[..i], OpKeys(ops));
    }
    assert ops[..|ops|] == ops;
  }
}
