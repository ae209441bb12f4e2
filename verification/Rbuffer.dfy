/** The ring buffer of `src/ds/rbuffer.c`, and the queue it is when used as a FIFO. */
module Rbuffer {
  datatype Option<T> = None | Some(value: T)

  // ----- Bounded queues as values -----

  /** A full queue refuses. */
  function FifoAdd<T>(q: seq<T>, max: nat, x: T): (bool, seq<T>) {
    if |q| >= max then (false, q) else (true, q + [x])
  }

  /** An empty queue has nothing to give. */
  function FifoRemove<T>(q: seq<T>): (Option<T>, seq<T>) {
    if q == [] then (None, q) else (Some(q[0]), q[1..])
  }

  function FifoFront<T>(q: seq<T>): Option<T> {
    if q == [] then None else Some(q[0])
  }

  // ----- Reading around the end of an array -----

  /** The slot `i` places after `start`. */
  function Slot(start: nat, i: nat, n: nat): (k: nat)
    requires start < n && i <= n
    ensures k == if start + i < n then start + i else start + i - n
  {
    (start + i) % n
  }

  /** The `count` elements of `a` from `start` on. */
  function Around<T>(a: seq<T>, start: nat, count: nat): (s: seq<T>)
    requires start < |a| && count <= |a|
    ensures |s| == count && forall i :: 0 <= i < count ==> s[i] == a[Slot(start, i, |a|)]
  {
    seq(count, i requires 0 <= i < count => a[Slot(start, i, |a|)])
  }

  lemma AroundPut<T>(a: seq<T>, start: nat, count: nat, x: T)
    requires start < |a| && count < |a|
    ensures Around(a[Slot(start, count, |a|) := x], start, count + 1) == Around(a, start, count) + [x]
  {
    var b := a[Slot(start, count, |a|) := x];
    assert forall i :: 0 <= i < count ==> Slot(start, i, |a|) != Slot(start, count, |a|);
    assert forall i :: 0 <= i < count ==> Around(b, start, count + 1)[i] == Around(a, start, count)[i];
  }

  /** When the buffer is full the next slot is the oldest one. */
  lemma AroundOverwrite<T>(a: seq<T>, start: nat, x: T)
    requires start < |a|
    ensures Slot(start, |a|, |a|) == start
    ensures Around(a[start := x], Slot(start, 1, |a|), |a|) == Around(a, start, |a|)[1..] + [x]
  {
    var n, next := |a|, Slot(start, 1, |a|);
    forall i | 0 <= i < n - 1 ensures Slot(next, i, n) == Slot(start, i + 1, n) && Slot(start, i + 1, n) != start {
      assert start + (i + 1) < n || start + (i + 1) - n < start;
    }
    assert Slot(next, n - 1, n) == start;
  }

  lemma AroundDrop<T>(a: seq<T>, start: nat, count: nat)
    requires start < |a| && 0 < count <= |a|
    ensures Around(a, Slot(start, 1, |a|), count - 1) == Around(a, start, count)[1..]
    ensures Around(a, start, count)[0] == a[start]
  {
    var n, next := |a|, Slot(start, 1, |a|);
    assert Slot(start, 0, n) == start;
    assert forall i :: 0 <= i < n - 1 ==> Slot(next, i, n) == Slot(start, i + 1, n);
  }

  class Buffer<T(0)> {
    const asFifo: bool
    const elements: array<T>
    var start: nat
    var current: nat

    ghost predicate Valid()
      reads this
    {
      elements.Length > 0 && start < elements.Length && current <= elements.Length
    }

    /** The elements, oldest first. */
    ghost function Contents(): (s: seq<T>)
      requires Valid()
      reads this, elements
      ensures |s| == current
    {
      Around(elements[..], start, current)
    }

    constructor (max: nat, asFifo: bool)
      requires max > 0
      ensures Valid() && Contents() == [] && elements.Length == max && this.asFifo == asFifo
      ensures fresh(elements)
    {
      this.asFifo := asFifo;
      elements := new T[max];
      start, current := 0, 0;
    }

    predicate IsFull()
      reads this
    {
      current == elements.Length
    }

    predicate IsEmpty()
      reads this
    {
      current == 0
    }

    /** `rbuffer_add`: a full FIFO refuses, any other full buffer forgets its oldest element. */
    method Add(x: T) returns (ok: bool)
      requires Valid()
      modifies this`start, this`current, elements
      ensures Valid()
      ensures asFifo ==> (ok, Contents()) == FifoAdd(old(Contents()), elements.Length, x)
      ensures !asFifo ==>
        ok && Contents() == (if old(IsFull()) then old(Contents())[1..] else old(Contents())) + [x]
    {
      if asFifo && IsFull() {
        return false;
      }
      if IsFull() {
        AroundOverwrite(elements[..], start, x);
      } else {
        AroundPut(elements[..], start, current, x);
      }
      hide Around;
      elements[Slot(start, current, elements.Length)] := x;
      if IsFull() {
        start := Slot(start, 1, elements.Length);
      } else {
        current := current + 1;
      }
      return true;
    }

    /** `rbuffer_remove`; the copy to the caller is the result. */
    method Remove() returns (r: Option<T>)
      requires Valid()
      modifies this`start, this`current
      ensures Valid()
      ensures (r, Contents()) == FifoRemove(old(Contents()))
    {
      if IsEmpty() {
        return None;
      }
      AroundDrop(elements[..], start, current);
      hide Around;
      r := Some(elements[start]);
      start := Slot(start, 1, elements.Length);
      current := current - 1;
    }

    /** `rbuffer_front`. */
    method Front() returns (r: Option<T>)
      requires Valid()
      ensures r == FifoFront(Contents())
    {
      if IsEmpty() {
        return None;
      }
      AroundDrop(elements[..], start, current);
      return Some(elements[start]);
    }

    /** `rbuffer_clear`. */
    method Clear()
      requires Valid()
      modifies this`start, this`current
      ensures Valid() && Contents() == []
    {
      current := 0;
      start := 0;
    }
  }
}
