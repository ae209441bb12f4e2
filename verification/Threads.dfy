/** Sums over the threads of a system: thread `t` is at control point `pc[t]`. */
module Threads {

  function Total<P>(pc: seq<P>, w: P -> nat): nat {
    if pc == [] then 0 else Total(pc[..|pc| - 1], w) + w(pc[|pc| - 1])
  }

  /** One thread moves. */
  lemma {:induction false} TotalStep<P>(pc: seq<P>, t: nat, x: P, w: P -> nat)
    requires t < |pc|
    ensures Total(pc[t := x], w) == Total(pc, w) - w(pc[t]) + w(x)
    ensures w(pc[t]) <= Total(pc, w)
  {
    var n := |pc| - 1;
    if t < n {
      assert pc[t := x][..n] == pc[..n][t := x];
      TotalStep(pc[..n], t, x, w);
    } else {
      assert pc[t := x][..n] == pc[..n];
    }
  }

  lemma {:induction false} TotalZero<P>(pc: seq<P>, w: P -> nat)
    requires forall t :: 0 <= t < |pc| ==> w(pc[t]) == 0
    ensures Total(pc, w) == 0
  {
    if pc != [] { TotalZero(pc[..|pc| - 1], w); }
  }

  /** A sum that is not zero has a thread that adds to it. */
  lemma {:induction false} SomeThread<P>(pc: seq<P>, w: P -> nat) returns (t: nat)
    requires Total(pc, w) > 0
    ensures t < |pc| && w(pc[t]) > 0
  {
    var n := |pc| - 1;
    if w(pc[n]) > 0 { t := n; } else { t := SomeThread(pc[..n], w); }
  }

  lemma {:induction false} AtLeast<P>(pc: seq<P>, t: nat, w: P -> nat)
    requires t < |pc|
    ensures w(pc[t]) <= Total(pc, w)
  {
    TotalStep(pc, t, pc[t], w);
  }

  /** Two threads add to a sum independently. */
  lemma {:induction false} AtLeastTwo<P>(pc: seq<P>, t: nat, u: nat, w: P -> nat)
    requires t < |pc| && u < |pc| && t != u
    ensures w(pc[t]) + w(pc[u]) <= Total(pc, w)
  {
    var n := |pc| - 1;
    if t < n && u < n {
      AtLeastTwo(pc[..n], t, u, w);
    } else {
      AtLeast(pc[..n], if t < n then t else u, w);
    }
  }
}
