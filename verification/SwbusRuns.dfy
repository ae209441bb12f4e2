/** What holds of the software bus in every reachable state. */
module SwbusRuns {
  import opened Threads
  import opened Rbuffer
  import opened Swbus
  import opened SwbusLinks
  import opened SwbusQueues
  import opened SwbusCounts
  import opened SwbusOrder
  import L = Rdwrlock
  import M = Mpool
  import Q = Pcqueue

  /** An allocated chunk has users: none is lost. */
  ghost predicate NoLeak(s: State) {
    forall p :: 0 <= p < |s.pools| ==> AllocUsed(s.pools[p])
  }

  ghost predicate AllocUsed(m: M.State) {
    forall c :: 0 <= c < |m.refs| && c in m.alloc ==> m.refs[c] > 0
  }

  ghost predicate Inv(s: State) {
    Linked(s) && QueuesOk(s) && Counts(s) && NoLeak(s) && OrderOk(s)
  }

  // ----- The start -----

  lemma InitLinked(s: State)
    requires Init(s)
    ensures Linked(s)
  {
    L.InitInv(s.lock);
    forall p | 0 <= p < |s.pools| ensures M.Inv(s.pools[p]) { M.InitInv(s.pools[p]); }
    forall q | 0 <= q < |s.rxqs| ensures Q.Inv(s.rxqs[q].impl) { Q.InitInv(s.rxqs[q].impl); }
  }

  lemma InitCounts(s: State)
    requires Init(s) && Linked(s)
    ensures QueuesOk(s) && Counts(s) && NoLeak(s)
  {
    forall p, c | 0 <= p < |s.pools| && 0 <= c < s.pools[p].max
      ensures s.pools[p].refs[c] == Total(s.pc, Holds(p, c)) + Total(AllNeeded(s), OccursIn(p, c))
    {
      TotalZero(s.pc, Holds(p, c));
      forall q | 0 <= q < |s.rxqs| ensures OccursIn(p, c)(AllNeeded(s)[q]) == 0 {
        assert Needed(s, q) == [];
      }
      TotalZero(AllNeeded(s), OccursIn(p, c));
    }
  }

  lemma InitInv(s: State)
    requires Init(s)
    ensures Inv(s)
  {
    InitLinked(s);
    InitCounts(s);
  }

  // ----- Steps -----

  lemma TakeLeak(m: M.State, t: nat, m': M.State)
    requires M.Inv(m) && t < |m.pc| && m.pc[t].ReqTake? && M.Step(m, t, m') && AllocUsed(m)
    ensures AllocUsed(m')
  {
    M.TakeFinds(m, t);
    hide Total, M.Taken, M.Partition;
    assert m'.refs == M.Taken(m).refs && m'.alloc == M.Taken(m).alloc;
  }

  lemma DropLeak(m: M.State, t: nat, m': M.State)
    requires M.Inv(m) && t < |m.pc| && m.pc[t].RelDrop? && M.Step(m, t, m') && m.pc[t].c in m.alloc && AllocUsed(m)
    ensures AllocUsed(m')
  {
    hide M.Inv, M.Remove, M.Partition, M.FreeUnused, M.Ours;
    DropParts(m, t, m');
  }

  lemma DropParts(m: M.State, t: nat, m': M.State)
    requires M.Inv(m) && t < |m.pc| && m.pc[t].RelDrop? && M.Step(m, t, m') && m.pc[t].c in m.alloc
    ensures var c := m.pc[t].c;
      && 0 <= c < |m.refs| && |m'.refs| == |m.refs| && (forall x :: x in m'.alloc ==> x in m.alloc)
      && (if m.refs[c] > 1 then m'.refs == m.refs[c := m.refs[c] - 1] else m'.refs == m.refs[c := 0] && c !in m'.alloc)
  {
    M.DropFrees(m, m.pc[t].c);
    hide M.Remove, Total;
  }

  lemma PoolLeak(m: M.State, t: nat, first: M.PC, m': M.State)
    requires M.Inv(m) && t < |m.pc| && PoolMoves(m, t, first, m') && M.CallerKeepsChunk(m, t) && AllocUsed(m)
    requires m.pc[t].RefChange? ==> m.pc[t].delta == 1
    ensures AllocUsed(m')
  {
    if m.pc[t].ReqTake? {
      TakeLeak(m, t, m');
    } else if m.pc[t].RelDrop? {
      DropLeak(m, t, m');
    } else {
      hide M.Inv;
    }
  }

  lemma LeakAt(s: State, t: nat, s': State, p: nat)
    requires Shape(s) && t < |s.pc| && Step(s, t, s') && p < |s.pools| && M.Inv(s.pools[p]) && AllocUsed(s.pools[p])
    requires PoolAt(s.pc[t], p, s.pools[p].pc[t]) && M.CallerKeepsChunk(s.pools[p], t)
    ensures p < |s'.pools| && AllocUsed(s'.pools[p])
  {
    PoolStep(s, t, s', p);
    hide Step, PoolMoves, M.CallerKeepsChunk, M.Inv, AllocUsed;
    if AboutPool(s.pc[t]).Some? && AboutPool(s.pc[t]).value.0 == p {
      PoolLeak(s.pools[p], t, AboutPool(s.pc[t]).value.1, s'.pools[p]);
    }
  }

  lemma LeakKept(s: State, t: nat, s': State)
    requires Linked(s) && QueuesOk(s) && Counts(s) && NoLeak(s) && t < |s.pc| && Step(s, t, s') && Frame(s, t, s')
    ensures NoLeak(s')
  {
    MaxKept(s, t, s');
    assert ThreadOk(s, t);
    hide Step, Counts, QueuesOk, Parts, SubsOk, Frame, LockAt, QueueAt, PoolAt, M.CallerKeepsChunk, M.Inv, AllocUsed;
    forall p | 0 <= p < |s'.pools| ensures AllocUsed(s'.pools[p]) {
      ThreadKeepsChunk(s, t, p);
      LeakAt(s, t, s', p);
    }
  }

  lemma StepInv(s: State, t: nat, s': State)
    requires Inv(s) && t < |s.pc| && Step(s, t, s')
    ensures Inv(s')
  {
    hide Linked, QueuesOk, Counts, NoLeak, OrderOk, Step, Frame;
    LinkedShape(s);
    BusKeepsChunks(s, t);
    LinkedKept(s, t, s');
    LinkedShape(s');
    QueuesKept(s, t, s');
    CountsKept(s, t, s');
    LeakKept(s, t, s');
    OrderKept(s, t, s');
  }

  lemma LinkedShape(s: State)
    requires Linked(s)
    ensures Shape(s) && Pools(s)
  {
  }

  // ----- Runs -----

  predicate Run(run: seq<State>) {
    forall i :: 0 < i < |run| ==> Next(run[i - 1], run[i])
  }

  lemma {:induction false} RunInv(run: seq<State>, i: nat)
    requires Run(run) && i < |run| && Init(run[0])
    ensures Inv(run[i])
  {
    InitInv(run[0]);
    if i > 0 {
      RunInv(run, i - 1);
      hide Step, Inv;
      assert Next(run[i - 1], run[i]);
      var t :| 0 <= t < |run[i - 1].pc| && Step(run[i - 1], t, run[i]);
      StepInv(run[i - 1], t, run[i]);
    }
  }

  /** In every reachable state the reference count of a chunk is its outstanding reservations plus
      the counted queue entries not yet released, and it is free exactly when that is none. */
  lemma ReferenceCounts(run: seq<State>, i: nat, p: nat, c: nat)
    requires Run(run) && i < |run| && Init(run[0])
    requires p < |run[i].pools| && c < run[i].pools[p].max
    ensures Shape(run[i]) && |run[i].pools[p].refs| == run[i].pools[p].max
    ensures run[i].pools[p].refs[c] == Total(run[i].pc, Holds(p, c)) + Total(AllNeeded(run[i]), OccursIn(p, c))
    ensures c in run[i].pools[p].free <==> run[i].pools[p].refs[c] == 0
    ensures c in run[i].pools[p].alloc <==> run[i].pools[p].refs[c] > 0
  {
    RunInv(run, i);
    var m := run[i].pools[p];
    assert AllocUsed(m) && M.Inv(m);
    assert multiset(m.free)[c] + multiset(m.alloc)[c] == 1;
    assert m.refs[c] >= 0 by { hide Linked; }
  }

  /** No chunk is free while an entry of a receive queue still needs it; in particular the one its
      consumer is working on. */
  lemma NeededNeverFree(run: seq<State>, i: nat, q: nat, e: Entry)
    requires Run(run) && i < |run| && Init(run[0]) && Shape(run[i]) && q < |run[i].rxqs| && e in Needed(run[i], q)
    ensures IsChunk(run[i], e.bp, e.data)
    ensures e.data in run[i].pools[e.bp].alloc && e.data !in run[i].pools[e.bp].free
  {
    RunInv(run, i);
    var s := run[i];
    hide Counts, OrderOk, NoLeak;
    NeededChunk(s, q, e);
    NeededCounts(s, q, e);
    CountedAllocated(s.pools[e.bp], e.data);
  }

  lemma NeededChunk(s: State, q: nat, e: Entry)
    requires Shape(s) && QueuesOk(s) && q < |s.rxqs| && e in Needed(s, q)
    ensures IsChunk(s, e.bp, e.data)
  {
    var f := s.rxqs[q].impl.fifo;
    assert QueueOk(s, q);
    assert e in f;
  }

  lemma ConsumerSafe(run: seq<State>, i: nat, t: nat)
    requires Run(run) && i < |run| && Init(run[0]) && t < |run[i].pc| && run[i].pc[t].RxHave?
    ensures var e := run[i].pc[t].e;
      IsChunk(run[i], e.bp, e.data) && e.data in run[i].pools[e.bp].alloc && e.data !in run[i].pools[e.bp].free
  {
    RunInv(run, i);
    assert ThreadOk(run[i], t);
    FrontNeeded(run[i], t);
    NeededNeverFree(run, i, run[i].pc[t].q, run[i].pc[t].e);
  }

  /** The step that gives up the last reference frees the chunk, and no other release does. */
  lemma LastReleaseFrees(run: seq<State>, i: nat, t: nat, p: nat)
    requires Run(run) && i + 1 < |run| && Init(run[0]) && t < |run[i].pc| && Shape(run[i])
    requires Step(run[i], t, run[i + 1])
    requires p < |run[i].pools| && run[i].pools[p].pc[t].RelDrop?
    ensures var c := run[i].pools[p].pc[t].c;
      && 0 <= c < |run[i].pools[p].refs| && p < |run[i + 1].pools|
      && (c in run[i + 1].pools[p].free <==> run[i].pools[p].refs[c] == 1)
  {
    RunInv(run, i);
    DropEffect(run[i], t, run[i + 1], p);
  }

  lemma DropEffect(s: State, t: nat, s': State, p: nat)
    requires Inv(s) && t < |s.pc| && Step(s, t, s') && p < |s.pools| && s.pools[p].pc[t].RelDrop?
    ensures var c := s.pools[p].pc[t].c;
      && 0 <= c < |s.pools[p].refs| && p < |s'.pools|
      && (c in s'.pools[p].free <==> s.pools[p].refs[c] == 1)
  {
    assert ThreadOk(s, t) && PoolAt(s.pc[t], p, s.pools[p].pc[t]);
    ThreadKeepsChunk(s, t, p);
    PoolStep(s, t, s', p);
    PoolDrop(s.pools[p], t, AboutPool(s.pc[t]).value.1, s'.pools[p]);
  }

  lemma PoolDrop(m: M.State, t: nat, first: M.PC, m': M.State)
    requires M.Inv(m) && t < |m.pc| && m.pc[t].RelDrop? && PoolMoves(m, t, first, m')
    requires 0 <= m.pc[t].c < m.max && m.refs[m.pc[t].c] > 0
    ensures |m.refs| == m.max && (m.pc[t].c in m'.free <==> m.refs[m.pc[t].c] == 1)
  {
    CountedAllocated(m, m.pc[t].c);
    M.DropFrees(m, m.pc[t].c);
    hide Total, M.Inv;
    assert m'.free == M.Dropped(m, m.pc[t].c).free;
  }

  // ----- Order -----

  /** Where publication `i` comes among those for queue `q`. */
  function Place(log: seq<Pub>, i: nat, q: nat): nat
    requires i <= |log|
  {
    |Delivered(log[..i], q)|
  }

  predicate Sends(pub: Pub, q: nat) { Sub(pub.e.pid, q) in pub.to }

  lemma {:induction false} DeliveredPrefix(log: seq<Pub>, i: nat, q: nat)
    requires i <= |log|
    ensures Delivered(log[..i], q) <= Delivered(log, q)
  {
    if i == |log| {
      assert log[..i] == log;
    } else {
      var init := log[..|log| - 1];
      assert init[..i] == log[..i];
      DeliveredPrefix(init, i, q);
    }
  }

  lemma DeliveredAt(log: seq<Pub>, i: nat, q: nat)
    requires i < |log| && Sends(log[i], q)
    ensures Place(log, i, q) < Place(log, i + 1, q) <= |Delivered(log, q)|
    ensures Delivered(log, q)[Place(log, i, q)] == log[i].e
  {
    assert log[..i + 1][..i] == log[..i];
    DeliveredPrefix(log, i + 1, q);
  }

  /** Each receive queue is sent the publications, in their one order, filtered by its
      subscriptions; what it has been sent is what has been popped from it and what is in it. */
  lemma GlobalOrder(run: seq<State>, i: nat, q: nat)
    requires Run(run) && i < |run| && Init(run[0]) && q < |run[i].rxqs|
    ensures var s, r := run[i], run[i].rxqs[q].impl;
      && r.pushed == SentTo(s.log, Holder(s), q) && r.pushed == r.popped + r.fifo
      && (s.mutex.None? ==> r.pushed == Delivered(s.log, q))
  {
    RunInv(run, i);
    assert Parts(run[i]) && Q.Inv(run[i].rxqs[q].impl);
  }

  /** Of the publication in progress a queue has the packet already, or not yet. */
  lemma SentPrefix(log: seq<Pub>, h: PC, q: nat)
    ensures SentTo(log, h, q) <= Delivered(log, q)
    ensures log != [] ==> |Delivered(log[..|log| - 1], q)| <= |SentTo(log, h, q)|
    ensures !Inside(h) ==> SentTo(log, h, q) == Delivered(log, q)
  {
    if log != [] && Inside(h) {
      var last := log[|log| - 1];
      var k := Sent(h, |last.to|);
      assert k < |last.to| ==> forall x :: x in last.to[..k] ==> x in last.to;
      assert Share(last.e, if k <= |last.to| then last.to[..k] else last.to, q) <= Share(last.e, last.to, q);
    }
  }

  /** Queue `q` has been sent publication `i`, and publication `j` after it if at all. */
  predicate InOrder(log: seq<Pub>, sent: seq<Entry>, i: nat, j: nat, q: nat)
    requires i < |log| && j < |log|
  {
    var a, b := Place(log, i, q), Place(log, j, q);
    a < b && a < |sent| && sent[a] == log[i].e && (b < |sent| ==> sent[b] == log[j].e)
  }

  /** So in every reachable state any two receive queues have been sent their common packets in the
      same relative order; the later of two is still to come only while it is being published. */
  lemma SameRelativeOrder(run: seq<State>, n: nat, q: nat, r: nat, i: nat, j: nat)
    requires Run(run) && n < |run| && Init(run[0]) && q < |run[n].rxqs| && r < |run[n].rxqs|
    requires i < j < |run[n].log|
    requires forall k :: k in {i, j} ==> Sends(run[n].log[k], q) && Sends(run[n].log[k], r)
    ensures var (log, a, b) := (run[n].log, run[n].rxqs[q].impl.pushed, run[n].rxqs[r].impl.pushed);
      && InOrder(log, a, i, j, q) && InOrder(log, b, i, j, r)
      && (j + 1 < |log| || !Inside(Holder(run[n])) ==> Place(log, j, q) < |a| && Place(log, j, r) < |b|)
  {
    var log, h := run[n].log, Holder(run[n]);
    GlobalOrder(run, n, q);
    GlobalOrder(run, n, r);
    hide Run, Init, Delivered, SentTo, Inside, InOrder, Sends;
    assert i in {i, j} && j in {i, j};
    SentInOrder(log, h, i, j, q);
    SentInOrder(log, h, i, j, r);
  }

  lemma SentInOrder(log: seq<Pub>, h: PC, i: nat, j: nat, q: nat)
    requires i < j < |log| && Sends(log[i], q) && Sends(log[j], q)
    ensures InOrder(log, SentTo(log, h, q), i, j, q)
    ensures j + 1 < |log| || !Inside(h) ==> Place(log, j, q) < |SentTo(log, h, q)|
  {
    hide Delivered, SentTo, Inside, Sends;
    var init := log[..|log| - 1];
    SentPrefix(log, h, q);
    Later(log, i, j, q);
    assert init[..i + 1] == log[..i + 1];
    DeliveredPrefix(init, i + 1, q);
    DeliveredAt(log, i, q);
    if j + 1 < |log| {
      assert init[..j + 1] == log[..j + 1];
      DeliveredPrefix(init, j + 1, q);
      DeliveredAt(log, j, q);
    }
  }

  lemma Later(log: seq<Pub>, i: nat, j: nat, q: nat)
    requires i < j < |log| && Sends(log[i], q) && Sends(log[j], q)
    ensures Place(log, i, q) < Place(log, j, q) < |Delivered(log, q)|
    ensures Delivered(log, q)[Place(log, i, q)] == log[i].e && Delivered(log, q)[Place(log, j, q)] == log[j].e
  {
    DeliveredAt(log, i, q);
    DeliveredAt(log, j, q);
    assert log[..j][..i + 1] == log[..i + 1];
    DeliveredPrefix(log[..j], i + 1, q);
  }
}
