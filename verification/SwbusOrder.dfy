/** The order in which publications reach the receive queues of the bus. */
module SwbusOrder {
  import opened Rbuffer
  import opened Swbus
  import opened SwbusLinks
  import opened SwbusQueues
  import L = Rdwrlock
  import M = Mpool
  import Q = Pcqueue

  /** What one publication puts in queue `q` once the subscriptions `to` are dealt with. */
  function Share(e: Entry, to: seq<Sub>, q: nat): seq<Entry> {
    if Sub(e.pid, q) in to then [e] else []
  }

  /** The publications filtered by the subscriptions of queue `q`. */
  function Delivered(log: seq<Pub>, q: nat): seq<Entry> {
    if log == [] then []
    else Delivered(log[..|log| - 1], q) + Share(log[|log| - 1].e, log[|log| - 1].to, q)
  }

  /** How many subscriptions the publication in progress has been pushed to; all if past the loop. */
  function Sent(x: PC, n: nat): nat {
    match x
    case PubLoop(_, k) => k
    case PubPush(_, k, _, added) => if added then k + 1 else k
    case PubRef(_, k, _, _) => k + 1
    case _ => n
  }

  /** What queue `q` has been sent, while the thread in the mutex is at `h`. */
  function SentTo(log: seq<Pub>, h: PC, q: nat): seq<Entry> {
    if !Inside(h) || log == [] then Delivered(log, q)
    else
      var last := log[|log| - 1];
      var k := Sent(h, |last.to|);
      Delivered(log[..|log| - 1], q) + Share(last.e, if k <= |last.to| then last.to[..k] else last.to, q)
  }

  /** The publication in progress is the last one, and sees the subscriptions as they are. */
  predicate LogOk(s: State) {
    var h := Holder(s);
    Inside(h) ==>
      && s.log != [] && s.log[|s.log| - 1].to == s.subs
      && (h.PubLoop? || h.PubPush? || h.PubRef? ==> s.log[|s.log| - 1].e == h.e)
  }

  predicate OrderOk(s: State)
    requires Shape(s)
  {
    && LogOk(s)
    && forall q :: 0 <= q < |s.rxqs| ==> s.rxqs[q].impl.pushed == SentTo(s.log, Holder(s), q)
  }

  // ----- The value that is pushed -----

  lemma EnterSends(log: seq<Pub>, e: Entry, subs: seq<Sub>, h: PC, q: nat)
    requires !Inside(h)
    ensures SentTo(log + [Pub(e, subs)], PubLoop(e, 0), q) == SentTo(log, h, q)
  {
    assert (log + [Pub(e, subs)])[..|log|] == log;
  }

  lemma ExitSends(log: seq<Pub>, h': PC, q: nat)
    requires log != [] && !Inside(h')
    ensures SentTo(log, h', q) == SentTo(log, PubExit, q)
  {
    var to := log[|log| - 1].to;
    assert to[..|to|] == to;
  }

  /** The subscription dealt with next adds to its own queue, and to no other. */
  lemma NextSends(log: seq<Pub>, h: PC, h': PC, q: nat)
    requires log != [] && Inside(h) && Inside(h')
    requires var to := log[|log| - 1].to;
      && Sent(h, |to|) < |to| && Sent(h', |to|) == Sent(h, |to|) + 1
      && forall i, j :: 0 <= i < j < |to| ==> to[i] != to[j]
    ensures var (e, to) := (log[|log| - 1].e, log[|log| - 1].to);
      SentTo(log, h', q) == SentTo(log, h, q) + if to[Sent(h, |to|)] == Sub(e.pid, q) then [e] else []
  {
    var to := log[|log| - 1].to;
    var k := Sent(h, |to|);
    assert to[..k + 1] == to[..k] + [to[k]];
    assert to[k] !in to[..k];
  }

  // ----- Steps -----

  /** What a step pushes, and where. */
  function Pushes(s: State, t: nat, q: nat): seq<Entry>
    requires Shape(s) && t < |s.pc|
  {
    if q < |s.rxqs| && s.pc[t].PubPush? && s.pc[t].q == q && s.rxqs[q].impl.pc[t].PushAdd? then [s.pc[t].e] else []
  }

  lemma PushedBy(s: State, t: nat, s': State, q: nat)
    requires Linked(s) && t < |s.pc| && Step(s, t, s') && Frame(s, t, s') && q < |s.rxqs|
    ensures q < |s'.rxqs| && s'.rxqs[q].impl.pushed == s.rxqs[q].impl.pushed + Pushes(s, t, q)
  {
    hide Linked, ThreadOk, QueueAt, Step, Frame, Q.Inv;
    QueueLinked(s, t, q);
    FrameShape(s, t, s');
    var x := s.pc[t];
    if (x.PubPush? || x.RxPeek? || x.RxPop?) && x.q == q {
      QueueStep(s, t, s', q);
    } else {
      QueueStays(s, t, s', q);
    }
  }

  lemma QueueLinked(s: State, t: nat, q: nat)
    requires Linked(s) && t < |s.pc| && q < |s.rxqs|
    ensures Shape(s) && ThreadOk(s, t) && QueueAt(s.pc[t], q, s.rxqs[q].impl.pc[t]) && Q.Inv(s.rxqs[q].impl)
  {
    hide LockAt, PoolAt, QueueAt, Pools, SubsOk, Q.Inv, L.Inv;
    assert ThreadOk(s, t);
  }

  lemma QueueStays(s: State, t: nat, s': State, q: nat)
    requires Shape(s) && t < |s.pc| && Step(s, t, s') && q < |s.rxqs|
    requires var x := s.pc[t]; !((x.PubPush? || x.RxPeek? || x.RxPop?) && x.q == q)
    ensures q < |s'.rxqs| && s'.rxqs[q] == s.rxqs[q]
  {
    hide L.Step, M.Step, Q.Step, PoolMoves, QueueMoves, LockMoves;
  }

  lemma QueueStep(s: State, t: nat, s': State, q: nat)
    requires Shape(s) && t < |s.pc| && Step(s, t, s') && q < |s.rxqs| && Q.Inv(s.rxqs[q].impl)
    requires var x := s.pc[t]; (x.PubPush? || x.RxPeek? || x.RxPop?) && x.q == q && QueueAt(x, q, s.rxqs[q].impl.pc[t])
    ensures q < |s'.rxqs| && s'.rxqs[q].impl.pushed == s.rxqs[q].impl.pushed + Pushes(s, t, q)
  {
    var x := s.pc[t];
    hide L.Step, M.Step, PoolMoves, LockMoves, Q.Inv, Q.Step;
    if x.PubPush? {
      FifoMoves(s.rxqs[q].impl, t, Q.PushWait(x.e), s'.rxqs[q].impl);
    } else if x.RxPop? {
      FifoMoves(s.rxqs[q].impl, t, Q.PopWait(false), s'.rxqs[q].impl);
    } else {
      var timed := !QueueMoves(s.rxqs[q].impl, t, Q.PeekWait(false), s'.rxqs[q].impl);
      FifoMoves(s.rxqs[q].impl, t, Q.PeekWait(timed), s'.rxqs[q].impl);
    }
  }

  /** A thread outside the mutex publishes nothing. */
  lemma BystanderSends(s: State, t: nat, s': State, q: nat)
    requires Shape(s) && t < |s.pc| && ThreadOk(s, t) && Step(s, t, s') && Frame(s, t, s')
    requires !HasMutex(s.pc[t]) && LogOk(s)
    ensures SentTo(s'.log, Holder(s'), q) == SentTo(s.log, Holder(s), q) && Pushes(s, t, q) == [] && LogOk(s')
  {
    hide LockAt, PoolAt, QueueAt, L.Step, M.Step, Q.Step, PoolMoves, QueueMoves, LockMoves, Delivered, Sent;
    assert s'.log == s.log && s'.subs == s.subs;
    if s'.mutex == s.mutex {
      assert Holder(s') == Holder(s);
    } else {
      assert !Inside(Holder(s)) && !Inside(Holder(s'));
    }
  }

  /** The holder of the mutex outside the loop over the subscriptions. */
  lemma HolderSends(s: State, t: nat, s': State, q: nat)
    requires Shape(s) && t < |s.pc| && ThreadOk(s, t) && Frame(s, t, s')
    requires MutexStep(s, t, s') || LockStep(s, t, s')
    requires HasMutex(s.pc[t]) && LogOk(s)
    ensures SentTo(s'.log, Holder(s'), q) == SentTo(s.log, Holder(s), q) && Pushes(s, t, q) == [] && LogOk(s')
  {
    hide LockAt, PoolAt, QueueAt, L.Step, Delivered, Share;
    var x, x' := s.pc[t], s'.pc[t];
    assert Holder(s) == x;
    if x.PubEnter? && x'.PubLoop? {
      EnterSends(s.log, x.e, s.subs, x, q);
    } else if x.PubExit? {
      ExitSends(s.log, x', q);
    } else {
      assert s'.log == s.log;
    }
  }

  /** The holder inside the loop, or past it. */
  predicate LoopMoves(s: State, t: nat, s': State)
    requires Shape(s) && t < |s.pc|
  {
    t < |s'.pc|
    && var x, x', n := s.pc[t], s'.pc[t], |s.subs|;
    && Holder(s) == x && Holder(s') == x' && Inside(x) && Inside(x') && s'.log == s.log && s'.subs == s.subs
    && (x'.PubLoop? || x'.PubPush? || x'.PubRef? ==> (x.PubLoop? || x.PubPush? || x.PubRef?) && x'.e == x.e)
    && (Sent(x', n) == Sent(x, n)
        || (Sent(x, n) < n && Sent(x', n) == Sent(x, n) + 1 && (x.PubLoop? || x.PubPush?)))
  }

  lemma LoopPush(s: State, t: nat, s': State)
    requires Shape(s) && t < |s.pc| && ThreadOk(s, t) && Parts(s) && NotifyStep(s, t, s') && Frame(s, t, s')
    requires s.pc[t].PubPush?
    ensures LoopMoves(s, t, s')
    ensures Sent(s'.pc[t], |s.subs|) == Sent(s.pc[t], |s.subs|) <==> !s.rxqs[s.pc[t].q].impl.pc[t].PushAdd?
    ensures s.rxqs[s.pc[t].q].impl.pc[t].PushAdd? ==> !s.pc[t].added
  {
    var x := s.pc[t];
    PushMoves(s.rxqs[x.q].impl, t, x.e, s'.rxqs[x.q].impl);
    FifoMoves(s.rxqs[x.q].impl, t, Q.PushWait(x.e), s'.rxqs[x.q].impl);
    hide LockAt, PoolAt, L.Step, M.Step, Q.Step, PoolMoves, QueueMoves, LockMoves, Parts;
  }

  lemma LoopStep(s: State, t: nat, s': State)
    requires Shape(s) && t < |s.pc| && ThreadOk(s, t) && Parts(s) && NotifyStep(s, t, s') && Frame(s, t, s')
    ensures LoopMoves(s, t, s')
    ensures var x, x', n := s.pc[t], s'.pc[t], |s.subs|;
      if Sent(x', n) == Sent(x, n) then !(x.PubPush? && s.rxqs[x.q].impl.pc[t].PushAdd?)
      else if x.PubLoop? then s.subs[x.k].pid != x.e.pid
      else x.PubPush? && s.rxqs[x.q].impl.pc[t].PushAdd? && !x.added
  {
    hide LockAt, PoolAt, QueueAt, L.Step, M.Step, Q.Step, PoolMoves, QueueMoves, LockMoves, Parts;
    if s.pc[t].PubPush? { LoopPush(s, t, s'); }
  }

  lemma LoopSends(s: State, t: nat, s': State, q: nat)
    requires Shape(s) && t < |s.pc| && ThreadOk(s, t) && Parts(s) && SubsOk(s) && NotifyStep(s, t, s')
    requires Frame(s, t, s')
    requires LogOk(s)
    ensures SentTo(s'.log, Holder(s'), q) == SentTo(s.log, Holder(s), q) + Pushes(s, t, q) && LogOk(s')
  {
    hide LockAt, PoolAt, QueueAt, NotifyStep, Frame, Parts, Delivered, Share;
    LoopStep(s, t, s');
    var x, x', n := s.pc[t], s'.pc[t], |s.subs|;
    if Sent(x', n) != Sent(x, n) {
      NextSends(s.log, x, x', q);
    }
  }

  lemma OrderKept(s: State, t: nat, s': State)
    requires Linked(s) && t < |s.pc| && Step(s, t, s') && Frame(s, t, s') && OrderOk(s)
    ensures Shape(s') && OrderOk(s')
  {
    assert ThreadOk(s, t);
    FrameShape(s, t, s');
    SendsBy(s, t, s', 0);
    forall q | 0 <= q < |s.rxqs| ensures s'.rxqs[q].impl.pushed == SentTo(s'.log, Holder(s'), q) {
      PushedBy(s, t, s', q);
      SendsBy(s, t, s', q);
      hide *;
    }
  }

  lemma HolderStep(s: State, t: nat, s': State)
    requires Shape(s) && t < |s.pc| && Step(s, t, s') && HasMutex(s.pc[t]) && !NotifyStep(s, t, s')
    ensures MutexStep(s, t, s') || LockStep(s, t, s')
  {
    hide MutexStep, LockStep, NotifyStep;
  }

  lemma SendsBy(s: State, t: nat, s': State, q: nat)
    requires Linked(s) && t < |s.pc| && Step(s, t, s') && Frame(s, t, s') && LogOk(s)
    ensures SentTo(s'.log, Holder(s'), q) == SentTo(s.log, Holder(s), q) + Pushes(s, t, q) && LogOk(s')
  {
    assert Shape(s) && ThreadOk(s, t) && Parts(s) && SubsOk(s);
    if !HasMutex(s.pc[t]) {
      BystanderSends(s, t, s', q);
    } else {
      hide ThreadOk, Linked, Frame, SentTo, Pushes, LogOk, NotifyStep, MutexStep, LockStep;
      if NotifyStep(s, t, s') {
        LoopSends(s, t, s', q);
      } else {
        HolderStep(s, t, s');
        HolderSends(s, t, s', q);
      }
    }
  }
}
