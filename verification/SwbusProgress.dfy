/** When a thread on the bus of `src/swbus/swbus.c` can go on: nothing holds it up but a mutex or a
    semaphore that is not there to take. */
module SwbusProgress {
  import opened Rbuffer
  import opened Swbus
  import opened SwbusLinks
  import L = Rdwrlock
  import M = Mpool
  import MC = MpoolCalls
  import Q = Pcqueue
  import QC = PcqueueCalls

  predicate PoolReady(m: M.State, t: nat)
    requires t < |m.pc|
  {
    m.pc[t].Idle? || MC.Ready(m, t)
  }

  predicate QueueReady(q: Q.State<Entry>, t: nat)
    requires t < |q.pc|
  {
    q.pc[t].Idle? || QC.Ready(q, t)
  }

  /** The pool a thread is in a call of, and the call. */
  function PoolCall(x: PC): Option<(nat, M.PC)> {
    match x
    case RsvReq(i, _, _) => Some((i, M.ReqWait(false)))
    case PubRef(e, _, _, _) => Some((e.bp, M.RefLock(e.data, 1)))
    case PubRel(e, _) => Some((e.bp, M.RelQuery(e.data)))
    case RxRel(_, e, _) => Some((e.bp, M.RelQuery(e.data)))
    case _ => None
  }

  /** The same for queues, where a wait may be timed, and for the lock. */
  function QueueCall(x: PC): Option<(nat, Q.PC<Entry>)> {
    match x
    case PubPush(e, _, q, _) => Some((q, Q.PushWait(e)))
    case RxPop(q, _, _) => Some((q, Q.PopWait(false)))
    case RxPeek(q) => Some((q, Q.PeekWait(false)))
    case _ => None
  }

  function LockCall(x: PC): Option<L.PC> {
    match x
    case PubEnter(_) => Some(L.WOrder)
    case RxEnter(_, _) => Some(L.ROrder(false))
    case PubExit => Some(L.Idle)
    case RxExit(_, _) => Some(L.Idle)
    case _ => None
  }

  /** What the thread waits for is there. */
  predicate Ready(s: State, t: nat)
    requires Shape(s) && t < |s.pc|
  {
    var x := s.pc[t];
    if PoolCall(x).Some? then
      PoolCall(x).value.0 < |s.pools| && PoolReady(s.pools[PoolCall(x).value.0], t)
    else if QueueCall(x).Some? then
      QueueCall(x).value.0 < |s.rxqs| && QueueReady(s.rxqs[QueueCall(x).value.0].impl, t)
    else if LockCall(x).Some? then L.Ready(s.lock, t)
    else x.PubMutex? || x.SubMutex? ==> s.mutex.None?
  }

  /** A consumer in a timed wait may go on without. */
  predicate Timed(s: State, t: nat)
    requires Shape(s) && t < |s.pc|
  {
    s.pc[t].RxPeek? && s.pc[t].q < |s.rxqs| && s.rxqs[s.pc[t].q].impl.pc[t] == Q.PeekWait(true)
  }

  // ----- Going on -----

  lemma PoolGoes(m: M.State, t: nat, first: M.PC) returns (m': M.State)
    requires t < |m.pc| && PoolReady(m, t)
    ensures PoolMoves(m, t, first, m')
  {
    if m.pc[t].Idle? {
      m' := M.Goto(m, t, first);
    } else {
      m' := MC.After(m, t);
      MC.AfterSteps(m, t);
    }
  }

  lemma QueueGoes(q: Q.State<Entry>, t: nat, first: Q.PC<Entry>) returns (q': Q.State<Entry>)
    requires t < |q.pc| && QueueReady(q, t)
    ensures QueueMoves(q, t, first, q')
  {
    if q.pc[t].Idle? {
      q' := Q.Goto(q, t, first);
    } else {
      q' := QC.After(q, t);
      QC.AfterSteps(q, t);
    }
  }

  lemma LockGoes(l: L.State, t: nat, first: L.PC) returns (l': L.State)
    requires t < |l.pc| && L.Ready(l, t)
    requires l.pc[t].Idle? ==> first == L.WOrder || first == L.ROrder(false)
    ensures LockMoves(l, t, first, l')
  {
    if l.pc[t].Idle? {
      l' := L.Goto(l, t, first);
    } else {
      l' := L.After(l, t);
      L.AfterSteps(l, t);
    }
  }

  lemma PoolStep(s: State, t: nat, m: M.State) returns (s': State)
    requires Shape(s) && t < |s.pc| && PoolCall(s.pc[t]).Some? && PoolCall(s.pc[t]).value.0 < |s.pools|
    requires PoolMoves(s.pools[PoolCall(s.pc[t]).value.0], t, PoolCall(s.pc[t]).value.1, m)
    ensures Step(s, t, s')
  {
    hide PoolMoves, M.Step, MutexStep, LockStep;
    PoolMovesAt(s.pools[PoolCall(s.pc[t]).value.0], t, PoolCall(s.pc[t]).value.1, m);
    var y := m.pc[t];
    match s.pc[t]
    case RsvReq(i, size, got) =>
      s' := Goto(WithPool(s, i, m), t,
        if y.Idle? && got.Some? then Reserved(i, got.value, size)
        else RsvReq(i, size, if y.ReqUnlock? then Some(y.got) else None));
      assert ReserveStep(s, t, s');
    case PubRef(e, k, q, counted) =>
      s' := Goto(WithPool(s, e.bp, m), t, if y.Idle? then PubLoop(e, k + 1) else PubRef(e, k, q, y.RefUnlock? && y.ok));
      assert NotifyStep(s, t, s');
    case PubRel(e, dropped) =>
      s' := Goto(WithPool(s, e.bp, m), t, if y.Idle? then PubExit else PubRel(e, y.RelPost? || y.RelUnlock?));
      assert NotifyStep(s, t, s');
    case RxRel(q, e, dropped) =>
      s' := Goto(WithPool(s, e.bp, m), t,
        if y.Idle? then (if dropped then RxPop(q, e, false) else Idle) else RxRel(q, e, y.RelPost? || y.RelUnlock?));
      assert ConsumeStep(s, t, s');
  }

  lemma PoolMovesAt(m: M.State, t: nat, first: M.PC, m': M.State)
    requires t < |m.pc| && PoolMoves(m, t, first, m')
    ensures t < |m'.pc|
  {
  }

  lemma QueueStep(s: State, t: nat, q': Q.State<Entry>) returns (s': State)
    requires Shape(s) && t < |s.pc| && QueueCall(s.pc[t]).Some? && QueueCall(s.pc[t]).value.0 < |s.rxqs|
    requires QueueMoves(s.rxqs[QueueCall(s.pc[t]).value.0].impl, t, QueueCall(s.pc[t]).value.1, q')
    ensures Step(s, t, s')
  {
    hide QueueMoves, Q.Step, MutexStep, LockStep, ReserveStep;
    QueueMovesAt(s.rxqs[QueueCall(s.pc[t]).value.0].impl, t, QueueCall(s.pc[t]).value.1, q');
    var y := q'.pc[t];
    match s.pc[t]
    case PubPush(e, k, q, added) =>
      s' := Goto(WithQueue(s, q, q'), t,
        if y.Idle? then (if added then PubRef(e, k, q, false) else PubLoop(e, k + 1))
        else PubPush(e, k, q, (y.PushUnlock? && y.ok) || y.PushPost?));
      assert NotifyStep(s, t, s');
    case RxPop(q, e, taken) =>
      s' := Goto(WithQueue(s, q, q'), t, if y.Idle? then Idle else RxPop(q, e, y.PopUnlock? || y.PopPost?));
      assert ConsumeStep(s, t, s');
    case RxPeek(q) =>
      var x := s.rxqs[q].impl.pc[t];
      s' := Goto(WithQueue(s, q, q'), t,
        if !y.Idle? then RxPeek(q) else if x.PeekPost? && x.seen.Some? then RxEnter(q, x.seen.value) else Idle);
      assert ConsumeStep(s, t, s');
  }

  lemma QueueMovesAt(q: Q.State<Entry>, t: nat, first: Q.PC<Entry>, q': Q.State<Entry>)
    requires t < |q.pc| && QueueMoves(q, t, first, q')
    ensures t < |q'.pc|
  {
  }

  lemma LockStepOf(s: State, t: nat, l: L.State) returns (s': State)
    requires Shape(s) && t < |s.pc| && LockCall(s.pc[t]).Some? && LockMoves(s.lock, t, LockCall(s.pc[t]).value, l)
    ensures Step(s, t, s')
  {
    hide LockMoves, L.Step, MutexStep, ReserveStep, NotifyStep, ConsumeStep;
    LockMovesAt(s.lock, t, LockCall(s.pc[t]).value, l);
    match s.pc[t]
    case PubEnter(e) =>
      var inside := l.pc[t].Writing?;
      s' := Goto(s, t, if inside then PubLoop(e, 0) else PubEnter(e))
        .(lock := l, log := if inside then s.log + [Pub(e, s.subs)] else s.log);
    case PubExit => s' := Goto(s, t, PubUnlock).(lock := l);
    case RxEnter(q, e) => s' := Goto(s, t, if l.pc[t].Reading? then RxExit(q, e) else RxEnter(q, e)).(lock := l);
    case RxExit(q, e) => s' := Goto(s, t, if l.pc[t].Idle? then RxHave(q, e) else RxExit(q, e)).(lock := l);
    assert LockStep(s, t, s');
  }

  lemma LockMovesAt(l: L.State, t: nat, first: L.PC, l': L.State)
    requires t < |l.pc| && LockMoves(l, t, first, l')
    ensures t < |l'.pc|
  {
  }

  lemma PlainStep(s: State, t: nat) returns (s': State)
    requires Shape(s) && t < |s.pc| && Ready(s, t)
    requires PoolCall(s.pc[t]).None? && QueueCall(s.pc[t]).None? && LockCall(s.pc[t]).None?
    ensures Step(s, t, s')
  {
    match s.pc[t]
    case Idle => s' := Goto(s, t, Rsv(0, 1));
    case Rsv(i, size) =>
      s' := Goto(s, t,
        if i >= |s.pools| then Idle
        else if s.eltSize[i] < size || |s.pools[i].alloc| == s.pools[i].max then Rsv(i + 1, size)
        else RsvReq(i, size, None));
    case Reserved(bp, data, size) => s' := Goto(s, t, PubMutex(Entry(bp, data, size, 0)));
    case PubMutex(e) => s' := Goto(s, t, PubEnter(e)).(mutex := Some(t));
    case PubLoop(e, k) =>
      s' := Goto(s, t,
        if k >= |s.subs| then PubRel(e, false)
        else if s.subs[k].pid == e.pid then PubPush(e, k, s.subs[k].queue, false) else PubLoop(e, k + 1));
    case PubUnlock => s' := Goto(s, t, Idle).(mutex := None);
    case SubMutex(sub, add) => s' := Goto(s, t, SubChange(sub, add)).(mutex := Some(t));
    case SubChange(sub, add) => s' := Goto(s, t, SubUnlock).(subs := Changed(s, sub, add));
    case SubUnlock => s' := Goto(s, t, Idle).(mutex := None);
    case RxHave(q, e) => s' := Goto(s, t, RxRel(q, e, false));
  }

  // ----- And only then -----

  lemma PoolWaited(m: M.State, t: nat, first: M.PC, m': M.State)
    requires t < |m.pc| && PoolMoves(m, t, first, m') && m.pc[t] != M.ReqWait(true)
    ensures PoolReady(m, t)
  {
    if !m.pc[t].Idle? { MC.ProceedReady(m, t, m'); }
  }

  lemma QueueWaited(q: Q.State<Entry>, t: nat, first: Q.PC<Entry>, q': Q.State<Entry>)
    requires t < |q.pc| && QueueMoves(q, t, first, q') && q.pc[t] != Q.PopWait(true)
    ensures QueueReady(q, t) || q.pc[t] == Q.PeekWait(true)
  {
    if !q.pc[t].Idle? { QC.ProceedReady(q, t, q'); }
  }

  lemma LockWaited(l: L.State, t: nat, first: L.PC, l': L.State)
    requires t < |l.pc| && LockMoves(l, t, first, l') && !L.Timed(l.pc[t])
    ensures L.Ready(l, t)
  {
    L.StepReady(l, t, l');
  }

  /** A call into a part is a move of that part. */
  lemma PartMoves(s: State, t: nat, s': State)
    requires Shape(s) && t < |s.pc| && Step(s, t, s')
    ensures PoolCall(s.pc[t]).Some? ==>
      var (p, first) := PoolCall(s.pc[t]).value;
      p < |s.pools| == |s'.pools| && PoolMoves(s.pools[p], t, first, s'.pools[p])
    ensures LockCall(s.pc[t]).Some? ==> LockMoves(s.lock, t, LockCall(s.pc[t]).value, s'.lock)
    ensures PoolCall(s.pc[t]).None? && QueueCall(s.pc[t]).None? && LockCall(s.pc[t]).None? ==> Ready(s, t)
  {
    hide L.Step, M.Step, Q.Step, LockMoves, PoolMoves, QueueMoves, Changed;
  }

  lemma PartQueues(s: State, t: nat, s': State) returns (first: Q.PC<Entry>)
    requires Shape(s) && t < |s.pc| && Step(s, t, s') && QueueCall(s.pc[t]).Some?
    ensures var q := QueueCall(s.pc[t]).value.0;
      q < |s.rxqs| == |s'.rxqs| && QueueMoves(s.rxqs[q].impl, t, first, s'.rxqs[q].impl)
  {
    hide L.Step, M.Step, Q.Step, LockMoves, PoolMoves, QueueMoves, Changed;
    var x := s.pc[t];
    first := QueueCall(x).value.1;
    if x.RxPeek? && x.q < |s.rxqs| && x.q < |s'.rxqs|
      && !QueueMoves(s.rxqs[x.q].impl, t, first, s'.rxqs[x.q].impl)
    {
      first := Q.PeekWait(true);
    }
  }

  /** Nobody on the bus makes a timed request but consumers that wait. */
  lemma Untimed(s: State, t: nat)
    requires Linked(s) && t < |s.pc|
    ensures !L.Timed(s.lock.pc[t])
    ensures forall p :: 0 <= p < |s.pools| ==> s.pools[p].pc[t] != M.ReqWait(true)
    ensures forall q :: 0 <= q < |s.rxqs| ==> s.rxqs[q].impl.pc[t] != Q.PopWait(true)
  {
    hide Parts, Pools, SubsOk;
    assert ThreadOk(s, t);
  }

  lemma CanStep(s: State, t: nat) returns (s': State)
    requires Linked(s) && t < |s.pc| && (Ready(s, t) || Timed(s, t))
    ensures Step(s, t, s')
  {
    LinkedParts(s, t);
    hide Linked, Step, PoolMoves, QueueMoves, LockMoves, PoolReady, QueueReady, L.Ready, ThreadOk;
    var x := s.pc[t];
    if Timed(s, t) {
      s' := TimedStep(s, t);
    } else if PoolCall(x).Some? {
      var m := PoolGoes(s.pools[PoolCall(x).value.0], t, PoolCall(x).value.1);
      s' := PoolStep(s, t, m);
    } else if QueueCall(x).Some? {
      var q := QueueGoes(s.rxqs[QueueCall(x).value.0].impl, t, QueueCall(x).value.1);
      s' := QueueStep(s, t, q);
    } else if LockCall(x).Some? {
      var l := LockGoes(s.lock, t, LockCall(x).value);
      s' := LockStepOf(s, t, l);
    } else {
      s' := PlainStep(s, t);
    }
  }

  lemma LinkedParts(s: State, t: nat)
    requires Linked(s) && t < |s.pc|
    ensures Shape(s) && (s.pc[t].PubExit? || s.pc[t].RxExit? ==> !s.lock.pc[t].Idle?)
  {
    hide Parts, Pools, SubsOk, PoolAt, QueueAt;
    assert ThreadOk(s, t);
  }

  lemma TimedStep(s: State, t: nat) returns (s': State)
    requires Shape(s) && t < |s.pc| && Timed(s, t)
    ensures Step(s, t, s') && s'.pc[t].Idle?
  {
    var q := s.pc[t].q;
    var impl := Q.Goto(s.rxqs[q].impl, t, Q.Idle);
    assert QueueMoves(s.rxqs[q].impl, t, Q.PeekWait(false), impl);
    s' := Goto(WithQueue(s, q, impl), t, Idle);
    hide QueueMoves, MutexStep, LockStep, ReserveStep, NotifyStep;
    assert ConsumeStep(s, t, s');
  }

  lemma SteppedWhen(s: State, t: nat, s': State)
    requires Linked(s) && t < |s.pc| && Step(s, t, s')
    ensures Ready(s, t) || Timed(s, t)
  {
    LinkedParts(s, t);
    Untimed(s, t);
    hide Linked, Step, PoolMoves, QueueMoves, LockMoves, PoolReady, QueueReady, L.Ready, L.Timed;
    PartMoves(s, t, s');
    var x := s.pc[t];
    if PoolCall(x).Some? {
      var (p, first) := PoolCall(x).value;
      PoolWaited(s.pools[p], t, first, s'.pools[p]);
    } else if QueueCall(x).Some? {
      var first := PartQueues(s, t, s');
      var q := QueueCall(x).value.0;
      QueueWaited(s.rxqs[q].impl, t, first, s'.rxqs[q].impl);
      if s.rxqs[q].impl.pc[t] == Q.PeekWait(true) { TimedIsPeek(s, t, q); }
    } else if LockCall(x).Some? {
      LockWaited(s.lock, t, LockCall(x).value, s'.lock);
    }
  }

  lemma TimedIsPeek(s: State, t: nat, q: nat)
    requires Linked(s) && t < |s.pc| && q < |s.rxqs| && s.rxqs[q].impl.pc[t] == Q.PeekWait(true)
    ensures Timed(s, t)
  {
    hide Parts, Pools, SubsOk, LockAt, PoolAt;
    assert ThreadOk(s, t);
  }

  /** A thread can take a step exactly when the mutex, semaphore or lock it is at is there to take, or
      it is a consumer whose wait may time out. */
  lemma StepsExactlyWhen(s: State, t: nat)
    requires Linked(s) && t < |s.pc|
    ensures (exists s' :: Step(s, t, s')) <==> Ready(s, t) || Timed(s, t)
  {
    LinkedParts(s, t);
    hide Linked, Step, Ready, Timed;
    if Ready(s, t) || Timed(s, t) { var s' := CanStep(s, t); }
    if s' :| Step(s, t, s') { SteppedWhen(s, t, s'); }
  }
}
