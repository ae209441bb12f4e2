/** Where a thread stands on the bus says where it stands in the lock, the pools and the queues;
    and these keep their own invariants, because the bus keeps what their callers owe. */
module SwbusLinks {
  import opened Rbuffer
  import opened Swbus
  import L = Rdwrlock
  import M = Mpool
  import Q = Pcqueue

  // ----- One thread -----

  /** Between taking and giving back the mutex of the bus. */
  predicate HasMutex(x: PC) {
    x.PubEnter? || x.PubLoop? || x.PubPush? || x.PubRef? || x.PubRel? || x.PubExit? || x.PubUnlock?
    || x.SubChange? || x.SubUnlock?
  }

  /** Publishing as the lock's writer. */
  predicate Inside(x: PC) {
    x.PubLoop? || x.PubPush? || x.PubRef? || x.PubRel? || x.PubExit?
  }

  predicate LockAt(x: PC, l: L.PC) {
    if x.PubEnter? then l.Idle? || l.WOrder? || l.WAccess? || l.WPost?
    else if Inside(x) then l.Writing?
    else if x.RxEnter? then
      l.Idle? || l == L.ROrder(false) || l == L.RRead(false) || l == L.RTest(false) || l == L.RAccess(false)
      || l == L.RIncrement(false) || l == L.RPostOrder(true) || l == L.RPostRead(true)
    else if x.RxExit? then
      l.Reading? || l.XRead? || l.XDecrement? || l.XTest? || l.XPostAccess? || l.XPostRead?
    else l.Idle?
  }

  predicate ReleaseAt(data: nat, dropped: bool, m: M.PC) {
    if dropped then m.RelPost? || m.RelUnlock?
    else m.Idle? || m == M.RelQuery(data) || m == M.RelLock(data) || m == M.RelDrop(data)
  }

  predicate PoolAt(x: PC, p: nat, m: M.PC) {
    match x
    case RsvReq(i, _, got) =>
      if p != i then m.Idle? else if got.Some? then m == M.ReqUnlock(got.value)
      else m.Idle? || m == M.ReqWait(false) || m.ReqLock? || m.ReqTake?
    case PubRef(e, _, _, counted) =>
      if p != e.bp then m.Idle? else if counted then m == M.RefUnlock(true)
      else m.Idle? || m == M.RefLock(e.data, 1) || m == M.RefChange(e.data, 1)
    case PubRel(e, dropped) => if p != e.bp then m.Idle? else ReleaseAt(e.data, dropped, m)
    case RxRel(_, e, dropped) => if p != e.bp then m.Idle? else ReleaseAt(e.data, dropped, m)
    case _ => m.Idle?
  }

  predicate QueueAt(x: PC, q: nat, y: Q.PC<Entry>) {
    match x
    case PubPush(e, _, q', added) =>
      if q != q' then y.Idle? else if added then y == Q.PushUnlock(true) || y.PushPost?
      else y.Idle? || y == Q.PushWait(e) || y == Q.PushLock(e) || y == Q.PushAdd(e)
    case RxPeek(q') =>
      if q != q' then y.Idle? else y.Idle? || y.PeekWait? || y.PeekLock? || y.PeekLook? || y.PeekUnlock? || y.PeekPost?
    case RxPop(q', _, taken) =>
      if q != q' then y.Idle? else if taken then (y.PopUnlock? && y.got.Some?) || y.PopPost?
      else y.Idle? || y == Q.PopWait(false) || y == Q.PopLock(false) || y == Q.PopTake(false)
    case _ => y.Idle?
  }

  /** The chunk a publisher has reserved, its own reference included in the count. */
  function Held(x: PC): Option<(nat, nat)> {
    match x
    case RsvReq(i, _, got) => if got.Some? then Some((i, got.value)) else None
    case Reserved(bp, data, _) => Some((bp, data))
    case PubMutex(e) => Some((e.bp, e.data))
    case PubEnter(e) => Some((e.bp, e.data))
    case PubLoop(e, _) => Some((e.bp, e.data))
    case PubPush(e, _, _, _) => Some((e.bp, e.data))
    case PubRef(e, _, _, _) => Some((e.bp, e.data))
    case PubRel(e, dropped) => if dropped then None else Some((e.bp, e.data))
    case _ => None
  }

  /** The queue a consumer is at, and the entry at its front that it has looked at. */
  function Front(x: PC): Option<(nat, Entry)> {
    match x
    case RxEnter(q, e) => Some((q, e))
    case RxExit(q, e) => Some((q, e))
    case RxHave(q, e) => Some((q, e))
    case RxRel(q, e, _) => Some((q, e))
    case RxPop(q, e, taken) => if taken then None else Some((q, e))
    case _ => None
  }

  predicate IsChunk(s: State, bp: nat, data: nat) {
    bp < |s.pools| && data < s.pools[bp].max
  }

  predicate ThreadOk(s: State, t: nat)
    requires Shape(s) && t < |s.pc|
  {
    var x := s.pc[t];
    && LockAt(x, s.lock.pc[t])
    && (forall p :: 0 <= p < |s.pools| ==> PoolAt(x, p, s.pools[p].pc[t]))
    && (forall q :: 0 <= q < |s.rxqs| ==> QueueAt(x, q, s.rxqs[q].impl.pc[t]))
    && (HasMutex(x) <==> s.mutex == Some(t))
    && (Held(x).Some? ==> IsChunk(s, Held(x).value.0, Held(x).value.1))
    && (Front(x).Some? ==> Front(x).value.0 < |s.rxqs| && s.rxqs[Front(x).value.0].consumer == t)
    && (x.RxPeek? || x.RxPop? ==> x.q < |s.rxqs| && s.rxqs[x.q].consumer == t)
    && (x.PubPush? || x.PubRef? ==> x.q < |s.rxqs| && x.k < |s.subs| && s.subs[x.k] == Sub(x.e.pid, x.q))
    && (x.PubLoop? ==> x.k <= |s.subs|)
    && (x.RsvReq? ==> x.i < |s.pools|) && (x.PubRel? ==> x.e.bp < |s.pools|)
    && (x.SubMutex? || x.SubChange? ==> x.sub.queue < |s.rxqs|)
  }

  predicate Parts(s: State) {
    && L.Inv(s.lock)
    && forall q :: 0 <= q < |s.rxqs| ==> Q.Inv(s.rxqs[q].impl)
  }

  ghost predicate Pools(s: State) {
    forall p :: 0 <= p < |s.pools| ==> M.Inv(s.pools[p])
  }

  predicate SubsOk(s: State) {
    && (forall i :: 0 <= i < |s.subs| ==> s.subs[i].queue < |s.rxqs|)
    && forall i, j :: 0 <= i < j < |s.subs| ==> s.subs[i] != s.subs[j]
  }

  ghost predicate Linked(s: State) {
    && Shape(s) && Parts(s) && Pools(s) && SubsOk(s)
    && forall t :: 0 <= t < |s.pc| ==> ThreadOk(s, t)
  }

  // ----- The other threads -----

  /** Only thread `t` moves, and the mutex protects the subscriptions. */
  predicate Frame(s: State, t: nat, s': State)
    requires Shape(s) && t < |s.pc|
  {
    && Shape(s') && |s'.pc| == |s.pc| && |s'.pools| == |s.pools| && |s'.rxqs| == |s.rxqs|
    && s'.pc == s.pc[t := s'.pc[t]] && s'.lock.pc == s.lock.pc[t := s'.lock.pc[t]]
    && (forall p :: 0 <= p < |s.pools| ==>
          s'.pools[p].pc == s.pools[p].pc[t := s'.pools[p].pc[t]] && s'.pools[p].max == s.pools[p].max)
    && (forall q :: 0 <= q < |s.rxqs| ==>
          && s'.rxqs[q].impl.pc == s.rxqs[q].impl.pc[t := s'.rxqs[q].impl.pc[t]]
          && s'.rxqs[q].consumer == s.rxqs[q].consumer)
    && (s'.mutex == s.mutex || (s.mutex.None? && s'.mutex == Some(t)) || (s.mutex == Some(t) && s'.mutex.None?))
    && (s'.subs == s.subs || s.mutex == Some(t))
  }

  lemma OtherOk(s: State, t: nat, s': State, u: nat)
    requires Shape(s) && t < |s.pc| && u < |s.pc| && u != t && ThreadOk(s, u) && Frame(s, t, s')
    ensures ThreadOk(s', u)
  {
    hide LockAt, PoolAt, QueueAt;
  }

  lemma PoolFrame(s: State, t: nat, p: nat, m: M.State, x: PC)
    requires Shape(s) && t < |s.pc| && p < |s.pools|
    requires |m.pc| == |s.pc| && m.pc == s.pools[p].pc[t := m.pc[t]] && m.max == s.pools[p].max
    ensures Frame(s, t, Goto(WithPool(s, p, m), t, x))
  {
  }

  lemma QueueFrame(s: State, t: nat, q: nat, impl: Q.State<Entry>, x: PC)
    requires Shape(s) && t < |s.pc| && q < |s.rxqs|
    requires |impl.pc| == |s.pc| && impl.pc == s.rxqs[q].impl.pc[t := impl.pc[t]]
    ensures Frame(s, t, Goto(WithQueue(s, q, impl), t, x))
  {
  }

  lemma PoolMovesOne(m: M.State, t: nat, first: M.PC, m': M.State)
    requires t < |m.pc| && PoolMoves(m, t, first, m')
    ensures |m'.pc| == |m.pc| && m'.pc == m.pc[t := m'.pc[t]] && m'.max == m.max
  {
    if !m.pc[t].Idle? { M.OneMoves(m, t, m'); }
  }

  lemma QueueMovesOne(q: Q.State<Entry>, t: nat, first: Q.PC<Entry>, q': Q.State<Entry>)
    requires t < |q.pc| && QueueMoves(q, t, first, q')
    ensures |q'.pc| == |q.pc| && q'.pc == q.pc[t := q'.pc[t]] && q'.max == q.max
  {
    if !q.pc[t].Idle? { Q.OneMoves(q, t, q'); }
  }

  lemma StepFrame(s: State, t: nat, s': State)
    requires Shape(s) && t < |s.pc| && ThreadOk(s, t) && Step(s, t, s')
    ensures Frame(s, t, s')
  {
    var x := s.pc[t];
    hide LockAt, PoolAt, QueueAt, L.Step, M.Step, Q.Step, Frame, PoolMoves, QueueMoves;
    if x.RsvReq? {
      PoolMovesOne(s.pools[x.i], t, M.ReqWait(false), s'.pools[x.i]);
      PoolFrame(s, t, x.i, s'.pools[x.i], s'.pc[t]);
    } else if x.PubRef? || x.PubRel? || x.RxRel? {
      var first := if x.PubRef? then M.RefLock(x.e.data, 1) else M.RelQuery(x.e.data);
      PoolMovesOne(s.pools[x.e.bp], t, first, s'.pools[x.e.bp]);
      PoolFrame(s, t, x.e.bp, s'.pools[x.e.bp], s'.pc[t]);
    } else if x.PubPush? || x.RxPop? {
      var first := if x.PubPush? then Q.PushWait(x.e) else Q.PopWait(false);
      QueueMovesOne(s.rxqs[x.q].impl, t, first, s'.rxqs[x.q].impl);
      QueueFrame(s, t, x.q, s'.rxqs[x.q].impl, s'.pc[t]);
    } else if x.RxPeek? {
      var timed := !QueueMoves(s.rxqs[x.q].impl, t, Q.PeekWait(false), s'.rxqs[x.q].impl);
      QueueMovesOne(s.rxqs[x.q].impl, t, Q.PeekWait(timed), s'.rxqs[x.q].impl);
      QueueFrame(s, t, x.q, s'.rxqs[x.q].impl, s'.pc[t]);
    } else {
      PlainFrame(s, t, s');
    }
  }

  predicate InPart(x: PC) {
    x.RsvReq? || x.PubRef? || x.PubRel? || x.RxRel? || x.PubPush? || x.RxPop? || x.RxPeek?
  }

  /** Outside the pools and the queues, only the lock moves, and not always. */
  lemma PlainParts(s: State, t: nat, s': State)
    requires Shape(s) && t < |s.pc| && ThreadOk(s, t) && Step(s, t, s') && !InPart(s.pc[t])
    ensures s'.pools == s.pools && s'.rxqs == s.rxqs && s'.eltSize == s.eltSize
    ensures t < |s'.pc| && s'.pc == s.pc[t := s'.pc[t]]
    ensures s'.lock == s.lock || L.Step(s.lock, t, s'.lock)
    ensures s'.mutex == s.mutex || (s.mutex.None? && s'.mutex == Some(t)) || (s.mutex == Some(t) && s'.mutex.None?)
    ensures s'.subs == s.subs || s.mutex == Some(t)
  {
    hide LockAt, PoolAt, QueueAt, L.Step, M.Step, Q.Step, PoolMoves, QueueMoves, Changed;
  }

  lemma PlainFrame(s: State, t: nat, s': State)
    requires Shape(s) && t < |s.pc| && ThreadOk(s, t) && Step(s, t, s') && !InPart(s.pc[t])
    ensures Frame(s, t, s')
  {
    hide ThreadOk, Step, L.Step;
    PlainParts(s, t, s');
    if s'.lock != s.lock { L.OneMoves(s.lock, t, s'.lock); }
  }

  // ----- The thread that moves -----

  lemma BeginOk(s: State, t: nat, s': State)
    requires Shape(s) && t < |s.pc| && ThreadOk(s, t) && BeginStep(s, t, s') && Frame(s, t, s') && s.pc[t].Idle?
    ensures ThreadOk(s', t)
  {
  }

  lemma ReserveOk(s: State, t: nat, s': State)
    requires Shape(s) && t < |s.pc| && ThreadOk(s, t) && ReserveStep(s, t, s') && Frame(s, t, s')
    requires Pools(s)
    ensures ThreadOk(s', t)
  {
    hide M.Step, PoolMoves, M.Inv, Pools, SubsOk;
    var x := s.pc[t];
    if x.RsvReq? {
      RequestPoint(s, t);
      RequestMoves(s, t, x.i, s'.pools[x.i]);
    }
  }

  lemma RequestPoint(s: State, t: nat)
    requires Shape(s) && t < |s.pc| && ThreadOk(s, t) && s.pc[t].RsvReq?
    ensures s.pc[t].i < |s.pools|
    ensures var y := s.pools[s.pc[t].i].pc[t];
      && (y.Idle? || y == M.ReqWait(false) || y.ReqLock? || y.ReqTake? || y.ReqUnlock?)
      && (y.ReqUnlock? ==> s.pc[t].got == Some(y.got)) && (!y.ReqUnlock? ==> s.pc[t].got.None?)
  {
    hide LockAt, QueueAt;
    assert PoolAt(s.pc[t], s.pc[t].i, s.pools[s.pc[t].i].pc[t]);
  }

  lemma RequestMoves(s: State, t: nat, i: nat, m: M.State)
    requires Pools(s) && i < |s.pools| && t < |s.pools[i].pc| && PoolMoves(s.pools[i], t, M.ReqWait(false), m)
    requires var y := s.pools[i].pc[t]; y.Idle? || y == M.ReqWait(false) || y.ReqLock? || y.ReqTake? || y.ReqUnlock?
    ensures var y := m.pc[t];
      && (y == M.ReqWait(false) || y.ReqLock? || y.ReqTake? || y.ReqUnlock? || y.Idle?)
      && (y.Idle? <==> s.pools[i].pc[t].ReqUnlock?)
      && (y.ReqUnlock? ==> y.got < s.pools[i].max)
  {
    if s.pools[i].pc[t].ReqTake? {
      M.TakeFinds(s.pools[i], t);
    }
  }

  /** Outside its calls a thread is idle in every pool and queue. */
  lemma Resting(x: PC, x': PC)
    requires !InPart(x) && !InPart(x')
    ensures forall p, m :: PoolAt(x, p, m) == PoolAt(x', p, m)
    ensures forall q, y :: QueueAt(x, q, y) == QueueAt(x', q, y)
  {
  }

  lemma MutexOk(s: State, t: nat, s': State)
    requires Shape(s) && t < |s.pc| && ThreadOk(s, t) && MutexStep(s, t, s') && Frame(s, t, s') && SubsOk(s)
    ensures ThreadOk(s', t)
  {
    hide PoolAt, QueueAt, Changed;
    Resting(s.pc[t], s'.pc[t]);
  }

  lemma WriterOk(s: State, t: nat, s': State)
    requires Shape(s) && t < |s.pc| && ThreadOk(s, t) && LockStep(s, t, s') && Frame(s, t, s')
    requires s.pc[t].PubEnter? || s.pc[t].PubExit?
    ensures ThreadOk(s', t)
  {
    hide M.Step, Q.Step;
  }

  lemma ReaderMoves(x: PC, l: L.State, t: nat, l': L.State)
    requires t < |l.pc| && (x.RxEnter? || x.RxExit?) && LockAt(x, l.pc[t])
    requires LockMoves(l, t, if x.RxEnter? then L.ROrder(false) else L.Idle, l')
    ensures (x.RxEnter? && l'.pc[t].Reading?) || (x.RxExit? && l'.pc[t].Idle?) || LockAt(x, l'.pc[t])
  {
  }

  lemma ReaderOk(s: State, t: nat, s': State)
    requires Shape(s) && t < |s.pc| && ThreadOk(s, t) && LockStep(s, t, s') && Frame(s, t, s')
    requires s.pc[t].RxEnter? || s.pc[t].RxExit?
    ensures ThreadOk(s', t)
  {
    hide PoolAt, QueueAt, LockMoves, L.Step, M.Step, Q.Step;
    Resting(s.pc[t], s'.pc[t]);
    ReaderMoves(s.pc[t], s.lock, t, s'.lock);
  }

  lemma LoopOk(s: State, t: nat, s': State)
    requires Shape(s) && t < |s.pc| && ThreadOk(s, t) && NotifyStep(s, t, s') && Frame(s, t, s') && s.pc[t].PubLoop?
    requires SubsOk(s)
    ensures ThreadOk(s', t)
  {
    hide PoolMoves, QueueMoves;
  }

  /** A push goes through its points in order, and is not refused. */
  lemma PushPoints(q: Q.State<Entry>, t: nat, e: Entry, q': Q.State<Entry>)
    requires t < |q.pc| && Q.Inv(q) && QueueMoves(q, t, Q.PushWait(e), q')
    requires var y := q.pc[t];
      y.Idle? || y == Q.PushWait(e) || y == Q.PushLock(e) || y == Q.PushAdd(e) || y == Q.PushUnlock(true) || y.PushPost?
    ensures var y := q'.pc[t];
      && (y.Idle? <==> q.pc[t].PushPost?)
      && (y.Idle? || y == Q.PushWait(e) || y == Q.PushLock(e) || y == Q.PushAdd(e) || y == Q.PushUnlock(true)
        || y.PushPost?)
  {
    Q.FifoNeverFails(q, t);
  }

  lemma PushOk(s: State, t: nat, s': State)
    requires Shape(s) && t < |s.pc| && ThreadOk(s, t) && NotifyStep(s, t, s') && Frame(s, t, s') && s.pc[t].PubPush?
    requires Parts(s)
    ensures ThreadOk(s', t)
  {
    hide PoolMoves, QueueMoves, Q.Inv, Q.Step;
    PushPoints(s.rxqs[s.pc[t].q].impl, t, s.pc[t].e, s'.rxqs[s.pc[t].q].impl);
  }

  lemma RefOk(s: State, t: nat, s': State)
    requires Shape(s) && t < |s.pc| && ThreadOk(s, t) && NotifyStep(s, t, s') && Frame(s, t, s') && s.pc[t].PubRef?
    ensures ThreadOk(s', t)
  {
    hide QueueMoves;
  }

  lemma ReleasePoint(s: State, t: nat)
    requires Shape(s) && t < |s.pc| && ThreadOk(s, t) && (s.pc[t].PubRel? || s.pc[t].RxRel?)
    ensures s.pc[t].e.bp < |s.pools| ==> ReleaseAt(s.pc[t].e.data, s.pc[t].dropped, s.pools[s.pc[t].e.bp].pc[t])
  {
    hide LockAt, QueueAt;
    assert s.pc[t].e.bp < |s.pools| ==> PoolAt(s.pc[t], s.pc[t].e.bp, s.pools[s.pc[t].e.bp].pc[t]);
  }

  /** A release goes through its points in order. */
  lemma ReleaseKeeps(m: M.State, t: nat, c: nat, dropped: bool, m': M.State)
    requires t < |m.pc| && PoolMoves(m, t, M.RelQuery(c), m') && ReleaseAt(c, dropped, m.pc[t])
    ensures m'.pc[t].Idle? || ReleaseAt(c, m'.pc[t].RelPost? || m'.pc[t].RelUnlock?, m'.pc[t])
    ensures dropped ==> m'.pc[t].Idle? || m'.pc[t].RelUnlock?
  {
  }

  lemma RelOk(s: State, t: nat, s': State)
    requires Shape(s) && t < |s.pc| && ThreadOk(s, t) && NotifyStep(s, t, s') && Frame(s, t, s') && s.pc[t].PubRel?
    ensures ThreadOk(s', t)
  {
    hide QueueMoves, M.Step, SubsOk, Parts, Pools;
    var x := s.pc[t];
    ReleasePoint(s, t);
    ReleaseKeeps(s.pools[x.e.bp], t, x.e.data, x.dropped, s'.pools[x.e.bp]);
  }

  lemma PeekOk(s: State, t: nat, s': State)
    requires Shape(s) && t < |s.pc| && ThreadOk(s, t) && ConsumeStep(s, t, s') && Frame(s, t, s') && s.pc[t].RxPeek?
    ensures ThreadOk(s', t)
  {
    hide PoolMoves;
  }

  lemma RxRelOk(s: State, t: nat, s': State)
    requires Shape(s) && t < |s.pc| && ThreadOk(s, t) && ConsumeStep(s, t, s') && Frame(s, t, s')
    requires s.pc[t].RxRel? || s.pc[t].RxHave?
    ensures ThreadOk(s', t)
  {
    hide QueueMoves, M.Step, SubsOk, Parts, Pools;
    var x := s.pc[t];
    if x.RxRel? {
      ReleasePoint(s, t);
      ReleaseKeeps(s.pools[x.e.bp], t, x.e.data, x.dropped, s'.pools[x.e.bp]);
    }
  }

  lemma PopMoves(q: Q.State<Entry>, t: nat, q': Q.State<Entry>)
    requires t < |q.pc| && Q.Inv(q) && QueueMoves(q, t, Q.PopWait(false), q')
    requires var y := q.pc[t];
      y.Idle? || y == Q.PopWait(false) || y == Q.PopLock(false) || y == Q.PopTake(false)
      || (y.PopUnlock? && y.got.Some?) || y.PopPost?
    ensures var y := q'.pc[t];
      && (y.Idle? <==> q.pc[t].PopPost?)
      && (y.Idle? || y == Q.PopWait(false) || y == Q.PopLock(false) || y == Q.PopTake(false)
          || (y.PopUnlock? && y.got.Some?) || y.PopPost?)
  {
    Q.FifoNeverFails(q, t);
  }

  lemma PopOk(s: State, t: nat, s': State)
    requires Shape(s) && t < |s.pc| && ThreadOk(s, t) && ConsumeStep(s, t, s') && Frame(s, t, s') && s.pc[t].RxPop?
    requires Parts(s)
    ensures ThreadOk(s', t)
  {
    hide PoolMoves, Q.Inv, Q.Step;
    PopMoves(s.rxqs[s.pc[t].q].impl, t, s'.rxqs[s.pc[t].q].impl);
    hide QueueMoves;
  }

  // ----- Everything -----

  lemma SubsKept(s: State, t: nat, s': State)
    requires Shape(s) && t < |s.pc| && ThreadOk(s, t) && SubsOk(s) && Step(s, t, s') && Frame(s, t, s')
    ensures SubsOk(s')
  {
    hide LockAt, PoolAt, QueueAt, L.Step, M.Step, Q.Step;
    if s.pc[t].SubChange? {
      ChangedOk(s, s.pc[t].sub, s.pc[t].add);
      assert s'.subs == Changed(s, s.pc[t].sub, s.pc[t].add);
    }
  }

  lemma ChangedOk(s: State, sub: Sub, add: bool)
    requires SubsOk(s) && sub.queue < |s.rxqs|
    ensures SubsOk(s.(subs := Changed(s, sub, add)))
  {
    if !add {
      DeletedKeeps(s.subs, sub);
    } else if sub !in s.subs {
      InsertedKeeps(s.subs, sub);
    }
    var subs := Changed(s, sub, add);
    forall i | 0 <= i < |subs| ensures subs[i].queue < |s.rxqs| {
      assert subs[i] in subs;
    }
  }

  /** Inserting adds one element, deleting removes one, and neither makes a duplicate. */
  lemma {:induction false} InsertedKeeps(subs: seq<Sub>, x: Sub)
    requires x !in subs && forall i, j :: 0 <= i < j < |subs| ==> subs[i] != subs[j]
    ensures forall y :: y in Inserted(subs, x) <==> y == x || y in subs
    ensures forall i, j :: 0 <= i < j < |Inserted(subs, x)| ==> Inserted(subs, x)[i] != Inserted(subs, x)[j]
  {
    if subs != [] {
      InsertedKeeps(subs[1..], x);
      assert subs == [subs[0]] + subs[1..];
      assert subs[0] !in subs[1..];
    }
  }

  lemma {:induction false} DeletedKeeps(subs: seq<Sub>, x: Sub)
    requires forall i, j :: 0 <= i < j < |subs| ==> subs[i] != subs[j]
    ensures forall y :: y in Deleted(subs, x) <==> y != x && y in subs
    ensures forall i, j :: 0 <= i < j < |Deleted(subs, x)| ==> Deleted(subs, x)[i] != Deleted(subs, x)[j]
  {
    if subs != [] {
      DeletedKeeps(subs[1..], x);
      assert subs == [subs[0]] + subs[1..];
      assert subs[0] !in subs[1..];
    }
  }

  lemma QueueMovesInv(q: Q.State<Entry>, t: nat, first: Q.PC<Entry>, q': Q.State<Entry>)
    requires t < |q.pc| && Q.Inv(q) && QueueMoves(q, t, first, q')
    requires first.PushWait? || first.PopWait? || first.PeekWait?
    ensures Q.Inv(q')
  {
    if q.pc[t].Idle? { Q.CallInv(q, t, q'); } else { Q.StepInv(q, t, q'); }
  }

  lemma PoolMovesInv(m: M.State, t: nat, first: M.PC, m': M.State)
    requires t < |m.pc| && M.Inv(m) && PoolMoves(m, t, first, m') && M.CallerKeepsChunk(m, t)
    requires first.ReqWait? || first.RelQuery? || (first.RefLock? && first.delta == 1)
    ensures M.Inv(m')
  {
    assert m.pc[t].Idle? ==> M.Call(m, t, m');
    M.StepInv(m, t, m');
  }

  lemma LockPart(s: State, t: nat, s': State)
    requires Shape(s) && t < |s.pc| && Step(s, t, s')
    ensures s'.lock == s.lock || L.Step(s.lock, t, s'.lock)
  {
    hide L.Step, M.Step, Q.Step, QueueMoves, PoolMoves;
  }

  /** What a step does in one queue: nothing, or a move in a call. */
  lemma QueuePart(s: State, t: nat, s': State, q: nat) returns (first: Q.PC<Entry>)
    requires Shape(s) && t < |s.pc| && Step(s, t, s') && q < |s.rxqs|
    ensures q < |s'.rxqs| && (first.PushWait? || first.PopWait? || first.PeekWait?)
    ensures s'.rxqs[q].impl == s.rxqs[q].impl || QueueMoves(s.rxqs[q].impl, t, first, s'.rxqs[q].impl)
  {
    hide L.Step, M.Step, Q.Step, QueueMoves, PoolMoves, LockMoves;
    var x := s.pc[t];
    if x.PubPush? {
      first := Q.PushWait(x.e);
    } else if x.RxPeek? {
      first := Q.PeekWait(!QueueMoves(s.rxqs[q].impl, t, Q.PeekWait(false), s'.rxqs[q].impl));
    } else {
      first := Q.PopWait(false);
    }
  }

  /** The lock and the queues keep their invariants whatever the bus does. */
  lemma PartsKept(s: State, t: nat, s': State)
    requires Shape(s) && t < |s.pc| && Parts(s) && Step(s, t, s') && Frame(s, t, s')
    ensures Parts(s')
  {
    hide Step, L.Step, L.Inv, Q.Inv, QueueMoves, Frame;
    FrameShape(s, t, s');
    LockPart(s, t, s');
    if s'.lock != s.lock { L.StepInv(s.lock, t, s'.lock); }
    forall q | 0 <= q < |s'.rxqs| ensures Q.Inv(s'.rxqs[q].impl) {
      var first := QueuePart(s, t, s', q);
      if s'.rxqs[q].impl != s.rxqs[q].impl { QueueMovesInv(s.rxqs[q].impl, t, first, s'.rxqs[q].impl); }
    }
  }

  /** What a step does in one pool: nothing, or a move in a call. */
  lemma PoolPart(s: State, t: nat, s': State, p: nat) returns (first: M.PC)
    requires Shape(s) && t < |s.pc| && Step(s, t, s') && p < |s.pools|
    ensures p < |s'.pools| && (first.ReqWait? || first.RelQuery? || (first.RefLock? && first.delta == 1))
    ensures s'.pools[p] == s.pools[p] || PoolMoves(s.pools[p], t, first, s'.pools[p])
  {
    hide L.Step, M.Step, Q.Step, QueueMoves, PoolMoves, LockMoves;
    var x := s.pc[t];
    if x.PubRef? {
      first := M.RefLock(x.e.data, 1);
    } else if x.PubRel? || x.RxRel? {
      first := M.RelQuery(x.e.data);
    } else {
      first := M.ReqWait(false);
    }
  }

  /** The pools keep theirs as long as their callers keep the chunks they use. */
  lemma PoolsKept(s: State, t: nat, s': State)
    requires Shape(s) && t < |s.pc| && Pools(s) && Step(s, t, s') && Frame(s, t, s')
    requires forall p :: 0 <= p < |s.pools| ==> M.CallerKeepsChunk(s.pools[p], t)
    ensures Pools(s')
  {
    hide Step, M.Inv, M.CallerKeepsChunk, PoolMoves, Frame;
    FrameShape(s, t, s');
    forall p | 0 <= p < |s'.pools| ensures M.Inv(s'.pools[p]) {
      var first := PoolPart(s, t, s', p);
      if s'.pools[p] != s.pools[p] { PoolMovesInv(s.pools[p], t, first, s'.pools[p]); }
    }
  }

  lemma OwnOk(s: State, t: nat, s': State)
    requires Shape(s) && t < |s.pc| && ThreadOk(s, t) && Parts(s) && Pools(s) && SubsOk(s) && Step(s, t, s')
    requires Frame(s, t, s')
    ensures ThreadOk(s', t)
  {
    hide Frame, ThreadOk, Parts, Pools, SubsOk;
    var x := s.pc[t];
    if x.Idle? { BeginOk(s, t, s'); }
    else if ReserveStep(s, t, s') { ReserveOk(s, t, s'); }
    else if MutexStep(s, t, s') { MutexOk(s, t, s'); }
    else if x.PubEnter? || x.PubExit? { WriterOk(s, t, s'); }
    else if x.RxEnter? || x.RxExit? { ReaderOk(s, t, s'); }
    else if x.PubLoop? { LoopOk(s, t, s'); }
    else if x.PubPush? { PushOk(s, t, s'); }
    else if x.PubRef? { RefOk(s, t, s'); }
    else if x.PubRel? { RelOk(s, t, s'); }
    else if x.RxPeek? { PeekOk(s, t, s'); }
    else if x.RxPop? { PopOk(s, t, s'); }
    else { RxRelOk(s, t, s'); }
  }

  lemma LinkedKept(s: State, t: nat, s': State)
    requires Linked(s) && t < |s.pc| && Step(s, t, s')
    requires forall p :: 0 <= p < |s.pools| ==> M.CallerKeepsChunk(s.pools[p], t)
    ensures Linked(s') && Frame(s, t, s')
  {
    hide Frame, ThreadOk, Parts, Pools, SubsOk, Step, M.CallerKeepsChunk;
    StepFrame(s, t, s');
    FrameShape(s, t, s');
    PartsKept(s, t, s');
    PoolsKept(s, t, s');
    SubsKept(s, t, s');
    OwnOk(s, t, s');
    forall u | 0 <= u < |s'.pc| ensures ThreadOk(s', u) {
      if u != t { OtherOk(s, t, s', u); }
    }
  }

  lemma FrameShape(s: State, t: nat, s': State)
    requires Shape(s) && t < |s.pc| && Frame(s, t, s')
    ensures Shape(s') && |s'.pc| == |s.pc| && |s'.pools| == |s.pools| && |s'.rxqs| == |s.rxqs|
  {
  }
}
