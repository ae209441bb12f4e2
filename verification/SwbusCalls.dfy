/** What the calls of `src/swbus/swbus.c` do for the application: the bus behaves as one log of
    publications that each receive queue reads from its own place on. */
module SwbusCalls {
  import opened Rbuffer
  import opened Swbus
  import opened SwbusLinks
  import opened SwbusQueues
  import opened SwbusOrder
  import opened SwbusRuns
  import L = Rdwrlock
  import M = Mpool
  import Q = Pcqueue

  // ----- The bus as the application sees it -----

  /** Where a call stands. A reservation has looked at the pools before `next`; a wait with `mayFail`
      can still time out. */
  datatype Phase =
    | Out
    | Reserving(size: nat, next: nat) | Granted(bp: nat, data: nat, size: nat)
    | Publishing(e: Entry)
    | Waiting(q: nat, mayFail: bool) | Got(q: nat, e: Entry) | Popping(q: nat, e: Entry)
    | Changing(sub: Sub, add: bool)
    | Done

  /** The publications so far, and how many of those meant for it each queue has read. `full` tells
      which pools have no free chunk at the moment. */
  datatype Bus = Bus(eltSize: seq<nat>, full: seq<bool>, maxSubs: nat, subs: seq<Sub>, log: seq<Pub>, taken: seq<nat>)

  /** Nothing changes but perhaps the pools. */
  predicate Same(b: Bus, b': Bus) { b' == b.(full := b'.full) }

  /** `e` is the first publication for queue `q` that it has not read. */
  predicate IsNext(b: Bus, q: nat, e: Entry) {
    q < |b.taken| && b.taken[q] < |Delivered(b.log, q)| && Delivered(b.log, q)[b.taken[q]] == e
  }

  /** Ascending PIDs, and for one PID ascending queues. */
  predicate Ordered(subs: seq<Sub>) {
    forall i, j :: 0 <= i < j < |subs| ==>
      subs[i].pid < subs[j].pid || (subs[i].pid == subs[j].pid && subs[i].queue < subs[j].queue)
  }

  /** A subscription is added if there is room, and removed if it is there. */
  ghost predicate Changes(b: Bus, sub: Sub, add: bool, subs: seq<Sub>) {
    && Ordered(subs)
    && forall z :: z in subs <==>
      if add then z in b.subs || (z == sub && |b.subs| < b.maxSubs) else z in b.subs && z != sub
  }

  ghost predicate Proper(b: Bus, x: Phase, b': Bus, y: Phase) {
    match x
    case Out => Same(b, b') && ((y.Reserving? && y.next == 0) || (y.Waiting? && y.mayFail) || y.Changing?)
    // the first pool that is big enough and not full when it is looked at, if there is one
    case Reserving(size, i) =>
      && Same(b, b')
      && if i >= |b.eltSize| then y == Out
         else
           || (y == Reserving(size, i + 1) && (b.eltSize[i] < size || (i < |b.full| && b.full[i])))
           || (y.Granted? && y.bp == i && y.size == size && b.eltSize[i] >= size)
    case Granted(bp, data, _) => Same(b, b') && y.Publishing? && y.e.bp == bp && y.e.data == data
    case Publishing(e) => y == Done && Same(b.(log := b.log + [Pub(e, b.subs)]), b')
    case Waiting(q, mayFail) =>
      && Same(b, b')
      && if mayFail then y == Out || y == Waiting(q, false) else y.Got? && y.q == q && IsNext(b, q, y.e)
    case Got(q, e) => Same(b, b') && y == Popping(q, e)
    case Popping(q, e) => y == Done && IsNext(b, q, e) && Same(b.(taken := b.taken[q := b.taken[q] + 1]), b')
    case Changing(sub, add) => y == Done && Changes(b, sub, add, b'.subs) && Same(b.(subs := b'.subs), b')
    case Done => Same(b, b') && y == Out
  }

  // ----- How a state looks to the application -----

  function BusOf(s: State): Bus {
    Bus(s.eltSize, Full(s.pools), s.maxSubs, s.subs, s.log, Taken(s.rxqs))
  }

  function Full(pools: seq<M.State>): (f: seq<bool>)
    ensures |f| == |pools| && forall p :: 0 <= p < |pools| ==> f[p] == (|pools[p].alloc| == pools[p].max)
  {
    seq(|pools|, p requires 0 <= p < |pools| => |pools[p].alloc| == pools[p].max)
  }

  function Taken(rxqs: seq<Rxq>): (k: seq<nat>)
    ensures |k| == |rxqs| && forall q :: 0 <= q < |rxqs| ==> k[q] == |rxqs[q].impl.popped|
  {
    seq(|rxqs|, q requires 0 <= q < |rxqs| => |rxqs[q].impl.popped|)
  }

  /** `y` is where the thread is in the queue it waits at. */
  function PhaseOf(x: PC, y: Q.PC<Entry>): Phase {
    match x
    case Idle => Out
    case Rsv(i, size) => Reserving(size, i)
    case RsvReq(i, size, _) => Reserving(size, i)
    case Reserved(bp, data, size) => Granted(bp, data, size)
    case PubMutex(e) => Publishing(e)
    case PubEnter(e) => Publishing(e)
    case RxPeek(q) => Waiting(q, y.Idle? || y == Q.PeekWait(true))
    case RxEnter(q, _) => Waiting(q, false)
    case RxExit(q, _) => Waiting(q, false)
    case RxHave(q, e) => Got(q, e)
    case RxRel(q, e, _) => Popping(q, e)
    case RxPop(q, e, taken) => if taken then Done else Popping(q, e)
    case SubMutex(sub, add) => Changing(sub, add)
    case SubChange(sub, add) => Changing(sub, add)
    case _ => Done
  }

  function PhaseAt(s: State, t: nat): Phase
    requires Shape(s) && t < |s.pc|
  {
    PhaseOf(s.pc[t], if s.pc[t].RxPeek? && s.pc[t].q < |s.rxqs| then s.rxqs[s.pc[t].q].impl.pc[t] else Q.Idle)
  }

  /** What a step of `t` is to the application: nothing, or a proper move. */
  ghost predicate Seen(s: State, t: nat, s': State)
    requires Shape(s) && Shape(s') && t < |s.pc| && t < |s'.pc|
  {
    || (PhaseAt(s', t) == PhaseAt(s, t) && Same(BusOf(s), BusOf(s')))
    || Proper(BusOf(s), PhaseAt(s, t), BusOf(s'), PhaseAt(s', t))
  }

  // ----- What else holds in every reachable state -----

  /** A reservation that has asked a pool, or got a chunk of it, found its chunks big enough. */
  predicate Fits(s: State, t: nat)
    requires Shape(s) && t < |s.pc|
  {
    && (s.pc[t].RsvReq? ==> s.pc[t].i < |s.eltSize| && s.eltSize[s.pc[t].i] >= s.pc[t].size)
    && (s.pc[t].Reserved? ==> s.pc[t].bp < |s.eltSize| && s.eltSize[s.pc[t].bp] >= s.pc[t].size)
  }

  predicate More(s: State) {
    Shape(s) && Ordered(s.subs) && forall t :: 0 <= t < |s.pc| ==> Fits(s, t)
  }

  /** What no step changes, and which steps change what. */
  lemma Constants(s: State, t: nat, s': State)
    requires Shape(s) && t < |s.pc| && Step(s, t, s')
    ensures s'.eltSize == s.eltSize && s'.maxSubs == s.maxSubs && |s'.rxqs| == |s.rxqs|
    ensures !s.pc[t].SubChange? ==> s'.subs == s.subs
    ensures !s.pc[t].PubEnter? ==> s'.log == s.log
    ensures t < |s'.pc|
  {
    hide L.Step, M.Step, Q.Step, QueueMoves, PoolMoves, LockMoves, Changed;
  }

  predicate OutsideReservation(x: PC, y: PC) {
    !y.RsvReq? && !y.Reserved? && (y.Rsv? ==> y.i == 0) && !x.Rsv?
  }

  lemma PublishOutside(s: State, t: nat, s': State)
    requires Shape(s) && t < |s.pc| && t < |s'.pc| && (NotifyStep(s, t, s') || MutexStep(s, t, s'))
    ensures OutsideReservation(s.pc[t], s'.pc[t])
  {
    hide PoolMoves, QueueMoves, Changed;
  }

  lemma ConsumeOutside(s: State, t: nat, s': State)
    requires Shape(s) && t < |s.pc| && t < |s'.pc| && (LockStep(s, t, s') || ConsumeStep(s, t, s'))
    ensures OutsideReservation(s.pc[t], s'.pc[t])
  {
    hide PoolMoves, QueueMoves, LockMoves;
  }

  /** Only a step of a reservation, or its call, leads into one. */
  lemma NotReserving(s: State, t: nat, s': State)
    requires Shape(s) && t < |s.pc| && t < |s'.pc| && Step(s, t, s') && !ReserveStep(s, t, s')
    ensures OutsideReservation(s.pc[t], s'.pc[t])
  {
    hide ReserveStep, NotifyStep, MutexStep, LockStep, ConsumeStep;
    if NotifyStep(s, t, s') || MutexStep(s, t, s') {
      PublishOutside(s, t, s');
    } else if LockStep(s, t, s') || ConsumeStep(s, t, s') {
      ConsumeOutside(s, t, s');
    }
  }

  lemma FitsStep(s: State, t: nat, s': State)
    requires Shape(s) && Shape(s') && t < |s.pc| && t < |s'.pc| && Step(s, t, s') && Fits(s, t)
    ensures Fits(s', t)
  {
    hide Step, M.Step, PoolMoves;
    if !ReserveStep(s, t, s') { NotReserving(s, t, s'); }
  }

  /** Both lists stay in order. */
  lemma {:induction false} InsertedOrdered(subs: seq<Sub>, x: Sub)
    requires Ordered(subs) && x !in subs
    ensures Ordered(Inserted(subs, x)) && forall y :: y in Inserted(subs, x) <==> y == x || y in subs
  {
    if subs != [] {
      var rest := subs[1..];
      assert subs == [subs[0]] + rest;
      InsertedOrdered(rest, x);
      if !Less(x, subs[0]) {
        assert subs[0] != x && Less(subs[0], x);
        OrderedCons(subs[0], Inserted(rest, x));
      } else {
        OrderedCons(x, subs);
      }
    }
  }

  lemma OrderedCons(x: Sub, subs: seq<Sub>)
    requires Ordered(subs)
    requires forall y :: y in subs ==> x.pid < y.pid || (x.pid == y.pid && x.queue < y.queue)
    ensures Ordered([x] + subs)
  {
  }

  lemma {:induction false} DeletedOrdered(subs: seq<Sub>, x: Sub)
    requires Ordered(subs)
    ensures Ordered(Deleted(subs, x)) && forall y :: y in Deleted(subs, x) <==> y in subs && y != x
  {
    if subs != [] {
      var rest := subs[1..];
      assert subs == [subs[0]] + rest;
      DeletedOrdered(rest, x);
      if subs[0] != x { OrderedCons(subs[0], Deleted(rest, x)); }
    }
  }

  // ----- What a queue has been read -----

  lemma PoppedMoves(q: Q.State<Entry>, t: nat, first: Q.PC<Entry>, q': Q.State<Entry>)
    requires t < |q.pc| && Q.Inv(q) && QueueMoves(q, t, first, q')
    requires first.PushWait? || first.PopWait? || first.PeekWait?
    ensures q.pc[t].PopTake? ==> |q'.popped| == |q.popped| + 1
    ensures !q.pc[t].PopTake? ==> q'.popped == q.popped
  {
    Q.FifoNeverFails(q, t);
    hide Q.Inv;
  }

  /** Thread `t` is taking the front entry of queue `q`. */
  predicate Takes(s: State, t: nat, q: nat)
    requires Shape(s) && t < |s.pc| && q < |s.rxqs|
  {
    s.pc[t].RxPop? && s.pc[t].q == q && s.rxqs[q].impl.pc[t].PopTake?
  }

  lemma PoppedBy(s: State, t: nat, s': State, q: nat)
    requires Linked(s) && t < |s.pc| && Step(s, t, s') && q < |s.rxqs|
    ensures q < |s'.rxqs|
    ensures |s'.rxqs[q].impl.popped| == |s.rxqs[q].impl.popped| + if Takes(s, t, q) then 1 else 0
  {
    hide Linked, ThreadOk, Step, Q.Inv, QueueMoves;
    QueueLinked(s, t, q);
    var x := s.pc[t];
    if (x.PubPush? || x.RxPeek? || x.RxPop?) && x.q == q {
      var first := QueuePart(s, t, s', q);
      if s'.rxqs[q].impl != s.rxqs[q].impl {
        PoppedMoves(s.rxqs[q].impl, t, first, s'.rxqs[q].impl);
      } else if Takes(s, t, q) {
        TakesMoves(s, t, s', q);
      }
    } else {
      QueueStays(s, t, s', q);
    }
  }

  lemma TakesMoves(s: State, t: nat, s': State, q: nat)
    requires Shape(s) && t < |s.pc| && Step(s, t, s') && q < |s.rxqs| && Takes(s, t, q)
    ensures q < |s'.rxqs| && s'.rxqs[q].impl != s.rxqs[q].impl
  {
    hide L.Step, M.Step, PoolMoves, LockMoves;
  }

  lemma TakenKept(s: State, t: nat, s': State)
    requires Linked(s) && t < |s.pc| && Step(s, t, s') && |s'.rxqs| == |s.rxqs|
    requires forall q :: 0 <= q < |s.rxqs| ==> !Takes(s, t, q)
    ensures Taken(s'.rxqs) == Taken(s.rxqs)
  {
    hide Linked, Step, Takes;
    forall q | 0 <= q < |s.rxqs| ensures |s'.rxqs[q].impl.popped| == |s.rxqs[q].impl.popped| {
      PoppedBy(s, t, s', q);
    }
  }

  lemma TakenMore(s: State, t: nat, s': State, q: nat)
    requires Linked(s) && t < |s.pc| && Step(s, t, s') && |s'.rxqs| == |s.rxqs| && q < |s.rxqs| && Takes(s, t, q)
    ensures Taken(s'.rxqs) == Taken(s.rxqs)[q := Taken(s.rxqs)[q] + 1]
  {
    hide Linked, Step;
    forall r | 0 <= r < |s.rxqs|
      ensures |s'.rxqs[r].impl.popped| == |s.rxqs[r].impl.popped| + if r == q then 1 else 0
    {
      PoppedBy(s, t, s', r);
    }
  }

  /** The front entry of a queue is the first publication for it that it has not read. */
  lemma FrontIsNext(s: State, q: nat, e: Entry)
    requires Linked(s) && OrderOk(s) && q < |s.rxqs| && s.rxqs[q].impl.fifo != [] && s.rxqs[q].impl.fifo[0] == e
    ensures IsNext(BusOf(s), q, e)
  {
    hide ThreadOk, Pools, SubsOk, Delivered, SentTo;
    var r := s.rxqs[q].impl;
    assert Q.Inv(r) && r.pushed == r.popped + r.fifo;
    assert r.pushed == SentTo(s.log, Holder(s), q);
    SentPrefix(s.log, Holder(s), q);
    assert r.pushed[|r.popped|] == e;
  }

  /** What a consumer has in hand is the front entry of its queue. */
  lemma InHand(s: State, t: nat, q: nat, e: Entry)
    requires Linked(s) && QueuesOk(s) && OrderOk(s) && t < |s.pc| && Front(s.pc[t]) == Some((q, e))
    ensures q < |s.rxqs| && IsNext(BusOf(s), q, e)
  {
    HandFront(s, t, q, e);
    hide Linked, QueuesOk, OrderOk, IsNext;
    FrontIsNext(s, q, e);
  }

  lemma HandFront(s: State, t: nat, q: nat, e: Entry)
    requires Linked(s) && QueuesOk(s) && t < |s.pc| && Front(s.pc[t]) == Some((q, e))
    ensures q < |s.rxqs| && s.rxqs[q].impl.fifo != [] && s.rxqs[q].impl.fifo[0] == e
  {
    hide LockAt, PoolAt, QueueAt, Parts, Pools, SubsOk;
    assert ThreadOk(s, t) && QueueOk(s, q);
  }

  // ----- What each step is to the application -----

  lemma BeginSeen(s: State, t: nat, s': State)
    requires Shape(s) && Shape(s') && t < |s.pc| && ThreadOk(s, t) && s.pc[t].Idle? && BeginStep(s, t, s')
    ensures Seen(s, t, s')
  {
    hide LockAt, PoolAt;
  }

  lemma ReserveSeen(s: State, t: nat, s': State)
    requires Shape(s) && Shape(s') && t < |s.pc| && t < |s'.pc| && Fits(s, t) && ReserveStep(s, t, s')
    ensures Seen(s, t, s')
  {
    hide M.Step, PoolMoves;
    assert s'.rxqs == s.rxqs;
  }

  /** The subscriptions after a change. */
  lemma ChangedProper(s: State, sub: Sub, add: bool)
    requires Ordered(s.subs)
    ensures Changes(BusOf(s), sub, add, Changed(s, sub, add))
  {
    DeletedOrdered(s.subs, sub);
    if sub !in s.subs { InsertedOrdered(s.subs, sub); }
  }

  lemma MutexSeen(s: State, t: nat, s': State)
    requires Shape(s) && Shape(s') && t < |s.pc| && t < |s'.pc| && Ordered(s.subs) && MutexStep(s, t, s')
    ensures Seen(s, t, s')
  {
    hide Changed, Changes;
    if s.pc[t].SubChange? { ChangedProper(s, s.pc[t].sub, s.pc[t].add); }
  }

  lemma LockSeen(s: State, t: nat, s': State)
    requires Linked(s) && QueuesOk(s) && OrderOk(s) && Shape(s') && t < |s.pc| && t < |s'.pc| && LockStep(s, t, s')
    ensures Seen(s, t, s')
  {
    hide Linked, QueuesOk, OrderOk, L.Step, LockMoves, IsNext, Delivered;
    var x := s.pc[t];
    if x.RxExit? { InHand(s, t, x.q, x.e); }
  }

  lemma NotifySeen(s: State, t: nat, s': State)
    requires Shape(s) && Shape(s') && t < |s.pc| && t < |s'.pc| && NotifyStep(s, t, s')
    requires Taken(s'.rxqs) == Taken(s.rxqs)
    ensures Seen(s, t, s')
  {
    hide M.Step, Q.Step, PoolMoves, QueueMoves;
  }

  /** A peek gives up only where it may time out. */
  lemma PeekPoints(q: Q.State<Entry>, t: nat, q': Q.State<Entry>)
    requires t < |q.pc| && Q.Inv(q)
    requires QueueMoves(q, t, Q.PeekWait(false), q') || QueueMoves(q, t, Q.PeekWait(true), q')
    requires var y := q.pc[t]; y.Idle? || y.PeekWait? || y.PeekLock? || y.PeekLook? || y.PeekUnlock? || y.PeekPost?
    ensures var y, y' := q.pc[t], q'.pc[t];
      && (y.PeekPost? ==> y.seen.Some? && y'.Idle?) && (y'.Idle? ==> y.PeekPost? || y == Q.PeekWait(true))
      && (y'.Idle? || y'.PeekWait? || y'.PeekLock? || y'.PeekLook? || y'.PeekUnlock? || y'.PeekPost?)
      && (y' == Q.PeekWait(true) ==> y.Idle?)
  {
    Q.FifoNeverFails(q, t);
    NoneFailed(q, t);
    hide Q.Inv;
  }

  lemma NoneFailed(q: Q.State<Entry>, t: nat)
    requires t < |q.pc| && Q.Inv(q)
    ensures Q.Failed(q.pc[t]) == 0
  {
    Q.Sums(q.pc, t, Q.Idle);
  }

  lemma PeekSeen(s: State, t: nat, s': State)
    requires Linked(s) && Shape(s') && t < |s.pc| && t < |s'.pc| && s.pc[t].RxPeek? && ConsumeStep(s, t, s')
    requires Taken(s'.rxqs) == Taken(s.rxqs)
    ensures Seen(s, t, s')
  {
    hide Linked, QueueMoves, Q.Step, Q.Inv, ThreadOk;
    var q := s.pc[t].q;
    ConsumerAt(s, t);
    QueueLinked(s, t, q);
    PeekPoints(s.rxqs[q].impl, t, s'.rxqs[q].impl);
  }

  lemma ConsumerAt(s: State, t: nat)
    requires Linked(s) && t < |s.pc| && (s.pc[t].RxPeek? || s.pc[t].RxPop?)
    ensures s.pc[t].q < |s.rxqs|
  {
    assert ThreadOk(s, t);
  }

  /** A release of a chunk of the pool is not turned down. */
  lemma ReleaseGoes(m: M.State, t: nat, c: nat, dropped: bool, m': M.State)
    requires t < |m.pc| && PoolMoves(m, t, M.RelQuery(c), m') && ReleaseAt(c, dropped, m.pc[t]) && c < m.max
    ensures m'.pc[t].Idle? ==> dropped
  {
  }

  lemma RelSeen(s: State, t: nat, s': State)
    requires Linked(s) && QueuesOk(s) && Shape(s') && t < |s.pc| && t < |s'.pc|
    requires (s.pc[t].RxRel? || s.pc[t].RxHave?) && ConsumeStep(s, t, s')
    requires Taken(s'.rxqs) == Taken(s.rxqs)
    ensures Seen(s, t, s')
  {
    hide Linked, QueuesOk, PoolMoves, M.Step;
    var x := s.pc[t];
    if x.RxRel? {
      RelAt(s, t);
      ReleaseGoes(s.pools[x.e.bp], t, x.e.data, x.dropped, s'.pools[x.e.bp]);
    }
  }

  lemma RelAt(s: State, t: nat)
    requires Linked(s) && QueuesOk(s) && t < |s.pc| && s.pc[t].RxRel?
    ensures Shape(s)
    ensures var x := s.pc[t];
      IsChunk(s, x.e.bp, x.e.data) && ReleaseAt(x.e.data, x.dropped, s.pools[x.e.bp].pc[t])
  {
    var x := s.pc[t];
    HandFront(s, t, x.q, x.e);
    hide LockAt, QueueAt, Parts, Pools, SubsOk;
    assert ThreadOk(s, t) && QueueOk(s, x.q);
    ReleasePoint(s, t);
  }

  lemma PopSeen(s: State, t: nat, s': State)
    requires Linked(s) && QueuesOk(s) && OrderOk(s) && Shape(s') && t < |s.pc| && t < |s'.pc|
    requires s.pc[t].RxPop? && ConsumeStep(s, t, s') && s.pc[t].q < |s.rxqs|
    requires if Takes(s, t, s.pc[t].q) then Taken(s'.rxqs) == Taken(s.rxqs)[s.pc[t].q := Taken(s.rxqs)[s.pc[t].q] + 1]
             else Taken(s'.rxqs) == Taken(s.rxqs)
    ensures Seen(s, t, s')
  {
    hide Linked, QueuesOk, OrderOk, QueueMoves, Q.Step, Q.Inv, IsNext, Delivered, ThreadOk;
    var x := s.pc[t];
    var q, q' := s.rxqs[x.q].impl, s'.rxqs[x.q].impl;
    QueueLinked(s, t, x.q);
    PopMoves(q, t, q');
    PopTaken(q, t, q');
    if !x.taken { InHand(s, t, x.q, x.e); }
  }

  lemma NoTakes(s: State, t: nat)
    requires Shape(s) && t < |s.pc| && !s.pc[t].RxPop?
    ensures forall q :: 0 <= q < |s.rxqs| ==> !Takes(s, t, q)
  {
  }

  lemma TakesHere(s: State, t: nat)
    requires Shape(s) && t < |s.pc| && s.pc[t].RxPop? && s.pc[t].q < |s.rxqs| && !Takes(s, t, s.pc[t].q)
    ensures forall q :: 0 <= q < |s.rxqs| ==> !Takes(s, t, q)
  {
  }

  lemma TakenBy(s: State, t: nat, s': State)
    requires Linked(s) && t < |s.pc| && Step(s, t, s') && |s'.rxqs| == |s.rxqs|
    ensures !s.pc[t].RxPop? ==> Taken(s'.rxqs) == Taken(s.rxqs)
    ensures s.pc[t].RxPop? ==>
      && s.pc[t].q < |s.rxqs|
      && var q := s.pc[t].q;
      if Takes(s, t, q) then Taken(s'.rxqs) == Taken(s.rxqs)[q := Taken(s.rxqs)[q] + 1]
      else Taken(s'.rxqs) == Taken(s.rxqs)
  {
    LinkedShape(s);
    hide Linked, Step, Takes;
    if !s.pc[t].RxPop? {
      NoTakes(s, t);
      TakenKept(s, t, s');
    } else {
      ConsumerAt(s, t);
      if Takes(s, t, s.pc[t].q) {
        TakenMore(s, t, s', s.pc[t].q);
      } else {
        TakesHere(s, t);
        TakenKept(s, t, s');
      }
    }
  }

  lemma StepSeen(s: State, t: nat, s': State)
    requires Inv(s) && More(s) && Shape(s') && t < |s.pc| && t < |s'.pc| && Step(s, t, s') && ThreadOk(s, t)
    ensures Seen(s, t, s')
  {
    assert Linked(s) && QueuesOk(s) && OrderOk(s) && Fits(s, t) && Ordered(s.subs);
    hide Linked, QueuesOk, OrderOk, Fits, Ordered, ThreadOk, Seen;
    Constants(s, t, s');
    TakenBy(s, t, s');
    KindOfStep(s, t, s');
    if s.pc[t].Idle? { BeginSeen(s, t, s'); }
    else if ReserveStep(s, t, s') { ReserveSeen(s, t, s'); }
    else if MutexStep(s, t, s') { MutexSeen(s, t, s'); }
    else if LockStep(s, t, s') { LockSeen(s, t, s'); }
    else if NotifyStep(s, t, s') { NotifySeen(s, t, s'); }
    else if s.pc[t].RxPeek? { PeekSeen(s, t, s'); }
    else if s.pc[t].RxPop? { PopSeen(s, t, s'); }
    else { RelSeen(s, t, s'); }
  }

  lemma KindOfStep(s: State, t: nat, s': State)
    requires Shape(s) && t < |s.pc|
    ensures NotifyStep(s, t, s') ==> !s.pc[t].RxPop?
    ensures ConsumeStep(s, t, s') ==> s.pc[t].RxPeek? || s.pc[t].RxPop? || s.pc[t].RxRel? || s.pc[t].RxHave?
  {
    hide PoolMoves, QueueMoves;
  }

  // ----- Runs -----

  /** One step: thread `t` moves, and the calls of the others stand where they stood. */
  ghost predicate MovesOnly(s: State, t: nat, s': State)
    requires Shape(s) && Shape(s')
  {
    && t < |s.pc| == |s'.pc| && Seen(s, t, s')
    && forall u :: 0 <= u < |s.pc| && u != t ==> PhaseAt(s', u) == PhaseAt(s, u)
  }

  ghost predicate Moved(s: State, s': State)
    requires Shape(s) && Shape(s')
  {
    exists t :: MovesOnly(s, t, s')
  }

  lemma OthersStay(s: State, t: nat, s': State, u: nat)
    requires Shape(s) && t < |s.pc| && u < |s.pc| && u != t && Frame(s, t, s')
    ensures Shape(s') && u < |s'.pc| && PhaseAt(s', u) == PhaseAt(s, u)
  {
    hide PhaseOf;
  }

  lemma StepRefines(s: State, t: nat, s': State)
    requires Inv(s) && More(s) && t < |s.pc| && Step(s, t, s')
    ensures Shape(s') && MovesOnly(s, t, s') && More(s')
  {
    assert Linked(s);
    LinkedShape(s);
    hide Inv, Linked, Step, Frame, Seen, Fits, Ordered, ThreadOk, PhaseAt, Changes;
    InvFrame(s, t, s');
    FrameShape(s, t, s');
    FramePc(s, t, s');
    StepSeen(s, t, s');
    forall u | 0 <= u < |s.pc| && u != t ensures PhaseAt(s', u) == PhaseAt(s, u) { OthersStay(s, t, s', u); }
    MoreKept(s, t, s');
  }

  lemma InvFrame(s: State, t: nat, s': State)
    requires Inv(s) && t < |s.pc| && Step(s, t, s')
    ensures Shape(s) && ThreadOk(s, t) && Frame(s, t, s')
  {
    assert Linked(s) && ThreadOk(s, t);
    hide Step, Linked, ThreadOk, Frame, QueuesOk, NoLeak, OrderOk;
    StepFrame(s, t, s');
  }

  lemma FramePc(s: State, t: nat, s': State)
    requires Shape(s) && t < |s.pc| && Frame(s, t, s')
    ensures |s'.pc| == |s.pc| && s'.pc == s.pc[t := s'.pc[t]]
  {
  }

  lemma OrderedStep(s: State, t: nat, s': State)
    requires Shape(s) && t < |s.pc| && Step(s, t, s') && Ordered(s.subs)
    ensures Ordered(s'.subs)
  {
    hide L.Step, M.Step, Q.Step, QueueMoves, PoolMoves, LockMoves, Changed, Ordered, Changes;
    Constants(s, t, s');
    if s.pc[t].SubChange? { ChangedOrdered(s, s.pc[t].sub, s.pc[t].add); }
  }

  lemma ChangedOrdered(s: State, sub: Sub, add: bool)
    requires Ordered(s.subs)
    ensures Ordered(Changed(s, sub, add))
  {
    ChangedProper(s, sub, add);
  }

  lemma MoreKept(s: State, t: nat, s': State)
    requires More(s) && Shape(s') && t < |s.pc| && Step(s, t, s') && |s'.pc| == |s.pc| && s'.pc == s.pc[t := s'.pc[t]]
    ensures More(s')
  {
    hide Step, Ordered;
    Constants(s, t, s');
    OrderedStep(s, t, s');
    forall u | 0 <= u < |s'.pc| ensures Fits(s', u) {
      assert Fits(s, u);
      if u == t { FitsStep(s, t, s'); }
    }
  }

  lemma InitMore(s: State)
    requires Init(s)
    ensures More(s)
  {
  }

  lemma {:induction false} RunMore(run: seq<State>, i: nat)
    requires Run(run) && i < |run| && Init(run[0])
    ensures Inv(run[i]) && More(run[i])
  {
    hide Step, Inv, More, Init;
    RunInv(run, i);
    if i == 0 {
      InitMore(run[0]);
    } else {
      RunMore(run, i - 1);
      assert Next(run[i - 1], run[i]);
      var t :| 0 <= t < |run[i - 1].pc| && Step(run[i - 1], t, run[i]);
      StepRefines(run[i - 1], t, run[i]);
    }
  }

  lemma StartsEmpty(s: State)
    requires Init(s)
    ensures BusOf(s).subs == [] && BusOf(s).log == [] && forall q :: 0 <= q < |s.rxqs| ==> BusOf(s).taken[q] == 0
    ensures forall t :: 0 <= t < |s.pc| ==> PhaseAt(s, t) == Out
  {
  }

  lemma MoreShape(s: State)
    requires More(s)
    ensures Shape(s)
  {
  }

  /** In every interleaving the application sees the bus as that log: it starts empty, and each step is
      one of its steps, by one thread, or changes nothing the application sees. */
  lemma RunRefines(run: seq<State>, i: nat)
    requires Run(run) && i + 1 < |run| && Init(run[0])
    ensures Shape(run[0]) && Shape(run[i]) && Shape(run[i + 1]) && Moved(run[i], run[i + 1])
    ensures BusOf(run[0]).subs == [] && BusOf(run[0]).log == []
    ensures forall q :: 0 <= q < |run[0].rxqs| ==> BusOf(run[0]).taken[q] == 0
    ensures forall t :: 0 <= t < |run[0].pc| ==> PhaseAt(run[0], t) == Out
  {
    hide Step, Inv, More, Init, MovesOnly, PhaseAt, BusOf;
    RunMore(run, 0);
    RunMore(run, i);
    MoreShape(run[0]);
    StartsEmpty(run[0]);
    var s, s' := run[i], run[i + 1];
    assert Next(run[i + 1 - 1], run[i + 1]);
    var t :| 0 <= t < |s.pc| && Step(s, t, s');
    StepRefines(s, t, s');
    MoreShape(s);
  }

  // ----- What that means for whole runs -----

  predicate Reserves(x: PC, size: nat) {
    (x.Rsv? && x.size == size) || (x.RsvReq? && x.size == size) || (x.Reserved? && x.size == size)
  }

  /** How many pools a reservation has looked at. */
  function LookedAt(x: PC): nat {
    match x
    case Rsv(i, _) => i
    case RsvReq(i, _, _) => i
    case Reserved(bp, _, _) => bp
    case _ => 0
  }

  /** In the same call as at `i`, thread `t` has looked at pool `p`, and it was too small or full. */
  ghost predicate Unfit(run: seq<State>, i: nat, t: nat, p: nat, size: nat)
    requires i < |run|
  {
    exists k :: 0 <= k < i && UnfitAt(run[k], t, p, size) && CallGoesOn(run, k, i, t, size)
  }

  predicate UnfitAt(s: State, t: nat, p: nat, size: nat) {
    && t < |s.pc| && p < |s.pools| && p < |s.eltSize| && s.pc[t] == Rsv(p, size)
    && (s.eltSize[p] < size || |s.pools[p].alloc| == s.pools[p].max)
  }

  ghost predicate CallGoesOn(run: seq<State>, k: nat, i: nat, t: nat, size: nat)
    requires i < |run|
  {
    forall m :: k <= m <= i ==> t < |run[m].pc| && Reserves(run[m].pc[t], size)
  }

  /** A reservation step goes on from the pool it is at, or goes past it because it is unfit. */
  lemma ReserveOne(s: State, t: nat, s': State)
    requires Shape(s) && t < |s.pc| && t < |s'.pc| && Step(s, t, s')
    ensures var x, y := s.pc[t], s'.pc[t];
      && ((y.Rsv? || y.RsvReq? || y.Reserved?) && !(y.Rsv? && y.i == 0) ==>
            && Reserves(x, y.size)
            && (LookedAt(y) == LookedAt(x) || (LookedAt(y) == LookedAt(x) + 1 && UnfitAt(s, t, LookedAt(x), y.size))))
      && (x.Rsv? && y.Idle? ==> x.i >= |s.pools|)
  {
    hide Step, M.Step, PoolMoves;
    if !ReserveStep(s, t, s') { NotReserving(s, t, s'); }
  }

  lemma UnfitLater(run: seq<State>, i: nat, t: nat, p: nat, size: nat)
    requires i + 1 < |run| && Unfit(run, i, t, p, size)
    requires t < |run[i + 1].pc| && Reserves(run[i + 1].pc[t], size)
    ensures Unfit(run, i + 1, t, p, size)
  {
    hide UnfitAt, Reserves;
    var k :| 0 <= k < i && UnfitAt(run[k], t, p, size) && CallGoesOn(run, k, i, t, size);
    assert CallGoesOn(run, k, i + 1, t, size);
  }

  /** A reservation has found every pool before the one it is at unfit when it looked at it. */
  lemma {:induction false} PoolsUnfit(run: seq<State>, i: nat, t: nat, p: nat, size: nat)
    requires Run(run) && i < |run| && Init(run[0]) && t < |run[i].pc|
    requires Reserves(run[i].pc[t], size) && p < LookedAt(run[i].pc[t])
    ensures Unfit(run, i, t, p, size)
  {
    hide Step, Unfit, UnfitAt, Init;
    if i == 0 {
      StartsIdle(run[0], t);
    } else {
      var s, s' := run[i - 1], run[i];
      RunMore(run, i - 1);
      MoreShape(s);
      assert Next(s, s');
      var u :| 0 <= u < |s.pc| && Step(s, u, s');
      SamePcs(run, i, u);
      if u == t {
        ReserveOne(s, t, s');
        if p == LookedAt(s.pc[t]) {
          UnfitNow(run, i, t, p, size);
        } else {
          PoolsUnfit(run, i - 1, t, p, size);
          UnfitLater(run, i - 1, t, p, size);
        }
      } else {
        PoolsUnfit(run, i - 1, t, p, size);
        UnfitLater(run, i - 1, t, p, size);
      }
    }
  }

  lemma UnfitNow(run: seq<State>, i: nat, t: nat, p: nat, size: nat)
    requires 0 < i < |run| && UnfitAt(run[i - 1], t, p, size) && t < |run[i].pc| && Reserves(run[i].pc[t], size)
    ensures Unfit(run, i, t, p, size)
  {
    assert CallGoesOn(run, i - 1, i, t, size);
  }

  lemma StartsIdle(s: State, t: nat)
    requires Init(s) && t < |s.pc|
    ensures s.pc[t] == Idle
  {
  }

  lemma SamePcs(run: seq<State>, i: nat, u: nat)
    requires Run(run) && 0 < i < |run| && Init(run[0]) && u < |run[i - 1].pc| && Step(run[i - 1], u, run[i])
    ensures |run[i].pc| == |run[i - 1].pc| && run[i].pc == run[i - 1].pc[u := run[i].pc[u]]
  {
    hide Step, Inv, More, Run, Init, Frame;
    RunMore(run, i - 1);
    InvFrame(run[i - 1], u, run[i]);
    FramePc(run[i - 1], u, run[i]);
  }

  /** Whoever gets a chunk after asking for `size` bytes gets one of a pool with chunks that big, and
      every pool before it was too small or full when it was looked at. */
  lemma ReservationFits(run: seq<State>, i: nat, t: nat)
    requires Run(run) && i < |run| && Init(run[0]) && t < |run[i].pc| && run[i].pc[t].Reserved?
    ensures var x := run[i].pc[t];
      && x.bp < |run[i].eltSize| && run[i].eltSize[x.bp] >= x.size
      && forall p :: 0 <= p < x.bp ==> Unfit(run, i, t, p, x.size)
  {
    hide Unfit, Run, Init;
    RunMore(run, i);
    assert Fits(run[i], t);
    var x := run[i].pc[t];
    forall p | 0 <= p < x.bp ensures Unfit(run, i, t, p, x.size) { PoolsUnfit(run, i, t, p, x.size); }
  }

  /** A reservation gives up only if every pool was too small or full when it was looked at. */
  lemma GivesUpOnlyWhen(run: seq<State>, i: nat, t: nat)
    requires Run(run) && i + 1 < |run| && Init(run[0]) && t < |run[i].pc| && t < |run[i + 1].pc|
    requires run[i].pc[t].Rsv? && run[i + 1].pc[t].Idle?
    ensures forall p :: 0 <= p < |run[i].pools| ==> Unfit(run, i, t, p, run[i].pc[t].size)
  {
    var s, s', size := run[i], run[i + 1], run[i].pc[t].size;
    RunMore(run, i);
    MoreShape(s);
    assert Next(run[i + 1 - 1], s');
    hide Unfit, Run, Init, Step;
    var u :| 0 <= u < |s.pc| && Step(s, u, s');
    RunStep(run, i, u);
    ReserveOne(s, u, s');
    forall p | 0 <= p < |s.pools| ensures Unfit(run, i, t, p, size) { PoolsUnfit(run, i, t, p, size); }
  }

  lemma RunStep(run: seq<State>, i: nat, u: nat)
    requires Run(run) && i + 1 < |run| && Init(run[0]) && u < |run[i].pc| && Step(run[i], u, run[i + 1])
    ensures |run[i + 1].pc| == |run[i].pc| && run[i + 1].pc == run[i].pc[u := run[i + 1].pc[u]]
  {
    hide Step, Run, Init;
    SamePcs(run, i + 1, u);
  }

  /** In every reachable state a change of subscriptions removes exactly the subscription, or adds it if
      there is room; the list stays in order. */
  lemma ChangeApplies(run: seq<State>, i: nat, t: nat)
    requires Run(run) && i + 1 < |run| && Init(run[0]) && t < |run[i].pc| && run[i].pc[t].SubChange?
    requires Shape(run[i]) && Step(run[i], t, run[i + 1])
    ensures var (s, s', sub) := (run[i], run[i + 1], run[i].pc[t].sub);
      && t < |s'.pc| && s'.pc[t] == SubUnlock && Ordered(s'.subs)
      && forall y :: y in s'.subs <==>
        if run[i].pc[t].add then y in s.subs || (y == sub && |s.subs| < s.maxSubs) else y in s.subs && y != sub
  {
    var s := run[i];
    RunMore(run, i);
    ChangedProper(s, s.pc[t].sub, s.pc[t].add);
    hide Inv, More, Run, Changed, ReserveStep, NotifyStep, LockStep, ConsumeStep;
    SubChangeStep(s, t, run[i + 1]);
  }

  lemma SubChangeStep(s: State, t: nat, s': State)
    requires Shape(s) && t < |s.pc| && s.pc[t].SubChange? && Step(s, t, s')
    ensures s' == Goto(s, t, SubUnlock).(subs := Changed(s, s.pc[t].sub, s.pc[t].add))
  {
  }

  /** Every entry a queue has been sent is a publication whose PID it was subscribed to at the time. */
  lemma {:induction false} DeliveredFrom(log: seq<Pub>, q: nat, k: nat) returns (i: nat)
    requires k < |Delivered(log, q)|
    ensures i < |log| && Sub(log[i].e.pid, q) in log[i].to && log[i].e == Delivered(log, q)[k] && Place(log, i, q) == k
  {
    var n := |log| - 1;
    var init := log[..n];
    if k < |Delivered(init, q)| {
      i := DeliveredFrom(init, q, k);
      assert init[..i] == log[..i];
    } else {
      i := n;
    }
  }

  lemma SentOnlyIfSubscribed(run: seq<State>, n: nat, q: nat, k: nat) returns (i: nat)
    requires Run(run) && n < |run| && Init(run[0]) && q < |run[n].rxqs| && k < |run[n].rxqs[q].impl.pushed|
    ensures var log := run[n].log;
      && i < |log| && Sub(log[i].e.pid, q) in log[i].to && log[i].e == run[n].rxqs[q].impl.pushed[k]
      && Place(log, i, q) == k
  {
    hide Run, Init, Delivered, SentTo, Place, Inside;
    GlobalOrder(run, n, q);
    SentPrefix(run[n].log, Holder(run[n]), q);
    i := DeliveredFrom(run[n].log, q, k);
  }

  /** What a consumer is handed is the next publication for its queue, in the one order of all. */
  lemma ReadsInOrder(run: seq<State>, n: nat, t: nat)
    requires Run(run) && n < |run| && Init(run[0]) && t < |run[n].pc| && run[n].pc[t].RxHave?
    ensures var (s, x) := (run[n], run[n].pc[t]);
      && x.q < |s.rxqs|
      && var k := |s.rxqs[x.q].impl.popped|;
      k < |Delivered(s.log, x.q)| && Delivered(s.log, x.q)[k] == x.e
  {
    RunInv(run, n);
    hide Run, Init, Linked, QueuesOk, OrderOk, Delivered;
    InHand(run[n], t, run[n].pc[t].q, run[n].pc[t].e);
  }
}
