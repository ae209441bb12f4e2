/** The software bus of `src/swbus/swbus.c` in synchronous mode: any number of publishers,
    subscribers and consumers, over the lock, the pools and the queues it is built on. Every step
    of those is a step of the bus. */
module Swbus {
  import opened Rbuffer
  import L = Rdwrlock
  import M = Mpool
  import Q = Pcqueue

  /** `struct swbus_rxq_ent`: a chunk of a pool, and what was published in it. */
  datatype Entry = Entry(bp: nat, data: nat, size: nat, pid: int)

  /** `struct swbus_sub`. */
  datatype Sub = Sub(pid: int, queue: nat)

  /** A receive queue and the one thread that waits on it and pops from it. */
  datatype Rxq = Rxq(impl: Q.State<Entry>, consumer: nat)

  /** A publication, with the subscriptions at the time. */
  datatype Pub = Pub(e: Entry, to: seq<Sub>)

  datatype PC =
    | Idle
    // swbus_publish_reserve: at pool `i`, then inside `mpool_req`
    | Rsv(i: nat, size: nat) | RsvReq(i: nat, size: nat, got: Option<nat>)
    | Reserved(bp: nat, data: nat, size: nat)
    // swbus_publish_release: `k` counts the subscriptions dealt with
    | PubMutex(e: Entry) | PubEnter(e: Entry) | PubLoop(e: Entry, k: nat)
    | PubPush(e: Entry, k: nat, q: nat, added: bool) | PubRef(e: Entry, k: nat, q: nat, counted: bool)
    | PubRel(e: Entry, dropped: bool) | PubExit | PubUnlock
    // swbus_rxq_wait or swbus_rxq_timedwait, then swbus_rxq_pop_front
    | RxPeek(q: nat) | RxEnter(q: nat, e: Entry) | RxExit(q: nat, e: Entry)
    | RxHave(q: nat, e: Entry) | RxRel(q: nat, e: Entry, dropped: bool) | RxPop(q: nat, e: Entry, taken: bool)
    // swbus_subscribe and swbus_unsubscribe
    | SubMutex(sub: Sub, add: bool) | SubChange(sub: Sub, add: bool) | SubUnlock

  /** `mutex` names its holder; `log` records the publications in order. */
  datatype State = State(lock: L.State, pools: seq<M.State>, eltSize: seq<nat>, rxqs: seq<Rxq>, maxSubs: nat,
                         mutex: Option<nat>, subs: seq<Sub>, pc: seq<PC>, log: seq<Pub>)

  /** All parts know the same threads. */
  predicate Shape(s: State) {
    && |s.lock.pc| == |s.pc| && |s.eltSize| == |s.pools|
    && (forall p :: 0 <= p < |s.pools| ==> |s.pools[p].pc| == |s.pc|)
    && (forall q :: 0 <= q < |s.rxqs| ==> |s.rxqs[q].impl.pc| == |s.pc| && s.rxqs[q].consumer < |s.pc|)
  }

  predicate Init(s: State) {
    && Shape(s) && L.Init(s.lock) && s.mutex == None && s.subs == [] && s.log == []
    && (forall p :: 0 <= p < |s.pools| ==> M.Init(s.pools[p]))
    && (forall q :: 0 <= q < |s.rxqs| ==> Q.Init(s.rxqs[q].impl))
    && forall t :: 0 <= t < |s.pc| ==> s.pc[t] == Idle
  }

  // ----- The list of subscribers -----

  /** `swbus_sub_cmp`; queues compare by their place. */
  predicate Less(a: Sub, b: Sub) { a.pid < b.pid || (a.pid == b.pid && a.queue < b.queue) }

  /** `llist_append` to a sorted list. */
  function Inserted(subs: seq<Sub>, x: Sub): seq<Sub> {
    if subs == [] then [x] else if Less(x, subs[0]) then [x] + subs else [subs[0]] + Inserted(subs[1..], x)
  }

  /** `llist_delete` of the node that `llist_node_query` finds. */
  function Deleted(subs: seq<Sub>, x: Sub): seq<Sub> {
    if subs == [] then [] else if subs[0] == x then subs[1..] else [subs[0]] + Deleted(subs[1..], x)
  }

  function Changed(s: State, sub: Sub, add: bool): seq<Sub> {
    if !add then Deleted(s.subs, sub)
    else if |s.subs| >= s.maxSubs || sub in s.subs then s.subs
    else Inserted(s.subs, sub)
  }

  // ----- Calls into the parts -----

  function Goto(s: State, t: nat, x: PC): State
    requires t < |s.pc|
  {
    s.(pc := s.pc[t := x])
  }

  /** Thread `t` begins the call that starts at `first`, or goes on with it. */
  predicate LockMoves(l: L.State, t: nat, first: L.PC, l': L.State)
    requires t < |l.pc|
  {
    L.Step(l, t, l') && t < |l'.pc| && (l.pc[t].Idle? ==> l'.pc[t] == first)
  }

  predicate PoolMoves(m: M.State, t: nat, first: M.PC, m': M.State)
    requires t < |m.pc|
  {
    t < |m'.pc| && if m.pc[t].Idle? then m' == M.Goto(m, t, first) else M.Step(m, t, m')
  }

  predicate QueueMoves(q: Q.State<Entry>, t: nat, first: Q.PC<Entry>, q': Q.State<Entry>)
    requires t < |q.pc|
  {
    t < |q'.pc| && if q.pc[t].Idle? then q' == Q.Goto(q, t, first) else Q.Step(q, t, q')
  }

  function WithPool(s: State, p: nat, m: M.State): State
    requires p < |s.pools|
  {
    s.(pools := s.pools[p := m])
  }

  function WithQueue(s: State, q: nat, impl: Q.State<Entry>): State
    requires q < |s.rxqs|
  {
    s.(rxqs := s.rxqs[q := s.rxqs[q].(impl := impl)])
  }

  // ----- The steps -----

  predicate BeginStep(s: State, t: nat, s': State)
    requires t < |s.pc|
  {
    && t < |s'.pc| && s' == Goto(s, t, s'.pc[t])
    && var x := s'.pc[t];
    || (x.Rsv? && x.i == 0)
    || (x.RxPeek? && x.q < |s.rxqs| && s.rxqs[x.q].consumer == t)
    || (x.SubMutex? && x.sub.queue < |s.rxqs|)
  }

  /** The pools are tried in turn; too small and full ones are skipped. */
  predicate ReserveStep(s: State, t: nat, s': State)
    requires Shape(s) && t < |s.pc|
  {
    match s.pc[t]
    case Rsv(i, size) =>
      s' == Goto(s, t, if i >= |s.pools| then Idle
                       else if s.eltSize[i] < size || |s.pools[i].alloc| == s.pools[i].max then Rsv(i + 1, size)
                       else RsvReq(i, size, None))
    case RsvReq(i, size, got) =>
      && i < |s.pools| == |s'.pools| && PoolMoves(s.pools[i], t, M.ReqWait(false), s'.pools[i])
      && var y := s'.pools[i].pc[t];
      s' == Goto(WithPool(s, i, s'.pools[i]), t,
                 if y.Idle? && got.Some? then Reserved(i, got.value, size)
                 else RsvReq(i, size, if y.ReqUnlock? then Some(y.got) else None))
    case Reserved(bp, data, _) =>
      && t < |s'.pc| && s'.pc[t].PubMutex? && s'.pc[t].e.bp == bp && s'.pc[t].e.data == data
      && s' == Goto(s, t, s'.pc[t])
    case _ => false
  }

  predicate MutexStep(s: State, t: nat, s': State)
    requires t < |s.pc|
  {
    match s.pc[t]
    case PubMutex(e) => s.mutex.None? && s' == Goto(s, t, PubEnter(e)).(mutex := Some(t))
    case PubUnlock => s' == Goto(s, t, Idle).(mutex := None)
    case SubMutex(sub, add) => s.mutex.None? && s' == Goto(s, t, SubChange(sub, add)).(mutex := Some(t))
    case SubChange(sub, add) => s' == Goto(s, t, SubUnlock).(subs := Changed(s, sub, add))
    case SubUnlock => s' == Goto(s, t, Idle).(mutex := None)
    case _ => false
  }

  /** The publisher writes, the consumers read; a publication is logged when the writer is in. */
  predicate LockStep(s: State, t: nat, s': State)
    requires Shape(s) && t < |s.pc|
  {
    match s.pc[t]
    case PubEnter(e) =>
      && LockMoves(s.lock, t, L.WOrder, s'.lock)
      && var inside := s'.lock.pc[t].Writing?;
      s' == Goto(s, t, if inside then PubLoop(e, 0) else PubEnter(e))
              .(lock := s'.lock, log := if inside then s.log + [Pub(e, s.subs)] else s.log)
    case PubExit => LockMoves(s.lock, t, L.Idle, s'.lock) && s' == Goto(s, t, PubUnlock).(lock := s'.lock)
    case RxEnter(q, e) =>
      && LockMoves(s.lock, t, L.ROrder(false), s'.lock)
      && s' == Goto(s, t, if s'.lock.pc[t].Reading? then RxExit(q, e) else RxEnter(q, e)).(lock := s'.lock)
    case RxExit(q, e) =>
      && LockMoves(s.lock, t, L.Idle, s'.lock)
      && s' == Goto(s, t, if s'.lock.pc[t].Idle? then RxHave(q, e) else RxExit(q, e)).(lock := s'.lock)
    case _ => false
  }

  /** `swbus_subscriber_notify` for every subscription to the packet, then the release. */
  predicate NotifyStep(s: State, t: nat, s': State)
    requires Shape(s) && t < |s.pc|
  {
    match s.pc[t]
    case PubLoop(e, k) =>
      s' == Goto(s, t, if k >= |s.subs| then PubRel(e, false)
                       else if s.subs[k].pid == e.pid then PubPush(e, k, s.subs[k].queue, false)
                       else PubLoop(e, k + 1))
    case PubPush(e, k, q, added) =>
      && q < |s.rxqs| == |s'.rxqs| && QueueMoves(s.rxqs[q].impl, t, Q.PushWait(e), s'.rxqs[q].impl)
      && var y := s'.rxqs[q].impl.pc[t];
      s' == Goto(WithQueue(s, q, s'.rxqs[q].impl), t,
                 if y.Idle? then (if added then PubRef(e, k, q, false) else PubLoop(e, k + 1))
                 else PubPush(e, k, q, (y.PushUnlock? && y.ok) || y.PushPost?))
    case PubRef(e, k, q, counted) =>
      && e.bp < |s.pools| == |s'.pools| && PoolMoves(s.pools[e.bp], t, M.RefLock(e.data, 1), s'.pools[e.bp])
      && var y := s'.pools[e.bp].pc[t];
      s' == Goto(WithPool(s, e.bp, s'.pools[e.bp]), t,
                 if y.Idle? then PubLoop(e, k + 1) else PubRef(e, k, q, y.RefUnlock? && y.ok))
    case PubRel(e, dropped) =>
      && e.bp < |s.pools| == |s'.pools| && PoolMoves(s.pools[e.bp], t, M.RelQuery(e.data), s'.pools[e.bp])
      && var y := s'.pools[e.bp].pc[t];
      s' == Goto(WithPool(s, e.bp, s'.pools[e.bp]), t,
                 if y.Idle? then PubExit else PubRel(e, y.RelPost? || y.RelUnlock?))
    case _ => false
  }

  predicate ConsumeStep(s: State, t: nat, s': State)
    requires Shape(s) && t < |s.pc|
  {
    match s.pc[t]
    case RxPeek(q) =>
      && q < |s.rxqs| == |s'.rxqs|
      && var x := s.rxqs[q].impl.pc[t];
      && (QueueMoves(s.rxqs[q].impl, t, Q.PeekWait(false), s'.rxqs[q].impl)
          || QueueMoves(s.rxqs[q].impl, t, Q.PeekWait(true), s'.rxqs[q].impl))
      && s' == Goto(WithQueue(s, q, s'.rxqs[q].impl), t,
                    if !s'.rxqs[q].impl.pc[t].Idle? then RxPeek(q)
                    else if x.PeekPost? && x.seen.Some? then RxEnter(q, x.seen.value) else Idle)
    case RxHave(q, e) => s' == Goto(s, t, RxRel(q, e, false))
    case RxRel(q, e, dropped) =>
      && e.bp < |s.pools| == |s'.pools| && PoolMoves(s.pools[e.bp], t, M.RelQuery(e.data), s'.pools[e.bp])
      && var y := s'.pools[e.bp].pc[t];
      s' == Goto(WithPool(s, e.bp, s'.pools[e.bp]), t,
                 if y.Idle? then (if dropped then RxPop(q, e, false) else Idle)
                   else RxRel(q, e, y.RelPost? || y.RelUnlock?))
    case RxPop(q, e, taken) =>
      && q < |s.rxqs| == |s'.rxqs| && QueueMoves(s.rxqs[q].impl, t, Q.PopWait(false), s'.rxqs[q].impl)
      && var y := s'.rxqs[q].impl.pc[t];
      s' == Goto(WithQueue(s, q, s'.rxqs[q].impl), t,
                 if y.Idle? then Idle else RxPop(q, e, y.PopUnlock? || y.PopPost?))
    case _ => false
  }

  predicate Step(s: State, t: nat, s': State)
    requires Shape(s) && t < |s.pc|
  {
    if s.pc[t].Idle? then BeginStep(s, t, s')
    else
      || ReserveStep(s, t, s') || MutexStep(s, t, s') || LockStep(s, t, s')
      || NotifyStep(s, t, s') || ConsumeStep(s, t, s')
  }

  predicate Next(s: State, s': State) {
    Shape(s) && exists t :: 0 <= t < |s.pc| && Step(s, t, s')
  }
}
