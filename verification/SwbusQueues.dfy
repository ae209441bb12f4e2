/** What is in the receive queues of the bus while entries are pushed, counted, released and
    popped. */
module SwbusQueues {
  import opened Threads
  import opened Rbuffer
  import opened Swbus
  import opened SwbusLinks
  import L = Rdwrlock
  import M = Mpool
  import Q = Pcqueue

  /** The thread in the mutex of the bus. */
  function Holder(s: State): PC {
    if s.mutex.Some? && s.mutex.value < |s.pc| then s.pc[s.mutex.value] else Idle
  }

  /** The entry the publisher has pushed to queue `q` without having added its reference yet. */
  function LateAt(x: PC, q: nat): Option<Entry> {
    if (x.PubPush? && x.q == q && x.added) || (x.PubRef? && x.q == q && !x.counted) then Some(x.e) else None
  }

  /** The front entry of queue `q` the consumer has looked at and not yet popped. */
  function FrontAt(x: PC, q: nat): Option<Entry> {
    if Front(x).Some? && Front(x).value.0 == q then Some(Front(x).value.1) else None
  }

  /** The consumer has been let in as a reader since it looked. */
  predicate CheckedAt(x: PC, q: nat) {
    (x.RxExit? || x.RxHave? || x.RxRel? || (x.RxPop? && !x.taken)) && x.q == q
  }

  /** The consumer has given up the reference of the front entry and not yet popped it. */
  predicate ReleasedAt(x: PC, q: nat) {
    (x.RxRel? && x.q == q && x.dropped) || (x.RxPop? && x.q == q && !x.taken)
  }

  function SeenAt(y: Q.PC<Entry>): Option<Entry> {
    if y.PeekUnlock? || y.PeekPost? then y.seen else None
  }

  /** A queue with what its consumer and the publisher are doing to it. */
  datatype View = View(f: seq<Entry>, seen: Option<Entry>, front: Option<Entry>, checked: bool, released: bool,
                       late: Option<Entry>)

  function ViewOf(s: State, q: nat): View
    requires Shape(s) && q < |s.rxqs|
  {
    var r := s.rxqs[q];
    var x := s.pc[r.consumer];
    View(r.impl.fifo, SeenAt(r.impl.pc[r.consumer]), FrontAt(x, q), CheckedAt(x, q), ReleasedAt(x, q),
      LateAt(Holder(s), q))
  }

  predicate ViewOk(v: View) {
    && (v.seen.Some? ==> v.f != [] && v.f[0] == v.seen.value)
    && (v.front.Some? ==> v.f != [] && v.f[0] == v.front.value)
    && (v.checked ==> v.front.Some? && (v.late.Some? ==> |v.f| >= 2))
    && (v.released ==> v.checked)
    && (v.late.Some? ==> v.f != [] && v.f[|v.f| - 1] == v.late.value)
  }

  /** The entries whose reference is counted and not yet given up. */
  function NeededIn(v: View): seq<Entry> {
    var f := if v.late.Some? && v.f != [] then v.f[..|v.f| - 1] else v.f;
    if v.released && f != [] then f[1..] else f
  }

  predicate Chunks(s: State, f: seq<Entry>) {
    forall i :: 0 <= i < |f| ==> IsChunk(s, f[i].bp, f[i].data)
  }

  predicate QueueOk(s: State, q: nat)
    requires Shape(s) && q < |s.rxqs|
  {
    Chunks(s, s.rxqs[q].impl.fifo) && ViewOk(ViewOf(s, q))
  }

  ghost predicate QueuesOk(s: State)
    requires Shape(s)
  {
    forall q :: 0 <= q < |s.rxqs| ==> QueueOk(s, q)
  }

  function Needed(s: State, q: nat): seq<Entry>
    requires Shape(s) && q < |s.rxqs|
  {
    NeededIn(ViewOf(s, q))
  }

  /** What each step does to the view of the queue it is about. */
  function Pushed(v: View, e: Entry): View { v.(f := v.f + [e], late := Some(e)) }
  function Counted(v: View): View { v.(late := None) }
  function Seen(v: View): View { v.(seen := FifoFront(v.f)) }
  function Looked(v: View): View { v.(seen := None, front := v.seen) }
  function Admitted(v: View): View { v.(checked := true) }
  function GivenUp(v: View): View { v.(released := true) }
  function Popped(v: View): View
    requires v.f != []
  {
    v.(f := v.f[1..], front := None, checked := false, released := false)
  }

  lemma PushedOk(v: View, e: Entry)
    requires ViewOk(v) && v.late.None?
    ensures ViewOk(Pushed(v, e)) && NeededIn(Pushed(v, e)) == NeededIn(v)
  {
    assert (v.f + [e])[..|v.f|] == v.f;
  }

  lemma CountedOk(v: View)
    requires ViewOk(v) && v.late.Some?
    ensures ViewOk(Counted(v)) && NeededIn(Counted(v)) == NeededIn(v) + [v.late.value]
  {
    assert v.f == v.f[..|v.f| - 1] + [v.late.value];
  }

  lemma LookedOk(v: View)
    requires ViewOk(v) && !v.checked
    ensures ViewOk(Looked(v)) && NeededIn(Looked(v)) == NeededIn(v)
    ensures ViewOk(Seen(v)) && NeededIn(Seen(v)) == NeededIn(v)
  {
  }

  lemma AdmittedOk(v: View)
    requires ViewOk(v) && v.front.Some? && v.late.None?
    ensures ViewOk(Admitted(v)) && NeededIn(Admitted(v)) == NeededIn(v)
  {
  }

  lemma GivenUpOk(v: View)
    requires ViewOk(v) && v.checked && !v.released
    ensures ViewOk(GivenUp(v)) && NeededIn(v) == [v.front.value] + NeededIn(GivenUp(v))
  {
  }

  lemma PoppedOk(v: View)
    requires ViewOk(v) && v.released && v.seen.None?
    ensures ViewOk(Popped(v)) && NeededIn(Popped(v)) == NeededIn(v)
  {
  }

  /** Which queue the step is about, if any. */
  function About(x: PC): Option<nat> {
    match x
    case PubPush(_, _, q, _) => Some(q)
    case PubRef(_, _, q, _) => Some(q)
    case RxPeek(q) => Some(q)
    case RxEnter(q, _) => Some(q)
    case RxRel(q, _, _) => Some(q)
    case RxPop(q, _, _) => Some(q)
    case _ => None
  }

  /** What a thread has to do with queue `q` is what it was. */
  predicate Elsewhere(x: PC, x': PC, q: nat) {
    && LateAt(x', q) == LateAt(x, q) == None && FrontAt(x', q) == FrontAt(x, q)
    && CheckedAt(x', q) == CheckedAt(x, q) && ReleasedAt(x', q) == ReleasedAt(x, q)
  }

  lemma PublishElsewhere(s: State, t: nat, s': State, q: nat)
    requires Shape(s) && t < |s.pc| && q < |s.rxqs| && About(s.pc[t]) != Some(q) && t < |s'.pc|
    requires (s.pc[t].Idle? && BeginStep(s, t, s')) || ReserveStep(s, t, s') || NotifyStep(s, t, s')
    ensures q < |s'.rxqs| && s'.rxqs[q] == s.rxqs[q] && Elsewhere(s.pc[t], s'.pc[t], q)
  {
    hide L.Step, M.Step, Q.Step, PoolMoves, QueueMoves, LockMoves;
  }

  lemma LockElsewhere(s: State, t: nat, s': State, q: nat)
    requires Shape(s) && t < |s.pc| && q < |s.rxqs| && About(s.pc[t]) != Some(q) && t < |s'.pc|
    requires MutexStep(s, t, s') || LockStep(s, t, s')
    ensures q < |s'.rxqs| && s'.rxqs[q] == s.rxqs[q] && Elsewhere(s.pc[t], s'.pc[t], q)
  {
    hide L.Step, LockMoves, Changed;
  }

  lemma ConsumeElsewhere(s: State, t: nat, s': State, q: nat)
    requires Shape(s) && t < |s.pc| && q < |s.rxqs| && About(s.pc[t]) != Some(q) && t < |s'.pc|
    requires ConsumeStep(s, t, s')
    ensures q < |s'.rxqs| && s'.rxqs[q] == s.rxqs[q] && Elsewhere(s.pc[t], s'.pc[t], q)
  {
    hide M.Step, Q.Step, PoolMoves, QueueMoves;
  }

  lemma StepElsewhere(s: State, t: nat, s': State, q: nat)
    requires Shape(s) && t < |s.pc| && Step(s, t, s') && Frame(s, t, s') && q < |s.rxqs| && About(s.pc[t]) != Some(q)
    ensures q < |s'.rxqs| && s'.rxqs[q] == s.rxqs[q] && Elsewhere(s.pc[t], s'.pc[t], q)
  {
    hide ThreadOk, BeginStep, ReserveStep, NotifyStep, MutexStep, LockStep, ConsumeStep, Elsewhere;
    if (s.pc[t].Idle? && BeginStep(s, t, s')) || ReserveStep(s, t, s') || NotifyStep(s, t, s') {
      PublishElsewhere(s, t, s', q);
    } else if ConsumeStep(s, t, s') {
      ConsumeElsewhere(s, t, s', q);
    } else {
      LockElsewhere(s, t, s', q);
    }
  }

  /** The holder stays as it is, or is the thread that moves. */
  lemma HolderMoves(s: State, t: nat, s': State, q: nat)
    requires Shape(s) && t < |s.pc| && Frame(s, t, s')
    requires LateAt(s.pc[t], q).None? && LateAt(s'.pc[t], q).None?
    ensures LateAt(Holder(s'), q) == LateAt(Holder(s), q)
  {
  }

  lemma ElsewhereOk(s: State, t: nat, s': State, q: nat)
    requires Shape(s) && t < |s.pc| && Step(s, t, s') && Frame(s, t, s') && q < |s.rxqs| && About(s.pc[t]) != Some(q)
    requires QueueOk(s, q)
    ensures Shape(s') && q < |s'.rxqs| && QueueOk(s', q) && Needed(s', q) == Needed(s, q)
  {
    StepElsewhere(s, t, s', q);
    HolderMoves(s, t, s', q);
    hide Step, FrontAt, CheckedAt, ReleasedAt, LateAt;
  }

  // ----- The queue a step is about -----

  /** What a call on a queue does to its elements. */
  lemma FifoMoves(q: Q.State<Entry>, t: nat, first: Q.PC<Entry>, q': Q.State<Entry>)
    requires t < |q.pc| && Q.Inv(q) && QueueMoves(q, t, first, q')
    requires first.PushWait? || first.PopWait? || first.PeekWait?
    ensures
      if q.pc[t].PushAdd? then q'.fifo == q.fifo + [q.pc[t].e] && q'.pushed == q.pushed + [q.pc[t].e]
        && q'.pc[t] == Q.PushUnlock(true)
      else if q.pc[t].PopTake? then q.fifo != [] && q'.fifo == q.fifo[1..] && q'.pushed == q.pushed
        && q'.pc[t].PopUnlock?
      else q'.fifo == q.fifo && q'.pushed == q.pushed
  {
    Q.FifoNeverFails(q, t);
  }

  lemma PushView(s: State, t: nat, s': State)
    requires Shape(s) && t < |s.pc| && ThreadOk(s, t) && Parts(s) && NotifyStep(s, t, s') && Frame(s, t, s')
    requires ThreadOk(s', t)
    requires s.pc[t].PubPush?
    ensures var q := s.pc[t].q; var adds := s.rxqs[q].impl.pc[t].PushAdd?;
      && ViewOf(s', q) == (if adds then Pushed(ViewOf(s, q), s.pc[t].e) else ViewOf(s, q))
      && (adds ==> ViewOf(s, q).late.None?)
  {
    hide Q.Step, Q.Inv, QueueMoves, PoolAt, LockAt, PoolMoves;
    var x := s.pc[t];
    FifoMoves(s.rxqs[x.q].impl, t, Q.PushWait(x.e), s'.rxqs[x.q].impl);
    PushMoves(s.rxqs[x.q].impl, t, x.e, s'.rxqs[x.q].impl);
  }

  lemma PushMoves(q: Q.State<Entry>, t: nat, e: Entry, q': Q.State<Entry>)
    requires t < |q.pc| && QueueMoves(q, t, Q.PushWait(e), q') && Q.Inv(q)
    requires q.pc[t].Idle? || Q.Pushing(q.pc[t])
    ensures q'.pc[t].Idle? <==> q.pc[t].PushPost? || (q.pc[t].PushUnlock? && !q.pc[t].ok)
    ensures q'.pc[t].PushUnlock? || q'.pc[t].PushPost? <==> q.pc[t].PushAdd? || (q.pc[t].PushUnlock? && q.pc[t].ok)
    ensures q'.pc[t].Idle? || Q.Pushing(q'.pc[t])
  {
  }

  lemma RefView(s: State, t: nat, s': State)
    requires Shape(s) && t < |s.pc| && ThreadOk(s, t) && NotifyStep(s, t, s') && Frame(s, t, s') && ThreadOk(s', t)
    requires s.pc[t].PubRef?
    ensures var q := s.pc[t].q; var counts := s.pools[s.pc[t].e.bp].pc[t].RefChange?;
      && ViewOf(s', q) == (if counts then Counted(ViewOf(s, q)) else ViewOf(s, q))
      && (counts ==> ViewOf(s, q).late == Some(s.pc[t].e))
  {
    hide QueueMoves, LockAt;
  }

  lemma PeekView(s: State, t: nat, s': State)
    requires Shape(s) && t < |s.pc| && ThreadOk(s, t) && Parts(s) && ConsumeStep(s, t, s') && Frame(s, t, s')
    requires ThreadOk(s', t)
    requires s.pc[t].RxPeek?
    ensures var q := s.pc[t].q; var v, y := ViewOf(s, q), s.rxqs[q].impl.pc[t];
      && !v.checked
      && ViewOf(s', q) == if y.PeekLook? then Seen(v) else if y.PeekPost? then Looked(v) else v
  {
    hide Q.Step, Q.Inv, QueueMoves, PoolAt, LockAt, PoolMoves;
    var x := s.pc[t];
    var timed := !QueueMoves(s.rxqs[x.q].impl, t, Q.PeekWait(false), s'.rxqs[x.q].impl);
    FifoMoves(s.rxqs[x.q].impl, t, Q.PeekWait(timed), s'.rxqs[x.q].impl);
    PeekMoves(s.rxqs[x.q].impl, t, timed, s'.rxqs[x.q].impl);
    PeekHolder(s, t, s');
  }

  lemma PeekHolder(s: State, t: nat, s': State)
    requires Shape(s) && t < |s.pc| && ThreadOk(s, t) && ConsumeStep(s, t, s') && Frame(s, t, s')
    ensures Holder(s') == Holder(s)
  {
    hide PoolMoves, QueueMoves, LockAt, PoolAt, QueueAt;
  }

  lemma PeekMoves(q: Q.State<Entry>, t: nat, timed: bool, q': Q.State<Entry>)
    requires t < |q.pc| && QueueMoves(q, t, Q.PeekWait(timed), q')
    requires q.pc[t].Idle? || (!Q.Pushing(q.pc[t]) && !Q.Popping(q.pc[t]))
    ensures SeenAt(q'.pc[t]) == if q.pc[t].PeekLook? then FifoFront(q.fifo)
                                else if q.pc[t].PeekPost? then None else SeenAt(q.pc[t])
    ensures q'.pc[t].Idle? ==> q.pc[t].PeekPost? || q.pc[t].PeekWait?
    ensures q.pc[t].PeekPost? ==> q'.pc[t].Idle?
  {
  }

  /** Only when no publisher is inside is a consumer let in. */
  lemma EnterView(s: State, t: nat, s': State)
    requires Shape(s) && t < |s.pc| && ThreadOk(s, t) && LockStep(s, t, s') && Frame(s, t, s') && ThreadOk(s', t)
    requires s.pc[t].RxEnter? && L.Inv(s'.lock) && forall u :: 0 <= u < |s'.pc| ==> ThreadOk(s', u)
    ensures var q := s.pc[t].q; var v := ViewOf(s, q);
      && v.front.Some?
      && (ViewOf(s', q) == v || (v.late.None? && ViewOf(s', q) == Admitted(v)))
  {
    hide PoolAt, QueueAt;
    var q := s.pc[t].q;
    if s'.lock.pc[t].Reading? {
      AtLeast(s'.lock.pc, t, L.Reads);
      if Inside(Holder(s')) {
        var h := s'.mutex.value;
        assert ThreadOk(s', h);
        AtLeast(s'.lock.pc, h, L.Writes);
        assert false;
      }
    }
    hide LockMoves, LockAt;
  }

  lemma RelView(s: State, t: nat, s': State)
    requires Shape(s) && t < |s.pc| && ThreadOk(s, t) && ConsumeStep(s, t, s') && Frame(s, t, s') && ThreadOk(s', t)
    requires s.pc[t].RxRel? && QueueOk(s, s.pc[t].q)
    ensures var q, e := s.pc[t].q, s.pc[t].e; var v := ViewOf(s, q);
      && v.checked && v.front == Some(e) && IsChunk(s, e.bp, e.data)
      && var drops := s.pools[e.bp].pc[t].RelDrop?;
      && (drops ==> !v.released && s.pools[e.bp].pc[t].c == e.data)
      && ViewOf(s', q) == if drops then GivenUp(v) else v
  {
    var q := s.pc[t].q;
    PeekHolder(s, t, s');
    assert ViewOf(s, q).front == Some(s.rxqs[q].impl.fifo[0]);
    hide QueueMoves, LockAt;
  }

  lemma PopView(s: State, t: nat, s': State)
    requires Shape(s) && t < |s.pc| && ThreadOk(s, t) && Parts(s) && ConsumeStep(s, t, s') && Frame(s, t, s')
    requires ThreadOk(s', t)
    requires s.pc[t].RxPop?
    ensures var q := s.pc[t].q; var v, pops := ViewOf(s, q), s.rxqs[q].impl.pc[t].PopTake?;
      && v.seen.None? && (pops ==> v.released && v.f != [])
      && ViewOf(s', q) == if pops then Popped(v) else v
  {
    hide Q.Step, Q.Inv, QueueMoves, PoolAt, LockAt, PoolMoves;
    var x := s.pc[t];
    FifoMoves(s.rxqs[x.q].impl, t, Q.PopWait(false), s'.rxqs[x.q].impl);
    PopMoves(s.rxqs[x.q].impl, t, s'.rxqs[x.q].impl);
    PopTaken(s.rxqs[x.q].impl, t, s'.rxqs[x.q].impl);
    PeekHolder(s, t, s');
  }

  lemma PopTaken(q: Q.State<Entry>, t: nat, q': Q.State<Entry>)
    requires t < |q.pc| && Q.Inv(q) && QueueMoves(q, t, Q.PopWait(false), q') && (q.pc[t].Idle? || Q.Popping(q.pc[t]))
    ensures q'.pc[t].PopUnlock? || q'.pc[t].PopPost? ==> q.pc[t].PopTake? || q.pc[t].PopUnlock?
    ensures q.pc[t].PopTake? ==> q'.pc[t].PopUnlock?
    ensures q.pc[t].PopUnlock? && q.pc[t].got.Some? ==> q'.pc[t].PopPost?
  {
  }

  // ----- All queues -----

  /** What a step does to the needed entries of the queue it is about. */
  datatype Change = Same | Gains(e: Entry) | Loses(e: Entry)

  function ChangeBy(s: State, t: nat): Change
    requires Shape(s) && t < |s.pc|
  {
    match s.pc[t]
    case PubRef(e, _, _, _) => if e.bp < |s.pools| && s.pools[e.bp].pc[t].RefChange? then Gains(e) else Same
    case RxRel(_, e, _) => if e.bp < |s.pools| && s.pools[e.bp].pc[t].RelDrop? then Loses(e) else Same
    case _ => Same
  }

  predicate Changes(was: seq<Entry>, change: Change, now: seq<Entry>) {
    match change
    case Same => now == was
    case Gains(e) => now == was + [e]
    case Loses(e) => was == [e] + now
  }

  lemma ChunksKept(s: State, t: nat, s': State, f: seq<Entry>)
    requires Shape(s) && t < |s.pc| && Frame(s, t, s') && Chunks(s, f)
    ensures Chunks(s', f)
  {
  }

  /** What is known of the queue and the thread, before the step and after it. */
  lemma Here(s: State, t: nat, s': State, q: nat)
    requires Linked(s) && Linked(s') && t < |s.pc| && Frame(s, t, s') && q < |s.rxqs| && QueueOk(s, q)
    ensures Shape(s) && Shape(s') && t < |s'.pc| && q < |s'.rxqs|
    ensures Parts(s) && ThreadOk(s, t) && ThreadOk(s', t) && ViewOk(ViewOf(s, q)) && Chunks(s', ViewOf(s, q).f)
    ensures ViewOk(ViewOf(s', q)) && Chunks(s', ViewOf(s', q).f) ==> QueueOk(s', q)
  {
    hide ViewOk, Parts, Pools, SubsOk, ThreadOk;
    ChunksKept(s, t, s', s.rxqs[q].impl.fifo);
  }

  lemma PoppedChunks(s: State, v: View)
    requires Chunks(s, v.f) && v.f != []
    ensures Chunks(s, Popped(v).f)
  {
    assert forall i :: 0 <= i < |Popped(v).f| ==> Popped(v).f[i] == v.f[i + 1];
  }

  lemma PublishHere(s: State, t: nat, s': State, q: nat)
    requires Linked(s) && Linked(s') && t < |s.pc| && NotifyStep(s, t, s') && Frame(s, t, s')
    requires q < |s.rxqs| && QueueOk(s, q) && About(s.pc[t]) == Some(q) && (s.pc[t].PubPush? || s.pc[t].PubRef?)
    ensures q < |s'.rxqs| && QueueOk(s', q) && Changes(Needed(s, q), ChangeBy(s, t), Needed(s', q))
  {
    hide Linked, Frame, ThreadOk, ViewOf, NotifyStep, Parts, QueueOk, Chunks, ViewOk, NeededIn;
    Here(s, t, s', q);
    var x, v := s.pc[t], ViewOf(s, q);
    if x.PubPush? {
      PushView(s, t, s');
      if s.rxqs[q].impl.pc[t].PushAdd? {
        PushedOk(v, x.e);
        PushedChunks(s, t, s', v);
      }
    } else {
      RefView(s, t, s');
      RefPool(s, t);
      if s.pools[x.e.bp].pc[t].RefChange? { CountedOk(v); }
    }
  }

  lemma EnterHere(s: State, t: nat, s': State, q: nat)
    requires Linked(s) && Linked(s') && t < |s.pc| && LockStep(s, t, s') && Frame(s, t, s')
    requires q < |s.rxqs| && QueueOk(s, q) && About(s.pc[t]) == Some(q) && s.pc[t].RxEnter?
    ensures q < |s'.rxqs| && QueueOk(s', q) && Changes(Needed(s, q), ChangeBy(s, t), Needed(s', q))
  {
    hide Frame, ThreadOk, ViewOf, LockStep, QueueOk, Chunks, ViewOk, NeededIn;
    Here(s, t, s', q);
    var x, v := s.pc[t], ViewOf(s, q);
    EnterView(s, t, s');
    if v.late.None? { AdmittedOk(v); }
  }

  lemma ConsumeHere(s: State, t: nat, s': State, q: nat)
    requires Linked(s) && Linked(s') && t < |s.pc| && ConsumeStep(s, t, s') && Frame(s, t, s')
    requires q < |s.rxqs| && QueueOk(s, q) && About(s.pc[t]) == Some(q)
    requires s.pc[t].RxPeek? || s.pc[t].RxRel? || s.pc[t].RxPop?
    ensures q < |s'.rxqs| && QueueOk(s', q) && Changes(Needed(s, q), ChangeBy(s, t), Needed(s', q))
  {
    hide Linked, Frame, ThreadOk, ViewOf, ConsumeStep, Parts, QueueOk, Chunks, ViewOk, NeededIn;
    Here(s, t, s', q);
    var x, v := s.pc[t], ViewOf(s, q);
    if x.RxPeek? {
      PeekView(s, t, s');
      LookedOk(v);
    } else if x.RxRel? {
      RelView(s, t, s');
      if s.pools[x.e.bp].pc[t].RelDrop? { GivenUpOk(v); }
    } else {
      PopView(s, t, s');
      if s.rxqs[q].impl.pc[t].PopTake? {
        PoppedOk(v);
        PoppedChunks(s', v);
      }
    }
  }

  lemma QueueHere(s: State, t: nat, s': State, q: nat)
    requires Linked(s) && Linked(s') && t < |s.pc| && Step(s, t, s') && Frame(s, t, s')
    requires q < |s.rxqs| && QueueOk(s, q) && About(s.pc[t]) == Some(q)
    ensures q < |s'.rxqs| && QueueOk(s', q) && Changes(Needed(s, q), ChangeBy(s, t), Needed(s', q))
  {
    var x := s.pc[t];
    hide Frame, Linked, QueueOk, Needed, NotifyStep, LockStep, ConsumeStep;
    if x.PubPush? || x.PubRef? {
      PublishHere(s, t, s', q);
    } else if x.RxEnter? {
      EnterHere(s, t, s', q);
    } else {
      ConsumeHere(s, t, s', q);
    }
  }

  lemma RefPool(s: State, t: nat)
    requires Shape(s) && t < |s.pc| && ThreadOk(s, t) && s.pc[t].PubRef?
    ensures s.pc[t].e.bp < |s.pools|
  {
  }

  lemma PushedChunks(s: State, t: nat, s': State, v: View)
    requires Shape(s) && t < |s.pc| && ThreadOk(s, t) && s.pc[t].PubPush? && Frame(s, t, s') && Chunks(s', v.f)
    ensures Chunks(s', Pushed(v, s.pc[t].e).f)
  {
  }

  lemma QueuesKept(s: State, t: nat, s': State)
    requires Linked(s) && Linked(s') && t < |s.pc| && Step(s, t, s') && Frame(s, t, s') && QueuesOk(s)
    ensures QueuesOk(s') && |s'.rxqs| == |s.rxqs|
    ensures forall q :: 0 <= q < |s.rxqs| ==>
      Changes(Needed(s, q), if About(s.pc[t]) == Some(q) then ChangeBy(s, t) else Same, Needed(s', q))
  {
    FrameShape(s, t, s');
    hide Frame, Step, Parts, Pools, SubsOk, ThreadOk, QueueOk, Needed;
    forall q | 0 <= q < |s.rxqs|
      ensures QueueOk(s', q)
      ensures Changes(Needed(s, q), if About(s.pc[t]) == Some(q) then ChangeBy(s, t) else Same, Needed(s', q))
    {
      if About(s.pc[t]) == Some(q) { QueueHere(s, t, s', q); } else { ElsewhereOk(s, t, s', q); }
    }
  }
}
