/** What the calls of `src/multithread/pcqueue.c` do for their callers: the queue behaves as one on
    which every push, pop and peek happens at a single moment. */
module PcqueueCalls {
  import opened Rbuffer
  import opened Pcqueue

  // ----- The queue as its callers see it -----

  datatype Op<T> = Push(e: T) | Pop | Peek

  /** A call has been made and has not happened yet; or it has, and its answer is known. `mayFail`
      is a call that can still time out. */
  datatype Phase<T> = Out | Asked(op: Op<T>, mayFail: bool) | Answered(got: Option<T>)

  datatype Atomic<T> = Atomic(max: nat, q: seq<T>, ph: seq<Phase<T>>)

  /** An operation happens: the element pushed comes last, a pop takes the first and a peek sees it. */
  predicate Happens<T(==)>(max: nat, q: seq<T>, op: Op<T>, got: Option<T>, q': seq<T>) {
    match op
    case Push(e) => |q| < max && q' == q + [e] && got == None
    case Pop => q != [] && got == Some(q[0]) && q' == q[1..]
    case Peek => q != [] && got == Some(q[0]) && q' == q
  }

  /** A thread calls, or its call happens or times out, or it gets its answer. */
  predicate Proper<T(==)>(max: nat, q: seq<T>, x: Phase<T>, q': seq<T>, y: Phase<T>) {
    match x
    case Out => q' == q && y.Asked? && (y.op.Push? ==> !y.mayFail)
    case Asked(op, mayFail) =>
      || (y.Answered? && Happens(max, q, op, y.got, q'))
      || (mayFail && q' == q && (y == Out || y == Asked(op, false)))
    case Answered(_) => q' == q && y == Out
  }

  predicate Moves<T(==)>(a: Atomic<T>, t: nat, a': Atomic<T>) {
    && t < |a.ph| && t < |a'.ph| && a'.ph == a.ph[t := a'.ph[t]] && a'.max == a.max
    && Proper(a.max, a.q, a.ph[t], a'.q, a'.ph[t])
  }

  ghost predicate Moved<T>(a: Atomic<T>, a': Atomic<T>) {
    exists t :: 0 <= t < |a.ph| && Moves(a, t, a')
  }

  // ----- Every run is a run of that queue -----

  function PhaseOf<T>(x: PC<T>): Phase<T> {
    match x
    case Idle => Out
    case PushWait(e) => Asked(Push(e), false)
    case PushLock(e) => Asked(Push(e), false)
    case PushAdd(e) => Asked(Push(e), false)
    case PushUnlock(_) => Answered(None)
    case PushPost => Answered(None)
    case PopWait(timed) => Asked(Pop, timed)
    case PopLock(_) => Asked(Pop, false)
    case PopTake(_) => Asked(Pop, false)
    case PopUnlock(_, got) => Answered(got)
    case PopPost(got) => Answered(got)
    case PeekWait(timed) => Asked(Peek, timed)
    case PeekLock => Asked(Peek, false)
    case PeekLook => Asked(Peek, false)
    case PeekUnlock(seen) => Answered(seen)
    case PeekPost(seen) => Answered(seen)
  }

  function Phases<T>(pc: seq<PC<T>>): (ph: seq<Phase<T>>)
    ensures |ph| == |pc| && forall t :: 0 <= t < |pc| ==> ph[t] == PhaseOf(pc[t])
  {
    seq(|pc|, t requires 0 <= t < |pc| => PhaseOf(pc[t]))
  }

  function View<T>(s: State<T>): Atomic<T> { Atomic(s.max, s.fifo, Phases(s.pc)) }

  lemma PhasesMove<T>(pc: seq<PC<T>>, t: nat, x: PC<T>)
    requires t < |pc|
    ensures Phases(pc[t := x]) == Phases(pc)[t := PhaseOf(x)]
  {
  }

  lemma NeverTurnedDown<T>(s: State<T>, t: nat)
    requires Inv(s) && t < |s.pc|
    ensures Failed(s.pc[t]) == 0
    ensures s.pc[t].PushAdd? ==> |s.fifo| < s.max
    ensures s.pc[t].PopTake? || s.pc[t].PeekLook? ==> s.fifo != []
  {
    FifoNeverFails(s, t);
    Sums(s.pc, t, Idle);
  }

  /** What a step is to the caller: nothing, or a proper move. */
  predicate Seen<T(==)>(s: State<T>, t: nat, s': State<T>)
    requires t < |s.pc| && t < |s'.pc|
  {
    var x, y := PhaseOf(s.pc[t]), PhaseOf(s'.pc[t]);
    (y == x && s'.fifo == s.fifo) || Proper(s.max, s.fifo, x, s'.fifo, y)
  }

  lemma PushSeen<T>(s: State<T>, t: nat, s': State<T>)
    requires t < |s.pc| && t < |s'.pc| && Step(s, t, s') && Pushing(s.pc[t])
    requires s.pc[t].PushAdd? ==> |s.fifo| < s.max
    ensures Seen(s, t, s')
  {
  }

  lemma PopSeen<T>(s: State<T>, t: nat, s': State<T>)
    requires t < |s.pc| && t < |s'.pc| && Step(s, t, s') && Popping(s.pc[t]) && Failed(s.pc[t]) == 0
    requires s.pc[t].PopTake? ==> s.fifo != []
    ensures Seen(s, t, s')
  {
  }

  lemma PeekSeen<T>(s: State<T>, t: nat, s': State<T>)
    requires t < |s.pc| && t < |s'.pc| && Step(s, t, s') && !Pushing(s.pc[t]) && !Popping(s.pc[t])
    requires s.pc[t].PeekLook? ==> s.fifo != []
    ensures Seen(s, t, s')
  {
  }

  lemma StepRefines<T>(s: State<T>, t: nat, s': State<T>)
    requires Inv(s) && t < |s.pc| && Step(s, t, s')
    ensures View(s') == View(s) || Moves(View(s), t, View(s'))
  {
    hide Inv, Step, PhaseOf, Proper, Failed;
    OneMoves(s, t, s');
    NeverTurnedDown(s, t);
    if Pushing(s.pc[t]) {
      PushSeen(s, t, s');
    } else if Popping(s.pc[t]) {
      PopSeen(s, t, s');
    } else {
      PeekSeen(s, t, s');
    }
    PhasesMove(s.pc, t, s'.pc[t]);
    if PhaseOf(s'.pc[t]) == PhaseOf(s.pc[t]) { assert Phases(s'.pc) == Phases(s.pc); }
  }

  lemma CallRefines<T>(s: State<T>, t: nat, s': State<T>)
    requires t < |s.pc| && Call(s, t, s')
    ensures Moves(View(s), t, View(s'))
  {
    PhasesMove(s.pc, t, s'.pc[t]);
  }

  /** In every interleaving callers see the queue on which operations happen at single moments: it
      starts empty, and each step is one of its steps or changes nothing callers see. */
  lemma RunRefines<T(!new)>(run: seq<State<T>>, i: nat)
    requires Run(run) && i + 1 < |run| && Init(run[0])
    ensures View(run[0]).q == [] && forall t :: 0 <= t < |run[0].pc| ==> View(run[0]).ph[t] == Out
    ensures View(run[i + 1]) == View(run[i]) || Moved(View(run[i]), View(run[i + 1]))
  {
    RunInv(run, i);
    hide Step, Inv, Call, Moves, View;
    var s, s' := run[i], run[i + 1];
    StartsOut(run[0]);
    assert Next(run[i + 1 - 1], run[i + 1]);
    var t :| 0 <= t < |s.pc| && (Call(s, t, s') || Step(s, t, s'));
    if Call(s, t, s') { CallRefines(s, t, s'); } else { StepRefines(s, t, s'); }
  }

  lemma StartsOut<T>(s: State<T>)
    requires Init(s)
    ensures View(s).q == [] && forall t :: 0 <= t < |s.pc| ==> View(s).ph[t] == Out
  {
  }

  /** The element a pop or a peek hands to its caller is the oldest one at that moment: the k-th pop
      returns the k-th push. */
  lemma OldestHandedOut<T(!new)>(run: seq<State<T>>, i: nat, t: nat)
    requires Run(run) && i + 1 < |run| && Init(run[0]) && t < |run[i].pc| && Step(run[i], t, run[i + 1])
    ensures var (s, s') := (run[i], run[i + 1]);
      && t < |s'.pc|
      && (s.pc[t].PopTake? ==>
            && |s.popped| < |s.pushed| && s'.pc[t].PopUnlock? && s'.pc[t].got == Some(s.pushed[|s.popped|])
            && s'.popped == s.popped + [s.pushed[|s.popped|]] && s'.pushed == s.pushed)
      && (s.pc[t].PeekLook? ==>
            && |s.popped| < |s.pushed| && s'.pc[t] == PeekUnlock(Some(s.pushed[|s.popped|]))
            && s'.popped == s.popped && s'.pushed == s.pushed)
      && (s.pc[t].PushAdd? ==>
            s'.pc[t] == PushUnlock(true) && s'.pushed == s.pushed + [s.pc[t].e] && s'.popped == s.popped)
  {
    RunInv(run, i);
    FifoNeverFails(run[i], t);
    hide Inv;
  }

  // ----- Calls get through -----

  /** What the thread waits for is there. */
  predicate Ready<T>(s: State<T>, t: nat)
    requires t < |s.pc|
  {
    match s.pc[t]
    case Idle => false
    case PushWait(_) => s.avail > 0
    case PopWait(_) => s.inuse > 0
    case PeekWait(_) => s.inuse > 0
    case PushLock(_) => !s.locked
    case PopLock(_) => !s.locked
    case PeekLock => !s.locked
    case _ => true
  }

  predicate TimesOut<T>(x: PC<T>, y: PC<T>) { (x.PopWait? || x.PeekWait?) && y.Idle? }

  ghost predicate Proceeds<T(!new)>(s: State<T>, t: nat)
    requires t < |s.pc|
  {
    exists s' :: Step(s, t, s') && t < |s'.pc| && !TimesOut(s.pc[t], s'.pc[t])
  }

  ghost predicate GivesUp<T(!new)>(s: State<T>, t: nat)
    requires t < |s.pc|
  {
    exists s' :: Step(s, t, s') && t < |s'.pc| && TimesOut(s.pc[t], s'.pc[t])
  }

  /** The step with which a thread goes on. */
  function After<T>(s: State<T>, t: nat): State<T>
    requires t < |s.pc| && Ready(s, t)
  {
    match s.pc[t]
    case PushWait(e) => Goto(s, t, PushLock(e)).(avail := s.avail - 1)
    case PushLock(e) => Goto(s, t, PushAdd(e)).(locked := true)
    case PushAdd(e) =>
      var (ok, fifo) := FifoAdd(s.fifo, s.max, e);
      Goto(s, t, PushUnlock(ok)).(fifo := fifo, pushed := if ok then s.pushed + [e] else s.pushed)
    case PushUnlock(ok) => Goto(s, t, if ok then PushPost else Idle).(locked := false)
    case PushPost => Goto(s, t, Idle).(inuse := s.inuse + 1)
    case PopWait(timed) => Goto(s, t, PopLock(timed)).(inuse := s.inuse - 1)
    case PopLock(timed) => Goto(s, t, PopTake(timed)).(locked := true)
    case PopTake(timed) =>
      var (got, fifo) := FifoRemove(s.fifo);
      Goto(s, t, PopUnlock(timed, got))
        .(fifo := fifo, popped := if got.Some? then s.popped + [got.value] else s.popped)
    case PopUnlock(timed, got) => Goto(s, t, if timed || got.Some? then PopPost(got) else Idle).(locked := false)
    case PopPost(_) => Goto(s, t, Idle).(avail := s.avail + 1)
    case PeekWait(_) => Goto(s, t, PeekLock).(inuse := s.inuse - 1)
    case PeekLock => Goto(s, t, PeekLook).(locked := true)
    case PeekLook => Goto(s, t, PeekUnlock(FifoFront(s.fifo)))
    case PeekUnlock(seen) => Goto(s, t, PeekPost(seen)).(locked := false)
    case PeekPost(_) => Goto(s, t, Idle).(inuse := s.inuse + 1)
  }

  lemma AfterSteps<T>(s: State<T>, t: nat)
    requires t < |s.pc| && Ready(s, t)
    ensures Step(s, t, After(s, t)) && t < |After(s, t).pc| && !TimesOut(s.pc[t], After(s, t).pc[t])
  {
  }

  lemma ProceedReady<T>(s: State<T>, t: nat, s': State<T>)
    requires t < |s.pc| && Step(s, t, s') && t < |s'.pc|
    ensures if TimesOut(s.pc[t], s'.pc[t]) then s.pc[t] in {PopWait(true), PeekWait(true)} else Ready(s, t)
  {
  }

  /** A thread, timed or not, can go on exactly when what it waits for is there; and only a timed one
      can give up. */
  lemma ProceedsExactlyWhen<T(!new)>(s: State<T>, t: nat)
    requires t < |s.pc|
    ensures Proceeds(s, t) <==> Ready(s, t)
    ensures GivesUp(s, t) <==> s.pc[t] == PopWait(true) || s.pc[t] == PeekWait(true)
  {
    hide Step, Ready;
    if Ready(s, t) { AfterSteps(s, t); }
    if s' :| Step(s, t, s') && t < |s'.pc| && !TimesOut(s.pc[t], s'.pc[t]) { ProceedReady(s, t, s'); }
    if s' :| Step(s, t, s') && t < |s'.pc| && TimesOut(s.pc[t], s'.pc[t]) { ProceedReady(s, t, s'); }
    if s.pc[t] == PopWait(true) || s.pc[t] == PeekWait(true) { TimeOutStep(s, t); }
  }

  lemma TimeOutStep<T(!new)>(s: State<T>, t: nat)
    requires t < |s.pc| && (s.pc[t] == PopWait(true) || s.pc[t] == PeekWait(true))
    ensures GivesUp(s, t)
  {
    var s' := Goto(s, t, Idle);
    assert Step(s, t, s') && TimesOut(s.pc[t], s'.pc[t]);
  }

  /** Steps of thread `t` only lead from `s` to `s'`. */
  ghost predicate Alone<T(!new)>(s: State<T>, t: nat, s': State<T>, n: nat)
    requires t < |s.pc|
    decreases n
  {
    if n == 0 then s' == s
    else exists m :: Step(s, t, m) && t < |m.pc| && Alone(m, t, s', n - 1)
  }

  lemma AloneNext<T(!new)>(s: State<T>, t: nat, s': State<T>, n: nat)
    requires t < |s.pc| && Ready(s, t) && t < |After(s, t).pc| && Alone(After(s, t), t, s', n)
    ensures Alone(s, t, s', n + 1)
  {
    hide Step, Ready;
    AfterSteps(s, t);
  }

  lemma AloneDone<T(!new)>(s: State<T>, t: nat)
    requires t < |s.pc|
    ensures Alone(s, t, s, 0)
  {
  }

  /** Tokens are there for free slots and for elements only. */
  lemma TokensMean<T>(s: State<T>)
    requires Inv(s)
    ensures (s.avail > 0 ==> |s.fifo| < s.max) && (s.inuse > 0 ==> s.fifo != [])
  {
  }

  /** A push from the mutex on. */
  lemma PushIn<T(!new)>(s: State<T>, t: nat, e: T)
    requires t < |s.pc| && s.pc[t] == PushAdd(e) && |s.fifo| < s.max
    ensures Alone(s, t, Goto(s, t, Idle)
                          .(fifo := s.fifo + [e], pushed := s.pushed + [e], inuse := s.inuse + 1, locked := false), 3)
  {
    hide Step, Alone;
    var s1 := After(s, t);
    var s2 := After(s1, t);
    assert After(s2, t).pc == s.pc[t := Idle];
    AloneDone(After(s2, t), t);
    AloneNext(s2, t, After(s2, t), 0);
    AloneNext(s1, t, After(s2, t), 1);
    AloneNext(s, t, After(s2, t), 2);
  }

  /** Undisturbed, a push into a queue with room goes through. */
  lemma PushAlone<T(!new)>(s: State<T>, t: nat, e: T)
    requires Inv(s) && t < |s.pc| && s.pc[t] == PushWait(e) && s.avail > 0 && !s.locked
    ensures Alone(s, t, Goto(s, t, Idle).(fifo := s.fifo + [e], pushed := s.pushed + [e],
                                          avail := s.avail - 1, inuse := s.inuse + 1), 5)
  {
    hide Step, Alone, Inv;
    TokensMean(s);
    var s1 := After(s, t);
    var s2 := After(s1, t);
    PushIn(s2, t, e);
    var s' := Goto(s2, t, Idle)
      .(fifo := s.fifo + [e], pushed := s.pushed + [e], inuse := s.inuse + 1, locked := false);
    assert s'.pc == s.pc[t := Idle];
    AloneNext(s1, t, s', 3);
    AloneNext(s, t, s', 4);
  }

  /** Undisturbed, a pop from a queue with an element, timed or not, takes the first element and
      hands it over. */
  lemma PopAlone<T(!new)>(s: State<T>, t: nat, timed: bool) returns (last: State<T>)
    requires Inv(s) && t < |s.pc| && s.pc[t] == PopWait(timed) && s.inuse > 0 && !s.locked
    ensures s.fifo != [] && last == Goto(s, t, PopPost(Some(s.fifo[0])))
      .(fifo := s.fifo[1..], popped := s.popped + [s.fifo[0]], inuse := s.inuse - 1)
    ensures Alone(s, t, last, 4) && Step(last, t, Goto(last, t, Idle).(avail := s.avail + 1))
  {
    hide Step, Alone, Inv;
    TokensMean(s);
    var s1 := After(s, t);
    var s2 := After(s1, t);
    var s3 := After(s2, t);
    last := After(s3, t);
    assert last.pc == s.pc[t := PopPost(Some(s.fifo[0]))];
    AloneDone(last, t);
    AloneNext(s3, t, last, 0);
    AloneNext(s2, t, last, 1);
    AloneNext(s1, t, last, 2);
    AloneNext(s, t, last, 3);
    AfterSteps(last, t);
  }

  /** The same for a peek, which leaves the queue as it was. */
  lemma PeekAlone<T(!new)>(s: State<T>, t: nat, timed: bool) returns (last: State<T>)
    requires Inv(s) && t < |s.pc| && s.pc[t] == PeekWait(timed) && s.inuse > 0 && !s.locked
    ensures s.fifo != [] && last == Goto(s, t, PeekPost(Some(s.fifo[0]))).(inuse := s.inuse - 1)
    ensures Alone(s, t, last, 4) && Step(last, t, Goto(s, t, Idle))
  {
    hide Step, Alone, Inv;
    TokensMean(s);
    var s1 := After(s, t);
    var s2 := After(s1, t);
    var s3 := After(s2, t);
    last := After(s3, t);
    assert last.pc == s.pc[t := PeekPost(Some(s.fifo[0]))];
    assert last.pc[t := Idle] == s.pc[t := Idle];
    AloneDone(last, t);
    AloneNext(s3, t, last, 0);
    AloneNext(s2, t, last, 1);
    AloneNext(s1, t, last, 2);
    AloneNext(s, t, last, 3);
    AfterSteps(last, t);
  }
}
