/** The producer-consumer queue of `src/multithread/pcqueue.c` under any number of threads: each
    operation on a semaphore or the mutex, and each use of the FIFO under the mutex, is one step. */
module Pcqueue {
  import opened Threads
  import opened Rbuffer

  /** Where a thread stands in `pcqueue_push`, `pcqueue_pop` and `pcqueue_timedpop`,
      `pcqueue_peek` and `pcqueue_timedpeek`. */
  datatype PC<T> =
    | Idle
    | PushWait(e: T) | PushLock(e: T) | PushAdd(e: T) | PushUnlock(ok: bool) | PushPost
    | PopWait(timed: bool) | PopLock(timed: bool) | PopTake(timed: bool)
    | PopUnlock(timed: bool, got: Option<T>) | PopPost(got: Option<T>)
    | PeekWait(timed: bool) | PeekLock | PeekLook | PeekUnlock(seen: Option<T>) | PeekPost(seen: Option<T>)

  /** `pushed` and `popped` record every element that ever went in and out, in order. */
  datatype State<T> = State(max: nat, avail: nat, inuse: nat, locked: bool, fifo: seq<T>, pc: seq<PC<T>>,
                            pushed: seq<T>, popped: seq<T>)

  predicate Init<T(==)>(s: State<T>) {
    && s.avail == s.max && s.inuse == 0 && !s.locked && s.fifo == s.pushed == s.popped == []
    && forall t :: 0 <= t < |s.pc| ==> s.pc[t] == Idle
  }

  function Goto<T>(s: State<T>, t: nat, x: PC<T>): State<T>
    requires t < |s.pc|
  {
    s.(pc := s.pc[t := x])
  }

  /** Thread `t` calls one of the operations. */
  predicate Call<T(==)>(s: State<T>, t: nat, s': State<T>)
    requires t < |s.pc|
  {
    s.pc[t].Idle? && t < |s'.pc| && s' == Goto(s, t, s'.pc[t])
    && (s'.pc[t].PushWait? || s'.pc[t].PopWait? || s'.pc[t].PeekWait?)
  }

  /** Thread `t` takes its next step inside an operation. */
  predicate Step<T(==)>(s: State<T>, t: nat, s': State<T>)
    requires t < |s.pc|
  {
    match s.pc[t]
    case Idle => false
    case PushWait(e) => s.avail > 0 && s' == Goto(s, t, PushLock(e)).(avail := s.avail - 1)
    case PushLock(e) => !s.locked && s' == Goto(s, t, PushAdd(e)).(locked := true)
    case PushAdd(e) =>
      var (ok, fifo) := FifoAdd(s.fifo, s.max, e);
      s' == Goto(s, t, PushUnlock(ok)).(fifo := fifo, pushed := if ok then s.pushed + [e] else s.pushed)
    case PushUnlock(ok) => s' == Goto(s, t, if ok then PushPost else Idle).(locked := false)
    case PushPost => s' == Goto(s, t, Idle).(inuse := s.inuse + 1)
    case PopWait(timed) =>
      || (s.inuse > 0 && s' == Goto(s, t, PopLock(timed)).(inuse := s.inuse - 1))
      || (timed && s' == Goto(s, t, Idle))
    case PopLock(timed) => !s.locked && s' == Goto(s, t, PopTake(timed)).(locked := true)
    case PopTake(timed) =>
      var (got, fifo) := FifoRemove(s.fifo);
      s' == Goto(s, t, PopUnlock(timed, got))
              .(fifo := fifo, popped := if got.Some? then s.popped + [got.value] else s.popped)
    case PopUnlock(timed, got) => s' == Goto(s, t, if timed || got.Some? then PopPost(got) else Idle).(locked := false)
    case PopPost(_) => s' == Goto(s, t, Idle).(avail := s.avail + 1)
    case PeekWait(timed) =>
      || (s.inuse > 0 && s' == Goto(s, t, PeekLock).(inuse := s.inuse - 1))
      || (timed && s' == Goto(s, t, Idle))
    case PeekLock => !s.locked && s' == Goto(s, t, PeekLook).(locked := true)
    case PeekLook => s' == Goto(s, t, PeekUnlock(FifoFront(s.fifo)))
    case PeekUnlock(seen) => s' == Goto(s, t, PeekPost(seen)).(locked := false)
    case PeekPost(seen) => s' == Goto(s, t, Idle).(inuse := s.inuse + 1)
  }

  /** Only thread `t` moves. */
  lemma OneMoves<T>(s: State<T>, t: nat, s': State<T>)
    requires t < |s.pc| && Step(s, t, s')
    ensures |s'.pc| == |s.pc| && s'.pc == s.pc[t := s'.pc[t]] && s'.max == s.max
  {
  }

  predicate Next<T(==)>(s: State<T>, s': State<T>) {
    exists t :: 0 <= t < |s.pc| && (Call(s, t, s') || Step(s, t, s'))
  }

  // ----- Threads in flight -----

  /** Has a free slot, not filled yet. */
  function Filling<T>(x: PC<T>): nat { if x.PushLock? || x.PushAdd? then 1 else 0 }

  /** Has emptied a slot, not reported yet. */
  function Emptied<T>(x: PC<T>): nat { if x.PopUnlock? || x.PopPost? then 1 else 0 }

  /** Has filled a slot, not reported yet. */
  function Filled<T>(x: PC<T>): nat { if x.PushUnlock? || x.PushPost? then 1 else 0 }

  /** Has a slot in use, not emptied yet, or only looks at it. */
  function Using<T>(x: PC<T>): nat {
    if x.PopLock? || x.PopTake? || x.PeekLock? || x.PeekLook? || x.PeekUnlock? || x.PeekPost? then 1 else 0
  }

  function Locking<T>(x: PC<T>): nat {
    if x.PushAdd? || x.PushUnlock? || x.PopTake? || x.PopUnlock? || x.PeekLook? || x.PeekUnlock? then 1 else 0
  }

  /** The FIFO turned this thread down. */
  function Failed<T>(x: PC<T>): nat {
    if (x.PushUnlock? && !x.ok) || (x.PopUnlock? && x.got.None?) || ((x.PeekUnlock? || x.PeekPost?) && x.seen.None?)
    then 1 else 0
  }

  predicate Inv<T(==)>(s: State<T>) {
    && s.max == |s.fifo| + s.avail + Total(s.pc, Filling) + Total(s.pc, Emptied)
    && |s.fifo| == s.inuse + Total(s.pc, Using) + Total(s.pc, Filled)
    && Total(s.pc, Locking) == (if s.locked then 1 else 0)
    && Total(s.pc, Failed) == 0
    && s.pushed == s.popped + s.fifo
  }

  lemma InitInv<T>(s: State<T>)
    requires Init(s)
    ensures Inv(s)
  {
    TotalZero(s.pc, Filling);
    TotalZero(s.pc, Emptied);
    TotalZero(s.pc, Filled);
    TotalZero(s.pc, Using);
    TotalZero(s.pc, Locking);
    TotalZero(s.pc, Failed);
  }

  lemma Sums<T>(pc: seq<PC<T>>, t: nat, x: PC<T>)
    requires t < |pc|
    ensures var y := pc[t := x];
      && Total(y, Filling) == Total(pc, Filling) - Filling(pc[t]) + Filling(x)
      && Total(y, Emptied) == Total(pc, Emptied) - Emptied(pc[t]) + Emptied(x)
      && Total(y, Filled) == Total(pc, Filled) - Filled(pc[t]) + Filled(x)
      && Total(y, Using) == Total(pc, Using) - Using(pc[t]) + Using(x)
      && Total(y, Locking) == Total(pc, Locking) - Locking(pc[t]) + Locking(x)
      && Total(y, Failed) == Total(pc, Failed) - Failed(pc[t]) + Failed(x)
    ensures Filling(pc[t]) <= Total(pc, Filling) && Emptied(pc[t]) <= Total(pc, Emptied)
    ensures Filled(pc[t]) <= Total(pc, Filled)
    ensures Using(pc[t]) <= Total(pc, Using) && Locking(pc[t]) <= Total(pc, Locking)
    ensures Failed(pc[t]) <= Total(pc, Failed)
  {
    TotalStep(pc, t, x, Filling);
    TotalStep(pc, t, x, Emptied);
    TotalStep(pc, t, x, Filled);
    TotalStep(pc, t, x, Using);
    TotalStep(pc, t, x, Locking);
    TotalStep(pc, t, x, Failed);
  }

  lemma CallInv<T>(s: State<T>, t: nat, s': State<T>)
    requires Inv(s) && t < |s.pc| && Call(s, t, s')
    ensures Inv(s') && |s'.pc| == |s.pc|
  {
    hide Total;
    Sums(s.pc, t, s'.pc[t]);
  }

  predicate Pushing<T>(x: PC<T>) { x.PushWait? || x.PushLock? || x.PushAdd? || x.PushUnlock? || x.PushPost? }
  predicate Popping<T>(x: PC<T>) { x.PopWait? || x.PopLock? || x.PopTake? || x.PopUnlock? || x.PopPost? }

  lemma PushStep<T>(s: State<T>, t: nat, s': State<T>)
    requires Inv(s) && t < |s.pc| && Step(s, t, s') && Pushing(s.pc[t])
    ensures Inv(s') && |s'.pc| == |s.pc| && s'.max == s.max
  {
    hide Total;
    Sums(s.pc, t, s'.pc[t]);
  }

  lemma PopStep<T>(s: State<T>, t: nat, s': State<T>)
    requires Inv(s) && t < |s.pc| && Step(s, t, s') && Popping(s.pc[t])
    ensures Inv(s') && |s'.pc| == |s.pc| && s'.max == s.max
  {
    hide Total;
    Sums(s.pc, t, s'.pc[t]);
  }

  lemma PeekStep<T>(s: State<T>, t: nat, s': State<T>)
    requires Inv(s) && t < |s.pc| && Step(s, t, s') && !Pushing(s.pc[t]) && !Popping(s.pc[t])
    ensures Inv(s') && |s'.pc| == |s.pc| && s'.max == s.max
  {
    hide Total;
    Sums(s.pc, t, s'.pc[t]);
  }

  lemma StepInv<T>(s: State<T>, t: nat, s': State<T>)
    requires Inv(s) && t < |s.pc| && Step(s, t, s')
    ensures Inv(s') && |s'.pc| == |s.pc| && s'.max == s.max
  {
    hide Inv, Step;
    if Pushing(s.pc[t]) {
      PushStep(s, t, s');
    } else if Popping(s.pc[t]) {
      PopStep(s, t, s');
    } else {
      PeekStep(s, t, s');
    }
  }

  /** What the FIFO says to the thread that uses it: it never refuses, and every pop and every
      peek sees the oldest element not popped yet. */
  lemma FifoNeverFails<T>(s: State<T>, t: nat)
    requires Inv(s) && t < |s.pc|
    ensures s.pc[t].PushAdd? ==> FifoAdd(s.fifo, s.max, s.pc[t].e) == (true, s.fifo + [s.pc[t].e])
    ensures s.pc[t].PopTake? || s.pc[t].PeekLook? ==>
      |s.popped| < |s.pushed| && FifoFront(s.fifo) == Some(s.pushed[|s.popped|])
        && FifoRemove(s.fifo).0 == FifoFront(s.fifo)
  {
    hide Total;
    Sums(s.pc, t, Idle);
  }

  // ----- Runs -----

  predicate Run<T(!new, ==)>(run: seq<State<T>>) {
    forall i :: 0 < i < |run| ==> Next(run[i - 1], run[i])
  }

  lemma {:induction false} RunInv<T(!new)>(run: seq<State<T>>, i: nat)
    requires Run(run) && i < |run| && Init(run[0])
    ensures Inv(run[i])
  {
    InitInv(run[0]);
    if i > 0 {
      hide Step, Inv, Call;
      RunInv(run, i - 1);
      var t :| 0 <= t < |run[i - 1].pc| && (Call(run[i - 1], t, run[i]) || Step(run[i - 1], t, run[i]));
      if Call(run[i - 1], t, run[i]) {
        CallInv(run[i - 1], t, run[i]);
      } else {
        StepInv(run[i - 1], t, run[i]);
      }
    }
  }

  /** In every interleaving the tokens of both semaphores and the threads in flight account for
      every slot, no operation on the FIFO fails, and what has been popped is a prefix of what
      has been pushed. */
  lemma Conservation<T(!new)>(run: seq<State<T>>, i: nat)
    requires Run(run) && i < |run| && Init(run[0])
    ensures var s := run[i];
      && s.avail + s.inuse + Total(s.pc, Filling) + Total(s.pc, Emptied) + Total(s.pc, Filled)
        + Total(s.pc, Using) == s.max
      && s.popped <= s.pushed && |s.pushed| - |s.popped| <= s.max
      && forall t :: 0 <= t < |s.pc| ==> Failed(s.pc[t]) == 0
  {
    RunInv(run, i);
    var s := run[i];
    forall t | 0 <= t < |s.pc| ensures Failed(s.pc[t]) == 0 {
      AtLeast(s.pc, t, Failed);
    }
  }
}
