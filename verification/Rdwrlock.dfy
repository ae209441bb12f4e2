/** The fair reader-writer lock of `src/multithread/rdwrlock.c` under any number of threads: each
    operation on a semaphore, and each access to the number of readers, is one step. */
module Rdwrlock {
  import opened Threads

  /** Where a thread stands. Names starting with `W` belong to `rdwrl_wr_enter`, with `T` to
      `rdwrl_wr_timed_enter`, with `R` to both ways for a reader to enter, with `X` to
      `rdwrl_rd_exit`. `timed` tells the timed reader from the untimed one. */
  datatype PC =
    | Idle
    | WOrder | WAccess | WPost
    | TOrder | TAccess(inLine: bool) | TPost(inLine: bool, served: bool)
    | Writing
    | ROrder(timed: bool) | RRead(timed: bool) | RTest(timed: bool) | RAccess(timed: bool) | RIncrement(timed: bool)
    | RPostOrder(served: bool) | RPostRead(served: bool)
    | Reading
    | XRead | XDecrement | XTest | XPostAccess | XPostRead

  datatype State = State(order: nat, access: nat, read: nat, readers: int, pc: seq<PC>, surplus: nat)

  predicate Init(s: State) {
    s.order == s.access == s.read == 1 && s.readers == 0 && s.surplus == 0
    && forall t :: 0 <= t < |s.pc| ==> s.pc[t] == Idle
  }

  function Goto(s: State, t: nat, x: PC): State
    requires t < |s.pc|
  {
    s.(pc := s.pc[t := x])
  }

  /** Thread `t` takes its next step. `surplus` counts places in line given back without having
      been taken. */
  predicate Step(s: State, t: nat, s': State)
    requires t < |s.pc|
  {
    match s.pc[t]
    case Idle => s' == Goto(s, t, WOrder) || s' == Goto(s, t, TOrder)
      || s' == Goto(s, t, ROrder(false)) || s' == Goto(s, t, ROrder(true))
    case WOrder => s.order > 0 && s' == Goto(s, t, WAccess).(order := s.order - 1)
    case WAccess => s.access > 0 && s' == Goto(s, t, WPost).(access := s.access - 1)
    case WPost => s' == Goto(s, t, Writing).(order := s.order + 1)
    case TOrder =>
      || (s.order > 0 && s' == Goto(s, t, TAccess(true)).(order := s.order - 1))
      || s' == Goto(s, t, TAccess(false))
    case TAccess(inLine) =>
      || (s.access > 0 && s' == Goto(s, t, TPost(inLine, true)).(access := s.access - 1))
      || s' == Goto(s, t, TPost(inLine, false))
    case TPost(inLine, served) =>
      s' == Goto(s, t, if served then Writing else Idle)
              .(order := s.order + 1, surplus := if inLine then s.surplus else s.surplus + 1)
    case Writing => s' == Goto(s, t, Idle).(access := s.access + 1)
    case ROrder(timed) => s.order > 0 && s' == Goto(s, t, RRead(timed)).(order := s.order - 1)
    case RRead(timed) => s.read > 0 && s' == Goto(s, t, RTest(timed)).(read := s.read - 1)
    case RTest(timed) => s' == Goto(s, t, if s.readers == 0 then RAccess(timed) else RIncrement(timed))
    case RAccess(timed) =>
      || (s.access > 0 && s' == Goto(s, t, RIncrement(timed)).(access := s.access - 1))
      || (timed && s' == Goto(s, t, RPostOrder(false)))
    case RIncrement(timed) => s' == Goto(s, t, RPostOrder(true)).(readers := s.readers + 1)
    case RPostOrder(served) => s' == Goto(s, t, RPostRead(served)).(order := s.order + 1)
    case RPostRead(served) => s' == Goto(s, t, if served then Reading else Idle).(read := s.read + 1)
    case Reading => s' == Goto(s, t, XRead)
    case XRead => s.read > 0 && s' == Goto(s, t, XDecrement).(read := s.read - 1)
    case XDecrement => s' == Goto(s, t, XTest).(readers := s.readers - 1)
    case XTest => s' == Goto(s, t, if s.readers == 0 then XPostAccess else XPostRead)
    case XPostAccess => s' == Goto(s, t, XPostRead).(access := s.access + 1)
    case XPostRead => s' == Goto(s, t, Idle).(read := s.read + 1)
  }

  /** Only thread `t` moves. */
  lemma OneMoves(s: State, t: nat, s': State)
    requires t < |s.pc| && Step(s, t, s')
    ensures |s'.pc| == |s.pc| && s'.pc == s.pc[t := s'.pc[t]]
  {
  }

  predicate Next(s: State, s': State) {
    exists t :: 0 <= t < |s.pc| && Step(s, t, s')
  }

  // ----- Who has which token -----

  /** A place in line. */
  function Lined(x: PC): nat {
    if x.WAccess? || x.WPost? || (x.TAccess? && x.inLine) || (x.TPost? && x.inLine)
      || x.RRead? || x.RTest? || x.RAccess? || x.RIncrement? || x.RPostOrder? then 1 else 0
  }

  /** The right to use the number of readers. */
  function Counting(x: PC): nat {
    if x.RTest? || x.RAccess? || x.RIncrement? || x.RPostOrder? || x.RPostRead?
      || x.XDecrement? || x.XTest? || x.XPostAccess? || x.XPostRead? then 1 else 0
  }

  /** The resource, as a writer. */
  function Writes(x: PC): nat {
    if x.WPost? || (x.TPost? && x.served) || x.Writing? then 1 else 0
  }

  /** The resource, as a reader. */
  function Reads(x: PC): nat {
    if (x.RPostOrder? && x.served) || (x.RPostRead? && x.served) || x.Reading? || x.XRead? || x.XDecrement?
    then 1 else 0
  }

  /** The resource on behalf of all readers, before the first counts or after the last does. */
  function Carries(x: PC): nat {
    if x.RIncrement? || x.XTest? || x.XPostAccess? then 1 else 0
  }

  /** At a point reached only when there are no readers. */
  function SeesNone(x: PC): nat {
    if x.RAccess? || x.XPostAccess? then 1 else 0
  }

  predicate Inv(s: State) {
    && s.order + Total(s.pc, Lined) == 1 + s.surplus
    && s.read + Total(s.pc, Counting) == 1
    && s.readers == Total(s.pc, Reads)
    && (Total(s.pc, SeesNone) > 0 ==> s.readers == 0)
    && s.access + Total(s.pc, Writes) + (if s.readers > 0 || Total(s.pc, Carries) > 0 then 1 else 0) == 1
  }

  lemma InitInv(s: State)
    requires Init(s)
    ensures Inv(s)
  {
    TotalZero(s.pc, Lined);
    TotalZero(s.pc, Counting);
    TotalZero(s.pc, Writes);
    TotalZero(s.pc, Reads);
    TotalZero(s.pc, Carries);
    TotalZero(s.pc, SeesNone);
  }

  /** What a step of `t` does to all the sums. */
  lemma Sums(pc: seq<PC>, t: nat, x: PC)
    requires t < |pc|
    ensures var y := pc[t := x];
      && Total(y, Lined) == Total(pc, Lined) - Lined(pc[t]) + Lined(x)
      && Total(y, Counting) == Total(pc, Counting) - Counting(pc[t]) + Counting(x)
      && Total(y, Writes) == Total(pc, Writes) - Writes(pc[t]) + Writes(x)
      && Total(y, Reads) == Total(pc, Reads) - Reads(pc[t]) + Reads(x)
      && Total(y, Carries) == Total(pc, Carries) - Carries(pc[t]) + Carries(x)
      && Total(y, SeesNone) == Total(pc, SeesNone) - SeesNone(pc[t]) + SeesNone(x)
    ensures Counting(pc[t]) <= Total(pc, Counting) && Writes(pc[t]) <= Total(pc, Writes)
    ensures Reads(pc[t]) <= Total(pc, Reads)
    ensures Carries(pc[t]) <= Total(pc, Carries) && SeesNone(pc[t]) <= Total(pc, SeesNone)
    ensures Lined(pc[t]) <= Total(pc, Lined)
  {
    TotalStep(pc, t, x, Lined);
    TotalStep(pc, t, x, Counting);
    TotalStep(pc, t, x, Writes);
    TotalStep(pc, t, x, Reads);
    TotalStep(pc, t, x, Carries);
    TotalStep(pc, t, x, SeesNone);
  }

  /** Whoever carries the resource, or saw no readers, has the right to use their number. */
  lemma {:induction false} CarriersCount(pc: seq<PC>)
    ensures Total(pc, Carries) <= Total(pc, Counting) && Total(pc, SeesNone) <= Total(pc, Counting)
  {
    if pc != [] { CarriersCount(pc[..|pc| - 1]); }
  }

  /** On the way into and out of writing. */
  predicate WriterSide(x: PC) {
    x.Idle? || x.WOrder? || x.WAccess? || x.WPost? || x.TOrder? || x.TAccess? || x.TPost? || x.Writing?
  }

  predicate Entering(x: PC) {
    x.ROrder? || x.RRead? || x.RTest? || x.RAccess? || x.RIncrement? || x.RPostOrder? || x.RPostRead?
  }

  lemma WriterStep(s: State, t: nat, s': State)
    requires Inv(s) && t < |s.pc| && Step(s, t, s') && WriterSide(s.pc[t])
    ensures Inv(s') && |s'.pc| == |s.pc|
  {
    hide Total;
    Sums(s.pc, t, s'.pc[t]);
  }

  lemma EnterStep(s: State, t: nat, s': State)
    requires Inv(s) && t < |s.pc| && Step(s, t, s') && Entering(s.pc[t])
    ensures Inv(s') && |s'.pc| == |s.pc|
  {
    hide Total;
    CarriersCount(s.pc);
    Sums(s.pc, t, s'.pc[t]);
    Sums(s.pc, t, Idle);
    CarriersCount(s.pc[t := Idle]);
  }

  lemma ExitStep(s: State, t: nat, s': State)
    requires Inv(s) && t < |s.pc| && Step(s, t, s') && !WriterSide(s.pc[t]) && !Entering(s.pc[t])
    ensures Inv(s') && |s'.pc| == |s.pc|
  {
    hide Total;
    CarriersCount(s.pc);
    Sums(s.pc, t, s'.pc[t]);
    Sums(s.pc, t, Idle);
    CarriersCount(s.pc[t := Idle]);
  }

  lemma StepInv(s: State, t: nat, s': State)
    requires Inv(s) && t < |s.pc| && Step(s, t, s')
    ensures Inv(s') && |s'.pc| == |s.pc|
  {
    if WriterSide(s.pc[t]) {
      WriterStep(s, t, s');
    } else if Entering(s.pc[t]) {
      EnterStep(s, t, s');
    } else {
      ExitStep(s, t, s');
    }
  }

  // ----- Runs -----

  /** Any number of threads in any interleaving. */
  ghost predicate Run(run: seq<State>) {
    forall i :: 0 < i < |run| ==> Next(run[i - 1], run[i])
  }

  lemma {:induction false} RunInv(run: seq<State>, i: nat)
    requires Run(run) && i < |run| && Init(run[0])
    ensures Inv(run[i])
  {
    InitInv(run[0]);
    if i > 0 {
      RunInv(run, i - 1);
      assert Next(run[i - 1], run[i]);
      var t :| 0 <= t < |run[i - 1].pc| && Step(run[i - 1], t, run[i]);
      StepInv(run[i - 1], t, run[i]);
    }
  }

  /** Mutual exclusion, timed requests and failed waits for a place in line included: a writer
      inside is alone. */
  lemma Exclusion(run: seq<State>, i: nat, t: nat, u: nat)
    requires Run(run) && i < |run| && Init(run[0]) && t < |run[i].pc| && u < |run[i].pc| && t != u
    requires Writes(run[i].pc[t]) == 1
    ensures Writes(run[i].pc[u]) == 0 && Reads(run[i].pc[u]) == 0
    ensures run[i].pc[t].Writing? ==> !run[i].pc[u].Writing? && !run[i].pc[u].Reading?
  {
    var s := run[i];
    RunInv(run, i);
    AtLeastTwo(s.pc, t, u, Writes);
    AtLeast(s.pc, u, Reads);
  }

  /** The number of readers is right, and the two binary semaphores stay binary. */
  lemma ReadersCounted(run: seq<State>, i: nat)
    requires Run(run) && i < |run| && Init(run[0])
    ensures run[i].readers == Total(run[i].pc, Reads) && run[i].readers >= 0
    ensures run[i].access <= 1 && run[i].read <= 1
  {
    RunInv(run, i);
  }

  // ----- Progress -----

  /** Thread `t` is inside an operation, or holds the resource and will leave. */
  predicate Busy(s: State, t: nat)
    requires t < |s.pc|
  {
    !s.pc[t].Idle?
  }

  /** What the thread waits for is there. */
  predicate Ready(s: State, t: nat)
    requires t < |s.pc|
  {
    match s.pc[t]
    case WOrder => s.order > 0
    case TOrder => s.order > 0
    case ROrder(_) => s.order > 0
    case WAccess => s.access > 0
    case TAccess(_) => s.access > 0
    case RAccess(_) => s.access > 0
    case RRead(_) => s.read > 0
    case XRead => s.read > 0
    case _ => true
  }

  /** The wait at `x` may end without what it waits for. */
  predicate Timed(x: PC) { x.TOrder? || x.TAccess? || x == RAccess(true) }

  predicate TimesOut(x: PC, y: PC) {
    (x.TOrder? && y == TAccess(false)) || (x.TAccess? && y.TPost? && !y.served)
      || (x.RAccess? && y == RPostOrder(false))
  }

  predicate Enabled(s: State, t: nat)
    requires t < |s.pc|
  {
    Ready(s, t) || Timed(s.pc[t])
  }

  /** The step with which a thread goes on; one that is in no operation asks to write. */
  function After(s: State, t: nat): State
    requires t < |s.pc| && Ready(s, t)
  {
    match s.pc[t]
    case Idle => Goto(s, t, WOrder)
    case WOrder => Goto(s, t, WAccess).(order := s.order - 1)
    case WAccess => Goto(s, t, WPost).(access := s.access - 1)
    case WPost => Goto(s, t, Writing).(order := s.order + 1)
    case TOrder => Goto(s, t, TAccess(true)).(order := s.order - 1)
    case TAccess(inLine) => Goto(s, t, TPost(inLine, true)).(access := s.access - 1)
    case TPost(inLine, served) =>
      Goto(s, t, if served then Writing else Idle)
        .(order := s.order + 1, surplus := if inLine then s.surplus else s.surplus + 1)
    case Writing => Goto(s, t, Idle).(access := s.access + 1)
    case ROrder(timed) => Goto(s, t, RRead(timed)).(order := s.order - 1)
    case RRead(timed) => Goto(s, t, RTest(timed)).(read := s.read - 1)
    case RTest(timed) => Goto(s, t, if s.readers == 0 then RAccess(timed) else RIncrement(timed))
    case RAccess(timed) => Goto(s, t, RIncrement(timed)).(access := s.access - 1)
    case RIncrement(timed) => Goto(s, t, RPostOrder(true)).(readers := s.readers + 1)
    case RPostOrder(served) => Goto(s, t, RPostRead(served)).(order := s.order + 1)
    case RPostRead(served) => Goto(s, t, if served then Reading else Idle).(read := s.read + 1)
    case Reading => Goto(s, t, XRead)
    case XRead => Goto(s, t, XDecrement).(read := s.read - 1)
    case XDecrement => Goto(s, t, XTest).(readers := s.readers - 1)
    case XTest => Goto(s, t, if s.readers == 0 then XPostAccess else XPostRead)
    case XPostAccess => Goto(s, t, XPostRead).(access := s.access + 1)
    case XPostRead => Goto(s, t, Idle).(read := s.read + 1)
  }

  lemma AfterSteps(s: State, t: nat)
    requires t < |s.pc| && Ready(s, t)
    ensures Step(s, t, After(s, t)) && t < |After(s, t).pc| && !TimesOut(s.pc[t], After(s, t).pc[t])
  {
  }

  lemma TimeOutStep(s: State, t: nat) returns (s': State)
    requires t < |s.pc| && Timed(s.pc[t])
    ensures Step(s, t, s') && t < |s'.pc| && TimesOut(s.pc[t], s'.pc[t])
  {
    match s.pc[t]
    case TOrder => s' := Goto(s, t, TAccess(false));
    case TAccess(inLine) => s' := Goto(s, t, TPost(inLine, false));
    case RAccess(_) => s' := Goto(s, t, RPostOrder(false));
  }

  lemma StepReady(s: State, t: nat, s': State)
    requires t < |s.pc| && Step(s, t, s')
    ensures t < |s'.pc| && if TimesOut(s.pc[t], s'.pc[t]) then Timed(s.pc[t]) else Ready(s, t)
  {
  }

  ghost predicate Proceeds(s: State, t: nat)
    requires t < |s.pc|
  {
    exists s' :: Step(s, t, s') && t < |s'.pc| && !TimesOut(s.pc[t], s'.pc[t])
  }

  ghost predicate GivesUp(s: State, t: nat)
    requires t < |s.pc|
  {
    exists s' :: Step(s, t, s') && t < |s'.pc| && TimesOut(s.pc[t], s'.pc[t])
  }

  /** A thread, timed or not, can go on exactly when what it waits for is there, and only a timed one
      can go on, or be refused, without. */
  lemma EnabledSteps(s: State, t: nat)
    requires t < |s.pc|
    ensures Proceeds(s, t) <==> Ready(s, t)
    ensures GivesUp(s, t) <==> Timed(s.pc[t])
    ensures Enabled(s, t) <==> exists s' :: Step(s, t, s')
  {
    hide Step, Ready, Timed, TimesOut;
    if Ready(s, t) { AfterSteps(s, t); }
    if Timed(s.pc[t]) { var s' := TimeOutStep(s, t); }
    forall s' | Step(s, t, s')
      ensures t < |s'.pc| && if TimesOut(s.pc[t], s'.pc[t]) then Timed(s.pc[t]) else Ready(s, t)
    {
      StepReady(s, t, s');
    }
  }

  /** While some operation is under way or the resource is held, some such thread can move:
      with holders that leave, the lock never deadlocks. */
  lemma NoDeadlock(s: State, t: nat) returns (u: nat)
    requires Inv(s) && t < |s.pc| && Busy(s, t)
    ensures u < |s.pc| && Busy(s, u) && Enabled(s, u)
  {
    hide Total;
    u := t;
    if !Enabled(s, u) && (s.pc[u].WOrder? || s.pc[u].ROrder?) {
      u := SomeThread(s.pc, Lined);
    }
    if !Enabled(s, u) && (s.pc[u].RRead? || s.pc[u].XRead?) {
      u := SomeThread(s.pc, Counting);
    }
    if !Enabled(s, u) {
      CarriersCount(s.pc);
      u := AccessHolder(s);
    }
    if !Enabled(s, u) {
      AtLeast(s.pc, u, Reads);
      u := SomeThread(s.pc, Counting);
      AtLeast(s.pc, u, SeesNone);
    }
  }

  /** Somebody has the resource when it is not there to take. */
  lemma AccessHolder(s: State) returns (u: nat)
    requires Inv(s) && s.access == 0
    ensures u < |s.pc| && (Writes(s.pc[u]) > 0 || Reads(s.pc[u]) > 0 || Carries(s.pc[u]) > 0)
  {
    if Total(s.pc, Writes) > 0 {
      u := SomeThread(s.pc, Writes);
    } else if s.readers > 0 {
      u := SomeThread(s.pc, Reads);
    } else {
      u := SomeThread(s.pc, Carries);
    }
  }

  // ----- Fairness -----

  /** The thread gets the resource in this step. */
  predicate Enters(x: PC, y: PC) {
    Writes(x) + Reads(x) == 0 && Writes(y) + Reads(y) > 0
  }

  /** Thread `u` gets the resource in the step from `s` to `s'`. */
  predicate StepsIn(s: State, u: nat, s': State)
    requires u < |s.pc|
  {
    Step(s, u, s') && u < |s'.pc| && Enters(s.pc[u], s'.pc[u])
  }

  /** At the point where the resource is taken, with a place in line, and able to go on. */
  predicate AtDoor(s: State, u: nat)
    requires u < |s.pc|
  {
    var x := s.pc[u];
    x.RIncrement? || ((x.WAccess? || x == TAccess(true)) && s.access > 0)
  }

  lemma EnteredFrom(s: State, u: nat, s': State)
    requires u < |s.pc| && StepsIn(s, u, s')
    ensures (s.pc[u] == TAccess(false) && s.access > 0) || AtDoor(s, u)
  {
  }

  lemma CanEnter(s: State, u: nat) returns (s': State)
    requires u < |s.pc| && ((s.pc[u] == TAccess(false) && s.access > 0) || AtDoor(s, u))
    ensures StepsIn(s, u, s')
  {
    if s.pc[u].RIncrement? {
      s' := Goto(s, u, RPostOrder(true)).(readers := s.readers + 1);
    } else {
      s' := Goto(s, u, if s.pc[u].WAccess? then WPost else TPost(s.pc[u].inLine, true)).(access := s.access - 1);
    }
  }

  /** Where a thread has to stand to enter in its next step. */
  lemma EntersFrom(s: State, u: nat)
    requires u < |s.pc|
    ensures (exists s' :: StepsIn(s, u, s')) <==>
      (s.pc[u] == TAccess(false) && s.access > 0) || AtDoor(s, u)
  {
    hide StepsIn, AtDoor;
    if s' :| StepsIn(s, u, s') {
      EnteredFrom(s, u, s');
    }
    if (s.pc[u] == TAccess(false) && s.access > 0) || AtDoor(s, u) {
      var s' := CanEnter(s, u);
    }
  }

  /** Two threads have the place in line only after places were given back that nobody had. */
  lemma SharedPlace(s: State, t: nat, u: nat)
    requires Inv(s) && t < |s.pc| && u < |s.pc| && t != u && Lined(s.pc[t]) == Lined(s.pc[u]) == 1
    ensures s.surplus > 0
  {
    hide Total, Lined;
    AtLeastTwo(s.pc, t, u, Lined);
  }

  /** Another thread can enter while `t` has a place in line in just two cases: it is a timed writer
      whose own wait for a place timed out; or such a writer has given back a place it never had, and
      two threads now have the one place. */
  lemma OvertakesExactlyWhen(s: State, t: nat, u: nat)
    requires Inv(s) && t < |s.pc| && u < |s.pc| && t != u && Lined(s.pc[t]) == 1
    ensures (exists s' :: StepsIn(s, u, s')) <==>
      (s.pc[u] == TAccess(false) && s.access > 0) || (s.surplus > 0 && AtDoor(s, u))
  {
    hide StepsIn, Inv;
    EntersFrom(s, u);
    if AtDoor(s, u) { SharedPlace(s, t, u); }
  }

  /** No writer goes on without the place in line it waited for. */
  predicate InTime(s: State) {
    forall t :: 0 <= t < |s.pc| ==> s.pc[t] != TAccess(false) && !(s.pc[t].TPost? && !s.pc[t].inLine)
  }

  lemma InTimeAt(s: State, u: nat)
    requires u < |s.pc| && InTime(s)
    ensures s.pc[u] != TAccess(false)
  {
  }

  lemma InTimeStep(s: State, u: nat, s': State)
    requires u < |s.pc| && Step(s, u, s') && InTime(s)
    ensures s'.surplus == s.surplus
  {
  }

  lemma {:induction false} InTimeSurplus(run: seq<State>, i: nat)
    requires Run(run) && i < |run| && Init(run[0]) && forall k :: 0 <= k < i ==> InTime(run[k])
    ensures run[i].surplus == 0
  {
    if i > 0 {
      InTimeSurplus(run, i - 1);
      assert Next(run[i - 1], run[i]);
      var u :| 0 <= u < |run[i - 1].pc| && Step(run[i - 1], u, run[i]);
      InTimeStep(run[i - 1], u, run[i]);
    }
  }

  /** On every run in which no wait for a place in line has timed out, only one thread at a time has
      the place, and no other enters. */
  lemma NoOvertaking(run: seq<State>, i: nat, t: nat, u: nat)
    requires Run(run) && i + 1 < |run| && Init(run[0]) && forall k :: 0 <= k <= i ==> InTime(run[k])
    requires t < |run[i].pc| && u < |run[i].pc| && t != u && Lined(run[i].pc[t]) == 1
    ensures Lined(run[i].pc[u]) == 0 && !StepsIn(run[i], u, run[i + 1])
  {
    hide StepsIn, Inv, Run, Init;
    RunInv(run, i);
    InTimeSurplus(run, i);
    if Lined(run[i].pc[u]) == 1 { SharedPlace(run[i], t, u); }
    OvertakesExactlyWhen(run[i], t, u);
  }

  /** A run of three threads: 0 takes the place in line; the timed writer 1 waits for it in vain,
      enters, gives back the place it never had, and leaves; then the untimed writer 2 enters. */
  function Overtaking(i: nat): (s: State)
    requires i < 11
    ensures |s.pc| == 3
  {
    match i
    case 0 => State(1, 1, 1, 0, [Idle, Idle, Idle], 0)
    case 1 => State(1, 1, 1, 0, [WOrder, Idle, Idle], 0)
    case 2 => State(0, 1, 1, 0, [WAccess, Idle, Idle], 0)
    case 3 => State(0, 1, 1, 0, [WAccess, TOrder, Idle], 0)
    case 4 => State(0, 1, 1, 0, [WAccess, TAccess(false), Idle], 0)
    case 5 => State(0, 0, 1, 0, [WAccess, TPost(false, true), Idle], 0)
    case 6 => State(1, 0, 1, 0, [WAccess, Writing, Idle], 1)
    case 7 => State(1, 1, 1, 0, [WAccess, Idle, Idle], 1)
    case 8 => State(1, 1, 1, 0, [WAccess, Idle, WOrder], 1)
    case 9 => State(0, 1, 1, 0, [WAccess, Idle, WAccess], 1)
    case _ => State(0, 0, 1, 0, [WAccess, Idle, WPost], 1)
  }

  lemma OvertakingNext(i: nat)
    requires 0 < i < 11
    ensures Next(Overtaking(i - 1), Overtaking(i))
  {
    var t := if i < 3 then 0 else if i < 8 then 1 else 2;
    assert Step(Overtaking(i - 1), t, Overtaking(i));
  }

  function OvertakingRun(): (run: seq<State>)
    ensures |run| == 11 && forall i :: 0 <= i < 11 ==> run[i] == Overtaking(i)
  {
    seq(11, i requires 0 <= i < 11 => Overtaking(i))
  }

  lemma OvertakingIsRun()
    ensures Run(OvertakingRun()) && Init(OvertakingRun()[0])
  {
    hide Next;
    var run := OvertakingRun();
    forall i | 0 < i < |run| ensures Next(run[i - 1], run[i]) { OvertakingNext(i); }
  }

  /** Thread 0 has the place in line and thread 1 is in no operation. */
  predicate OneLinedOneOut(s: State)
    requires |s.pc| == 3
  {
    Lined(s.pc[0]) == 1 && s.pc[1] == Idle && InTime(s)
  }

  lemma OvertakingLined(i: nat)
    requires 2 <= i < 11
    ensures Lined(Overtaking(i).pc[0]) == 1 && (7 <= i ==> OneLinedOneOut(Overtaking(i)))
  {
  }

  /** Writer 1 enters although thread 0 has the place in line; and once it has left, writer 2 does,
      with nobody in a timed operation any more. */
  lemma OvertakenAfterTimeout()
    ensures Run(OvertakingRun()) && Init(OvertakingRun()[0])
    ensures forall i :: 2 <= i < 11 ==> Lined(Overtaking(i).pc[0]) == 1
    ensures Overtaking(4).surplus == 0 && Enters(Overtaking(4).pc[1], Overtaking(5).pc[1])
    ensures forall i :: 7 <= i < 11 ==> OneLinedOneOut(Overtaking(i))
    ensures Overtaking(9).pc[2] == WAccess && Enters(Overtaking(9).pc[2], Overtaking(10).pc[2])
  {
    hide Run, Init, Lined, OneLinedOneOut;
    OvertakingIsRun();
    forall i | 2 <= i < 11
      ensures Lined(Overtaking(i).pc[0]) == 1 && (7 <= i ==> OneLinedOneOut(Overtaking(i)))
    {
      OvertakingLined(i);
    }
  }

  /** How far a thread is from waiting for a place in line. */
  function Effort(x: PC): nat {
    match x
    case WOrder => 0
    case ROrder(_) => 0
    case Idle => 1
    case Writing => 2
    case XPostRead => 2
    case XPostAccess => 3
    case XTest => 4
    case XDecrement => 5
    case XRead => 6
    case Reading => 7
    case RPostRead(_) => 8
    case WPost => 3
    case WAccess => 4
    case RPostOrder(_) => 9
    case RIncrement(_) => 10
    case RAccess(_) => 11
    case RTest(_) => 12
    case RRead(_) => 13
    case TOrder => 0
    case TPost(_, _) => 3
    case TAccess(_) => 4
  }

  lemma EffortWriter(s: State, u: nat, s': State)
    requires u < |s.pc| && Step(s, u, s') && WriterSide(s.pc[u]) && s'.pc[u] != TAccess(false)
    requires s.order == 0 || !(s.pc[u].WOrder? || s.pc[u].TOrder?)
    ensures Effort(s'.pc[u]) < Effort(s.pc[u])
  {
  }

  lemma EffortReader(s: State, u: nat, s': State)
    requires u < |s.pc| && Step(s, u, s') && !WriterSide(s.pc[u]) && (s.order == 0 || !s.pc[u].ROrder?)
    ensures Effort(s'.pc[u]) < Effort(s.pc[u])
  {
  }

  /** While one thread is first in line, no step is without progress. */
  lemma EffortFalls(s: State, t: nat, u: nat, s': State)
    requires Inv(s) && t < |s.pc| && u < |s.pc| && s.surplus == 0
    requires Step(s, u, s') && InTime(s) && InTime(s') && Lined(s.pc[t]) == 1
    ensures Total(s'.pc, Effort) < Total(s.pc, Effort) && s'.surplus == 0
  {
    hide Total, Step, Effort, InTime, Lined;
    OneMoves(s, u, s');
    TotalStep(s.pc, u, s'.pc[u], Effort);
    AtLeast(s.pc, t, Lined);
    InTimeStep(s, u, s');
    assert s'.pc[u] != TAccess(false) by { InTimeAt(s', u); }
    if WriterSide(s.pc[u]) { EffortWriter(s, u, s'); } else { EffortReader(s, u, s'); }
  }

  /** So the first in line gives up its place within a number of steps that depends only on where
      the threads stand; `NoDeadlock` says that a next step is always there to take. */
  lemma {:induction false} BoundedWait(run: seq<State>, i: nat, j: nat, t: nat)
    requires Run(run) && i <= j < |run| && Init(run[0]) && forall k :: 0 <= k <= j ==> InTime(run[k])
    requires forall k :: i <= k <= j ==> t < |run[k].pc| && Lined(run[k].pc[t]) == 1
    ensures j - i <= Total(run[i].pc, Effort) - Total(run[j].pc, Effort)
    decreases j
  {
    hide Total, Step, Inv, InTime;
    if i < j {
      BoundedWait(run, i, j - 1, t);
      RunInv(run, j - 1);
      InTimeSurplus(run, j - 1);
      assert Next(run[j - 1], run[j]);
      var u :| 0 <= u < |run[j - 1].pc| && Step(run[j - 1], u, run[j]);
      EffortFalls(run[j - 1], t, u, run[j]);
    }
  }
}
