/** What the calls of `src/multithread/rdwrlock.c` do for their callers: a thread that asks is let in
    when nobody is in its way, or refused if its request is timed. */
module RdwrlockCalls {
  import opened Threads
  import opened Rdwrlock

  // ----- The lock as its callers see it -----

  datatype Kind = Read | Write

  /** A timed request may be refused. A reader takes several steps to leave. */
  datatype Phase = Out | Asked(kind: Kind, timed: bool) | Refused | Inside(kind: Kind) | Leaving

  /** Nobody but `t` is inside who must not be there together with `kind`. */
  predicate Free(ph: seq<Phase>, t: nat, kind: Kind) {
    forall u :: 0 <= u < |ph| && u != t && ph[u].Inside? ==> kind == Read && ph[u].kind == Read
  }

  /** A thread asks, is let in the way it asked for, or refused if its request is timed, and leaves. */
  predicate Proper(x: Phase, y: Phase) {
    match x
    case Out => y.Asked?
    case Asked(kind, timed) => y == Inside(kind) || (timed && y == Refused)
    case Refused => y == Out
    case Inside(kind) => y == if kind == Write then Out else Leaving
    case Leaving => y == Out
  }

  predicate Moves(ph: seq<Phase>, t: nat, ph': seq<Phase>) {
    && t < |ph| && t < |ph'| && ph' == ph[t := ph'[t]] && Proper(ph[t], ph'[t])
    && (ph'[t].Inside? ==> Free(ph, t, ph'[t].kind))
  }

  predicate Moved(ph: seq<Phase>, ph': seq<Phase>) {
    exists t :: 0 <= t < |ph| && Moves(ph, t, ph')
  }

  // ----- Every run is a run of that lock -----

  function PhaseOf(x: PC): Phase {
    match x
    case Idle => Out
    case WOrder => Asked(Write, false)
    case WAccess => Asked(Write, false)
    case WPost => Inside(Write)
    case TOrder => Asked(Write, true)
    case TAccess(_) => Asked(Write, true)
    case TPost(_, served) => if served then Inside(Write) else Refused
    case Writing => Inside(Write)
    case ROrder(timed) => Asked(Read, timed)
    case RRead(timed) => Asked(Read, timed)
    case RTest(timed) => Asked(Read, timed)
    case RAccess(timed) => Asked(Read, timed)
    case RIncrement(timed) => Asked(Read, timed)
    case RPostOrder(served) => if served then Inside(Read) else Refused
    case RPostRead(served) => if served then Inside(Read) else Refused
    case Reading => Inside(Read)
    case XRead => Leaving
    case XDecrement => Leaving
    case XTest => Leaving
    case XPostAccess => Leaving
    case XPostRead => Leaving
  }

  function View(s: State): (ph: seq<Phase>)
    ensures |ph| == |s.pc| && forall t :: 0 <= t < |s.pc| ==> ph[t] == PhaseOf(s.pc[t])
  {
    seq(|s.pc|, t requires 0 <= t < |s.pc| => PhaseOf(s.pc[t]))
  }

  /** What a step is to its caller; where it lets the caller in, it has the resource. */
  predicate Seen(s: State, x: PC, y: PC) {
    && (PhaseOf(y) == PhaseOf(x) || Proper(PhaseOf(x), PhaseOf(y)))
    && (PhaseOf(x).Asked? && PhaseOf(y).Inside? ==> if PhaseOf(y).kind == Write then s.access > 0 else x.RIncrement?)
  }

  lemma WriterSeen(s: State, t: nat, s': State)
    requires t < |s.pc| && t < |s'.pc| && Step(s, t, s') && WriterSide(s.pc[t])
    ensures Seen(s, s.pc[t], s'.pc[t])
  {
  }

  lemma ReaderSeen(s: State, t: nat, s': State)
    requires t < |s.pc| && t < |s'.pc| && Step(s, t, s') && !WriterSide(s.pc[t])
    ensures Seen(s, s.pc[t], s'.pc[t])
  {
  }

  /** Who is inside is counted. */
  lemma InsideCounted(s: State, u: nat)
    requires u < |s.pc|
    ensures PhaseOf(s.pc[u]) == Inside(Write) ==> Writes(s.pc[u]) == 1
    ensures PhaseOf(s.pc[u]) == Inside(Read) ==> Reads(s.pc[u]) == 1
  {
  }

  /** The resource is free for a writer, or taken for readers. */
  lemma NobodyInTheWay(s: State, t: nat, kind: Kind)
    requires Inv(s) && t < |s.pc| && if kind == Write then s.access > 0 else s.pc[t].RIncrement?
    ensures Free(View(s), t, kind)
  {
    hide PhaseOf, Total, Writes, Reads;
    if kind == Read { AtLeast(s.pc, t, Carries); }
    forall u | 0 <= u < |s.pc| && u != t && View(s)[u].Inside? ensures kind == Read && View(s)[u].kind == Read {
      InsideCounted(s, u);
      AtLeast(s.pc, u, Writes);
      AtLeast(s.pc, u, Reads);
    }
  }

  lemma StepRefines(s: State, t: nat, s': State)
    requires Inv(s) && t < |s.pc| && Step(s, t, s')
    ensures View(s') == View(s) || Moves(View(s), t, View(s'))
  {
    hide Inv, Step, PhaseOf, Proper, Free, WriterSide;
    OneMoves(s, t, s');
    if WriterSide(s.pc[t]) { WriterSeen(s, t, s'); } else { ReaderSeen(s, t, s'); }
    var x, y := PhaseOf(s.pc[t]), PhaseOf(s'.pc[t]);
    assert View(s') == View(s)[t := y];
    if y == x {
      assert View(s') == View(s);
    } else if y.Inside? {
      OnlyAskersEnter(x, y);
      NobodyInTheWay(s, t, y.kind);
    }
  }

  lemma OnlyAskersEnter(x: Phase, y: Phase)
    requires Proper(x, y) && y.Inside?
    ensures x.Asked?
  {
  }

  /** In every interleaving callers see a lock that lets a thread in only when nobody is in its way,
      in the way it asked for, and refuses timed requests only. */
  lemma RunRefines(run: seq<State>, i: nat)
    requires Run(run) && i + 1 < |run| && Init(run[0])
    ensures forall t :: 0 <= t < |run[0].pc| ==> View(run[0])[t] == Out
    ensures View(run[i + 1]) == View(run[i]) || Moved(View(run[i]), View(run[i + 1]))
  {
    RunInv(run, i);
    assert forall t :: 0 <= t < |run[0].pc| ==> run[0].pc[t] == Idle;
    hide Step, Inv, Moves;
    assert Next(run[i + 1 - 1], run[i + 1]);
    var t :| 0 <= t < |run[i].pc| && Step(run[i], t, run[i + 1]);
    StepRefines(run[i], t, run[i + 1]);
  }

  // ----- Calls get through -----

  /** `n` steps of thread `t` only lead from `s` to `s'`. */
  ghost predicate Alone(s: State, t: nat, s': State, n: nat)
    requires t < |s.pc|
    decreases n
  {
    if n == 0 then s' == s
    else exists m :: Step(s, t, m) && t < |m.pc| && Alone(m, t, s', n - 1)
  }

  lemma AloneNext(s: State, t: nat, s': State, n: nat)
    requires t < |s.pc| && Ready(s, t) && t < |After(s, t).pc| && Alone(After(s, t), t, s', n)
    ensures Alone(s, t, s', n + 1)
  {
    hide Step, Ready;
    AfterSteps(s, t);
  }

  lemma AloneFirst(s: State, t: nat, x: PC, s': State, n: nat)
    requires t < |s.pc| && s.pc[t] == Idle && x in {WOrder, TOrder, ROrder(false), ROrder(true)}
    requires Alone(Goto(s, t, x), t, s', n)
    ensures Alone(s, t, s', n + 1)
  {
    hide Alone;
    var m := Goto(s, t, x);
    assert Step(s, t, m);
    hide Step;
    AloneStep(s, t, m, s', n);
  }

  lemma AloneStep(s: State, t: nat, m: State, s': State, n: nat)
    requires t < |s.pc| && Step(s, t, m) && t < |m.pc| && Alone(m, t, s', n)
    ensures Alone(s, t, s', n + 1)
  {
    hide Step;
  }

  lemma AloneDone(s: State, t: nat)
    requires t < |s.pc|
    ensures Alone(s, t, s, 0)
  {
  }

  /** Undisturbed, a writer gets in when the resource is free, whether its request is timed or not. */
  lemma WriterIn(s: State, t: nat, x: PC)
    requires t < |s.pc| && s.pc[t] == Idle && (x == WOrder || x == TOrder) && s.order > 0 && s.access > 0
    ensures Alone(s, t, Goto(s, t, Writing).(access := s.access - 1), 4)
  {
    hide Step, Alone;
    var s1 := Goto(s, t, x);
    var s2 := After(s1, t);
    var s3 := After(s2, t);
    var s' := After(s3, t);
    assert s'.pc == s.pc[t := Writing];
    AloneDone(s', t);
    AloneNext(s3, t, s', 0);
    AloneNext(s2, t, s', 1);
    AloneNext(s1, t, s', 2);
    AloneFirst(s, t, x, s', 3);
  }

  /** A reader that has the resource, or that others have taken it for, goes in. */
  lemma ReaderCounts(s: State, t: nat, timed: bool)
    requires t < |s.pc| && s.pc[t] == RIncrement(timed)
    ensures Alone(s, t, Goto(s, t, Reading).(readers := s.readers + 1, order := s.order + 1, read := s.read + 1), 3)
  {
    hide Step, Alone;
    var s1 := After(s, t);
    var s2 := After(s1, t);
    var s' := After(s2, t);
    assert s'.pc == s.pc[t := Reading];
    AloneDone(s', t);
    AloneNext(s2, t, s', 0);
    AloneNext(s1, t, s', 1);
    AloneNext(s, t, s', 2);
  }

  /** Undisturbed, a reader gets in, timed or not, when the resource is free, or when there are
      readers already. */
  lemma ReaderIn(s: State, t: nat, timed: bool)
    requires t < |s.pc| && s.pc[t] == Idle && s.order > 0 && s.read > 0 && (s.readers == 0 ==> s.access > 0)
    ensures var s' := Goto(s, t, Reading).(readers := s.readers + 1);
      if s.readers == 0 then Alone(s, t, s'.(access := s.access - 1), 8) else Alone(s, t, s', 7)
  {
    hide Step, Alone;
    var s1 := Goto(s, t, ROrder(timed));
    var s2 := After(s1, t);
    var s3 := After(s2, t);
    var s4 := After(s3, t);
    var s5 := if s.readers == 0 then After(s4, t) else s4;
    ReaderCounts(s5, t, timed);
    var s' := Goto(s5, t, Reading).(readers := s.readers + 1, order := s.order, read := s.read);
    assert s'.pc == s.pc[t := Reading];
    if s.readers == 0 { AloneNext(s4, t, s', 3); }
    AloneNext(s3, t, s', if s.readers == 0 then 4 else 3);
    AloneNext(s2, t, s', if s.readers == 0 then 5 else 4);
    AloneNext(s1, t, s', if s.readers == 0 then 6 else 5);
    AloneFirst(s, t, ROrder(timed), s', if s.readers == 0 then 7 else 6);
  }

  /** A timed reader that waits for the resource can take it exactly when it is free. */
  lemma TimedReaderTakes(s: State, t: nat)
    requires t < |s.pc| && s.pc[t] == RAccess(true)
    ensures (exists s' :: Step(s, t, s') && t < |s'.pc| && s'.pc[t] == RIncrement(true)) <==> s.access > 0
  {
    if s.access > 0 { AfterSteps(s, t); }
  }

  /** Undisturbed, a writer gives the resource back... */
  lemma WriterOut(s: State, t: nat)
    requires t < |s.pc| && s.pc[t] == Writing
    ensures Alone(s, t, Goto(s, t, Idle).(access := s.access + 1), 1)
  {
    hide Step, Alone;
    AloneDone(After(s, t), t);
    AloneNext(s, t, After(s, t), 0);
  }

  /** ...and a reader does if it is the last. */
  lemma ReaderOut(s: State, t: nat)
    requires t < |s.pc| && s.pc[t] == Reading && s.read > 0
    ensures var s' := Goto(s, t, Idle).(readers := s.readers - 1);
      if s.readers == 1 then Alone(s, t, s'.(access := s.access + 1), 6) else Alone(s, t, s', 5)
  {
    hide Step, Alone;
    var s1 := After(s, t);
    var s2 := After(s1, t);
    var s3 := After(s2, t);
    ReaderGone(s3, t);
    var s' := Goto(s3, t, Idle).(read := s.read, access := if s.readers == 1 then s.access + 1 else s.access);
    assert s'.pc == s.pc[t := Idle];
    var n := if s.readers == 1 then 3 else 2;
    AloneNext(s2, t, s', n);
    AloneNext(s1, t, s', n + 1);
    AloneNext(s, t, s', n + 2);
  }

  lemma ReaderGone(s: State, t: nat)
    requires t < |s.pc| && s.pc[t] == XTest
    ensures var s' := Goto(s, t, Idle).(read := s.read + 1);
      if s.readers == 0 then Alone(s, t, s'.(access := s.access + 1), 3) else Alone(s, t, s', 2)
  {
    hide Step, Alone;
    var s1 := After(s, t);
    var s2 := if s.readers == 0 then After(s1, t) else s1;
    var s' := After(s2, t);
    assert s'.pc == s.pc[t := Idle];
    AloneDone(s', t);
    AloneNext(s2, t, s', 0);
    if s.readers == 0 { AloneNext(s1, t, s', 1); }
    AloneNext(s, t, s', if s.readers == 0 then 2 else 1);
  }
}
