/** What the calls of `src/multithread/mpool.c` do for their callers: the pool behaves as one on which
    every request, release and change of references happens at a single moment. */
module MpoolCalls {
  import opened Rbuffer
  import opened Mpool

  // ----- The pool as its callers see it -----

  datatype Op = Request | Release(c: int) | Change(c: int, more: int)

  /** A call has been made and has not happened yet; or it has, with this result. `mayFail` is a call
      that can still time out. */
  datatype Phase = Out | Asked(op: Op, mayFail: bool) | Answered(ok: bool, got: Option<nat>)

  /** The free chunks, the next one first, and how many users each chunk has. */
  datatype Pool = Pool(max: nat, free: seq<nat>, refs: seq<int>)

  datatype Atomic = Atomic(pool: Pool, ph: seq<Phase>)

  /** A request gets the next free chunk and is its only user. A release takes one user away and frees
      a chunk that has none left. A change adds to the number of users, if the chunk is the pool's. */
  predicate Happens(p: Pool, op: Op, y: Phase, p': Pool) {
    match op
    case Request =>
      && p.free != [] && p.free[0] < |p.refs| && p.refs[p.free[0]] == 0
      && y == Answered(true, Some(p.free[0])) && p' == p.(free := p.free[1..], refs := p.refs[p.free[0] := 1])
    case Release(c) =>
      && 0 <= c < |p.refs| && c !in p.free && y == Answered(true, None)
      && p' == if p.refs[c] > 1 then p.(refs := p.refs[c := p.refs[c] - 1])
               else p.(free := p.free + [c], refs := p.refs[c := 0])
    case Change(c, more) =>
      if 0 <= c < p.max then
        c < |p.refs| && c !in p.free && y == Answered(true, None) && p' == p.(refs := p.refs[c := p.refs[c] + more])
      else y == Answered(false, None) && p' == p
  }

  /** A thread calls, or its call happens, times out or is turned down, or it gets its result. */
  predicate Proper(p: Pool, x: Phase, p': Pool, y: Phase) {
    match x
    case Out => p' == p && y.Asked? && (y.mayFail ==> y.op.Request?)
    case Asked(op, mayFail) =>
      || Happens(p, op, y, p')
      || (mayFail && p' == p && (y == Out || y == Asked(op, false)))
      || (op.Release? && !(0 <= op.c < p.max) && p' == p && y == Out)
    case Answered(_, _) => p' == p && y == Out
  }

  predicate Moves(a: Atomic, t: nat, a': Atomic) {
    && t < |a.ph| && t < |a'.ph| && a'.ph == a.ph[t := a'.ph[t]]
    && Proper(a.pool, a.ph[t], a'.pool, a'.ph[t])
  }

  predicate Moved(a: Atomic, a': Atomic) {
    exists t :: 0 <= t < |a.ph| && Moves(a, t, a')
  }

  // ----- Every run is a run of that pool -----

  function PhaseOf(x: PC): Phase {
    match x
    case Idle => Out
    case ReqWait(timed) => Asked(Request, timed)
    case ReqLock => Asked(Request, false)
    case ReqTake => Asked(Request, false)
    case ReqUnlock(got) => Answered(true, Some(got))
    case RelQuery(c) => Asked(Release(c), false)
    case RelLock(c) => Asked(Release(c), false)
    case RelDrop(c) => Asked(Release(c), false)
    case RelPost => Answered(true, None)
    case RelUnlock => Answered(true, None)
    case RefLock(c, delta) => Asked(Change(c, delta), false)
    case RefChange(c, delta) => Asked(Change(c, delta), false)
    case RefUnlock(ok) => Answered(ok, None)
  }

  function Phases(pc: seq<PC>): (ph: seq<Phase>)
    ensures |ph| == |pc| && forall t :: 0 <= t < |pc| ==> ph[t] == PhaseOf(pc[t])
  {
    seq(|pc|, t requires 0 <= t < |pc| => PhaseOf(pc[t]))
  }

  function PoolOf(s: State): Pool { Pool(s.max, s.free, s.refs) }
  function View(s: State): Atomic { Atomic(PoolOf(s), Phases(s.pc)) }

  lemma PhasesMove(pc: seq<PC>, t: nat, x: PC)
    requires t < |pc|
    ensures Phases(pc[t := x]) == Phases(pc)[t := PhaseOf(x)]
  {
  }

  /** What a step is to the caller: nothing, or a proper move. */
  predicate Seen(s: State, t: nat, s': State)
    requires t < |s.pc| && t < |s'.pc|
  {
    var x, y := PhaseOf(s.pc[t]), PhaseOf(s'.pc[t]);
    (y == x && PoolOf(s') == PoolOf(s)) || Proper(PoolOf(s), x, PoolOf(s'), y)
  }

  lemma TakeSeen(s: State, t: nat, s': State)
    requires Inv(s) && t < |s.pc| && t < |s'.pc| && Step(s, t, s') && s.pc[t].ReqTake?
    ensures Seen(s, t, s')
  {
    TakeFinds(s, t);
    hide Inv, Remove, Append;
  }

  lemma DropSeen(s: State, t: nat, s': State)
    requires Inv(s) && t < |s.pc| && t < |s'.pc| && CallerKeepsChunk(s, t) && Step(s, t, s') && s.pc[t].RelDrop?
    ensures Seen(s, t, s')
  {
    DropFrees(s, s.pc[t].c);
    Listed(s, s.pc[t].c);
    hide Inv, Partition, FreeUnused, Remove, Append;
  }

  lemma ChangeSeen(s: State, t: nat, s': State)
    requires Inv(s) && t < |s.pc| && t < |s'.pc| && CallerKeepsChunk(s, t) && Step(s, t, s') && s.pc[t].RefChange?
    ensures Seen(s, t, s')
  {
    if 0 <= s.pc[t].c < s.max { Listed(s, s.pc[t].c); }
    hide Inv, Partition, FreeUnused;
  }

  lemma OtherSeen(s: State, t: nat, s': State)
    requires t < |s.pc| && t < |s'.pc| && (Step(s, t, s') || Call(s, t, s'))
    requires !s.pc[t].ReqTake? && !s.pc[t].RelDrop? && !s.pc[t].RefChange?
    ensures Seen(s, t, s')
  {
  }

  lemma StepRefines(s: State, t: nat, s': State)
    requires Inv(s) && t < |s.pc| && CallerKeepsChunk(s, t) && (Step(s, t, s') || Call(s, t, s'))
    ensures View(s') == View(s) || Moves(View(s), t, View(s'))
  {
    hide Inv, Step, PhaseOf, Proper, CallerKeepsChunk;
    if Step(s, t, s') { OneMoves(s, t, s'); }
    if s.pc[t].ReqTake? && Step(s, t, s') {
      TakeSeen(s, t, s');
    } else if s.pc[t].RelDrop? && Step(s, t, s') {
      DropSeen(s, t, s');
    } else if s.pc[t].RefChange? && Step(s, t, s') {
      ChangeSeen(s, t, s');
    } else {
      OtherSeen(s, t, s');
    }
    PhasesMove(s.pc, t, s'.pc[t]);
    if PhaseOf(s'.pc[t]) == PhaseOf(s.pc[t]) { assert Phases(s'.pc) == Phases(s.pc); }
  }

  lemma StartsUnused(s: State)
    requires Init(s)
    ensures View(s).pool.free == Range(s.max) && forall c :: 0 <= c < |s.refs| ==> View(s).pool.refs[c] == 0
    ensures forall t :: 0 <= t < |s.pc| ==> View(s).ph[t] == Out
  {
  }

  /** In every interleaving callers see the pool on which operations happen at single moments: no chunk
      has a user at the start, and each step is one of its steps or changes nothing callers see. */
  lemma RunRefines(run: seq<State>, i: nat)
    requires Run(run) && i + 1 < |run| && Init(run[0])
    ensures var a := View(run[0]);
      && a.pool.free == Range(a.pool.max) && (forall c :: 0 <= c < |a.pool.refs| ==> a.pool.refs[c] == 0)
      && forall t :: 0 <= t < |a.ph| ==> a.ph[t] == Out
    ensures View(run[i + 1]) == View(run[i]) || Moved(View(run[i]), View(run[i + 1]))
  {
    RunInv(run, i);
    hide Step, Inv, Call, Moves, CallerKeepsChunk;
    var s, s' := run[i], run[i + 1];
    StartsUnused(run[0]);
    assert Next(run[i + 1 - 1], run[i + 1]);
    var t :| 0 <= t < |s.pc| && (Call(s, t, s') || (CallerKeepsChunk(s, t) && Step(s, t, s')));
    if Call(s, t, s') { CallKeepsChunk(s, t, s'); }
    StepRefines(s, t, s');
  }

  // ----- Calls get through -----

  /** What the thread waits for is there. */
  predicate Ready(s: State, t: nat)
    requires t < |s.pc|
  {
    match s.pc[t]
    case Idle => false
    case ReqWait(_) => s.slots > 0
    case ReqLock => !s.locked
    case ReqTake => s.free != [] && s.free[0] < |s.refs|
    case RelLock(_) => !s.locked
    case RelDrop(c) => 0 <= c < |s.refs|
    case RefLock(_, _) => !s.locked
    case RefChange(c, _) => 0 <= c < s.max ==> c < |s.refs|
    case _ => true
  }

  predicate TimesOut(x: PC, y: PC) { x.ReqWait? && y.Idle? }

  ghost predicate Proceeds(s: State, t: nat)
    requires t < |s.pc|
  {
    exists s' :: Step(s, t, s') && t < |s'.pc| && !TimesOut(s.pc[t], s'.pc[t])
  }

  ghost predicate GivesUp(s: State, t: nat)
    requires t < |s.pc|
  {
    exists s' :: Step(s, t, s') && t < |s'.pc| && TimesOut(s.pc[t], s'.pc[t])
  }

  /** The step with which a thread goes on. */
  function After(s: State, t: nat): State
    requires t < |s.pc| && Ready(s, t)
  {
    match s.pc[t]
    case ReqWait(_) => Goto(s, t, ReqLock).(slots := s.slots - 1)
    case ReqLock => Goto(s, t, ReqTake).(locked := true)
    case ReqTake => Goto(Taken(s), t, ReqUnlock(s.free[0]))
    case ReqUnlock(_) => Goto(s, t, Idle).(locked := false)
    case RelQuery(c) => Goto(s, t, if Query(s, c) == -1 then Idle else RelLock(c))
    case RelLock(c) => Goto(s, t, RelDrop(c)).(locked := true)
    case RelDrop(c) => Goto(Dropped(s, c), t, if Dropped(s, c).refs[c] > 0 then RelUnlock else RelPost)
    case RelPost => Goto(s, t, RelUnlock).(slots := s.slots + 1)
    case RelUnlock => Goto(s, t, Idle).(locked := false)
    case RefLock(c, delta) => Goto(s, t, RefChange(c, delta)).(locked := true)
    case RefChange(c, delta) =>
      if Query(s, c) == -1 then Goto(s, t, RefUnlock(false))
      else Goto(s, t, RefUnlock(true)).(refs := s.refs[c := s.refs[c] + delta])
    case RefUnlock(_) => Goto(s, t, Idle).(locked := false)
  }

  lemma AfterSteps(s: State, t: nat)
    requires t < |s.pc| && Ready(s, t)
    ensures Step(s, t, After(s, t)) && t < |After(s, t).pc| && !TimesOut(s.pc[t], After(s, t).pc[t])
  {
  }

  lemma ProceedReady(s: State, t: nat, s': State)
    requires t < |s.pc| && Step(s, t, s') && t < |s'.pc|
    ensures if TimesOut(s.pc[t], s'.pc[t]) then s.pc[t] == ReqWait(true) else Ready(s, t)
  {
  }

  lemma TimeOutStep(s: State, t: nat)
    requires t < |s.pc| && s.pc[t] == ReqWait(true)
    ensures GivesUp(s, t)
  {
    var s' := Goto(s, t, Idle);
    assert Step(s, t, s') && TimesOut(s.pc[t], s'.pc[t]);
  }

  /** A thread, timed or not, can go on exactly when what it waits for is there; and only a timed
      request can give up. */
  lemma ProceedsExactlyWhen(s: State, t: nat)
    requires t < |s.pc|
    ensures Proceeds(s, t) <==> Ready(s, t)
    ensures GivesUp(s, t) <==> s.pc[t] == ReqWait(true)
  {
    hide Step, Ready;
    if Ready(s, t) { AfterSteps(s, t); }
    if s' :| Step(s, t, s') && t < |s'.pc| && !TimesOut(s.pc[t], s'.pc[t]) { ProceedReady(s, t, s'); }
    if s' :| Step(s, t, s') && t < |s'.pc| && TimesOut(s.pc[t], s'.pc[t]) { ProceedReady(s, t, s'); }
    if s.pc[t] == ReqWait(true) { TimeOutStep(s, t); }
  }

  /** `n` steps of thread `t` only lead from `s` to `s'`. */
  ghost predicate Alone(s: State, t: nat, s': State, n: nat)
    requires t < |s.pc|
    decreases n
  {
    if n == 0 then s' == s
    else exists m :: Step(s, t, m) && t < |m.pc| && Alone(m, t, s', n - 1)
  }

  lemma AloneNext(s: State, t: nat, s': State, n: nat)
    requires t < |s.pc| && Ready(s, t) && t < |After(s, t).pc| && Alone(After(s, t), t, s', n)
    ensures Alone(s, t, s', n + 1)
  {
    hide Step, Ready;
    AfterSteps(s, t);
  }

  lemma AloneDone(s: State, t: nat)
    requires t < |s.pc|
    ensures Alone(s, t, s, 0)
  {
  }

  /** Undisturbed, a request, timed or not, gets the first free chunk and is its only user. */
  lemma RequestAlone(s: State, t: nat, timed: bool) returns (last: State)
    requires Inv(s) && t < |s.pc| && s.pc[t] == ReqWait(timed) && s.slots > 0 && !s.locked
    ensures s.free != [] && s.free[0] < |s.refs| && s.refs[s.free[0]] == 0
    ensures last.pc == s.pc[t := ReqUnlock(s.free[0])] && last.slots == s.slots - 1
    ensures last.free == s.free[1..] && last.alloc == s.alloc + [s.free[0]] && last.refs == s.refs[s.free[0] := 1]
    ensures Alone(s, t, last, 3) && Step(last, t, Goto(last, t, Idle).(locked := false))
  {
    hide Step, Alone, Remove, Append, Inv;
    FirstTaken(s, t);
    var s1 := After(s, t);
    var s2 := After(s1, t);
    last := After(s2, t);
    AloneDone(last, t);
    AloneNext(s2, t, last, 0);
    AloneNext(s1, t, last, 1);
    AloneNext(s, t, last, 2);
    AfterSteps(last, t);
  }

  /** What a request finds once it has its token. */
  lemma FirstTaken(s: State, t: nat)
    requires Inv(s) && t < |s.pc| && s.slots > 0
    ensures s.free != [] && s.free[0] < s.max == |s.refs| && s.refs[s.free[0]] == 0
    ensures Remove(s.free, s.free[0]) == s.free[1..] && Append(s.alloc, s.max, s.free[0]) == s.alloc + [s.free[0]]
  {
    hide Remove, Append;
    MoveOut(s.free, s.alloc, s.max);
    FirstGoes(s.free);
  }

  /** Undisturbed, a change of references adds `more` to the users of an allocated chunk, and to
      nothing else. */
  lemma ChangeAlone(s: State, t: nat, c: nat, more: int)
    requires Inv(s) && t < |s.pc| && s.pc[t] == RefLock(c, more) && c in s.alloc && !s.locked
    ensures c < |s.refs| && Alone(s, t, Goto(s, t, Idle).(refs := s.refs[c := s.refs[c] + more]), 3)
  {
    hide Step, Alone, Inv;
    AllocatedListed(s, c);
    var s1 := After(s, t);
    var s2 := After(s1, t);
    var s' := After(s2, t);
    assert s'.pc == s.pc[t := Idle];
    AloneDone(s', t);
    AloneNext(s2, t, s', 0);
    AloneNext(s1, t, s', 1);
    AloneNext(s, t, s', 2);
  }

  lemma AllocatedListed(s: State, c: nat)
    requires Inv(s) && c in s.alloc
    ensures c < s.max == |s.refs|
  {
    Listed(s, c);
  }

  /** Undisturbed, a release of a chunk with other users takes one away; of a chunk with none, it makes
      the chunk the last free one and posts the semaphore. */
  lemma ReleaseAlone(s: State, t: nat, c: nat)
    requires Inv(s) && t < |s.pc| && s.pc[t] == RelQuery(c) && c in s.alloc && !s.locked
    ensures c < |s.refs|
    ensures s.refs[c] > 1 ==> Alone(s, t, Goto(s, t, Idle).(refs := s.refs[c := s.refs[c] - 1]), 4)
    ensures s.refs[c] <= 1 ==> Alone(s, t, Goto(s, t, Idle)
                                 .(refs := s.refs[c := 0], alloc := Remove(s.alloc, c), free := s.free
                                   + [c], slots := s.slots + 1), 5)
  {
    hide Step, Alone, Inv, Remove, Append;
    AllocatedListed(s, c);
    var s1 := After(s, t);
    var s2 := After(s1, t);
    var s3 := After(s2, t);
    RoomBack(s, c);
    if s.refs[c] > 1 {
      var s' := After(s3, t);
      assert s'.pc == s.pc[t := Idle];
      AloneDone(s', t);
      AloneNext(s3, t, s', 0);
      AloneNext(s2, t, s', 1);
      AloneNext(s1, t, s', 2);
      AloneNext(s, t, s', 3);
    } else {
      var s4 := After(s3, t);
      var s' := After(s4, t);
      assert s'.pc == s.pc[t := Idle];
      AloneDone(s', t);
      AloneNext(s4, t, s', 0);
      AloneNext(s3, t, s', 1);
      AloneNext(s2, t, s', 2);
      AloneNext(s1, t, s', 3);
      AloneNext(s, t, s', 4);
    }
  }

  lemma RoomBack(s: State, c: nat)
    requires Inv(s) && c in s.alloc
    ensures Append(s.free, s.max, c) == s.free + [c]
  {
  }
}
