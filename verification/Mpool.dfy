/** The memory pool of `src/multithread/mpool.c` under any number of threads. A chunk is its index;
    each operation on the semaphore or the mutex, and each use of the lists and the reference
    counts under the mutex, is one step. */
module Mpool {
  import opened Threads

  /** Where a thread stands in `mpool_req` and `mpool_timedreq`, in `mpool_release`, and in
      `mpool_ref_add` (`delta` 1) and `mpool_ref_remove` (`delta` -1). */
  datatype PC =
    | Idle
    | ReqWait(timed: bool) | ReqLock | ReqTake | ReqUnlock(got: nat)
    | RelQuery(c: int) | RelLock(c: int) | RelDrop(c: int) | RelPost | RelUnlock
    | RefLock(c: int, delta: int) | RefChange(c: int, delta: int) | RefUnlock(ok: bool)

  datatype State = State(max: nat, slots: nat, locked: bool, free: seq<nat>, alloc: seq<nat>, refs: seq<int>,
                         pc: seq<PC>)

  function Range(n: nat): (s: seq<nat>)
    ensures |s| == n
  {
    if n == 0 then [] else Range(n - 1) + [n - 1]
  }

  predicate Init(s: State) {
    && s.slots == s.max == |s.refs| && !s.locked && s.free == Range(s.max) && s.alloc == []
    && (forall c :: 0 <= c < s.max ==> s.refs[c] == 0)
    && forall t :: 0 <= t < |s.pc| ==> s.pc[t] == Idle
  }

  // ----- llist.c, as the pool uses it -----

  /** `llist_append`; a full list refuses. */
  function Append(l: seq<nat>, max: nat, c: nat): seq<nat> {
    if |l| == max then l else l + [c]
  }

  /** `llist_remove`; an element that is not there is no error. */
  function Remove(l: seq<nat>, c: nat): (r: seq<nat>)
    ensures multiset(r) == multiset(l) - multiset{c}
  {
    if l == [] then [] else
      assert l == [l[0]] + l[1..];
      if l[0] == c then l[1..] else [l[0]] + Remove(l[1..], c)
  }

  /** `mpool_ref_query`: -1 for what is not a chunk of this pool. */
  function Query(s: State, c: int): int { if 0 <= c < s.max then c else -1 }

  function Goto(s: State, t: nat, x: PC): State
    requires t < |s.pc|
  {
    s.(pc := s.pc[t := x])
  }

  predicate Call(s: State, t: nat, s': State)
    requires t < |s.pc|
  {
    s.pc[t].Idle? && t < |s'.pc| && s' == Goto(s, t, s'.pc[t])
    && (s'.pc[t].ReqWait? || s'.pc[t].RelQuery? || (s'.pc[t].RefLock? && (s'.pc[t].delta == 1 || s'.pc[t].delta == -1)))
  }

  /** The first free chunk changes lists and gets one more user. */
  function Taken(s: State): State
    requires s.free != [] && s.free[0] < |s.refs|
  {
    var c := s.free[0];
    s.(free := Remove(s.free, c), alloc := Append(s.alloc, s.max, c), refs := s.refs[c := s.refs[c] + 1])
  }

  /** One user less; without users the chunk goes back. */
  function Dropped(s: State, c: nat): State
    requires c < |s.refs|
  {
    var n := if s.refs[c] - 1 > 0 then s.refs[c] - 1 else 0;
    var s1 := s.(refs := s.refs[c := n]);
    if n > 0 then s1 else s1.(alloc := Remove(s.alloc, c), free := Append(s.free, s.max, c))
  }

  predicate Step(s: State, t: nat, s': State)
    requires t < |s.pc|
  {
    match s.pc[t]
    case Idle => false
    case ReqWait(timed) =>
      || (s.slots > 0 && s' == Goto(s, t, ReqLock).(slots := s.slots - 1))
      || (timed && s' == Goto(s, t, Idle))
    case ReqLock => !s.locked && s' == Goto(s, t, ReqTake).(locked := true)
    case ReqTake => s.free != [] && s.free[0] < |s.refs| && s' == Goto(Taken(s), t, ReqUnlock(s.free[0]))
    case ReqUnlock(_) => s' == Goto(s, t, Idle).(locked := false)
    case RelQuery(c) => s' == Goto(s, t, if Query(s, c) == -1 then Idle else RelLock(c))
    case RelLock(c) => !s.locked && s' == Goto(s, t, RelDrop(c)).(locked := true)
    case RelDrop(c) =>
      0 <= c < |s.refs| && s' == Goto(Dropped(s, c), t, if Dropped(s, c).refs[c] > 0 then RelUnlock else RelPost)
    case RelPost => s' == Goto(s, t, RelUnlock).(slots := s.slots + 1)
    case RelUnlock => s' == Goto(s, t, Idle).(locked := false)
    case RefLock(c, delta) => !s.locked && s' == Goto(s, t, RefChange(c, delta)).(locked := true)
    case RefChange(c, delta) =>
      if Query(s, c) == -1 then s' == Goto(s, t, RefUnlock(false))
      else c < |s.refs| && s' == Goto(s, t, RefUnlock(true)).(refs := s.refs[c := s.refs[c] + delta])
    case RefUnlock(_) => s' == Goto(s, t, Idle).(locked := false)
  }

  /** What callers owe: a chunk they release, or whose references they change, is allocated. */
  predicate CallerKeepsChunk(s: State, t: nat)
    requires t < |s.pc|
  {
    && (s.pc[t].RelDrop? ==> s.pc[t].c in s.alloc)
    && (s.pc[t].RefChange? && 0 <= s.pc[t].c < s.max ==> s.pc[t].c in s.alloc)
  }

  /** Only thread `t` moves. */
  lemma OneMoves(s: State, t: nat, s': State)
    requires t < |s.pc| && Step(s, t, s')
    ensures |s'.pc| == |s.pc| && s'.pc == s.pc[t := s'.pc[t]] && s'.max == s.max
  {
  }

  predicate Next(s: State, s': State) {
    exists t :: 0 <= t < |s.pc| && (Call(s, t, s') || (CallerKeepsChunk(s, t) && Step(s, t, s')))
  }

  // ----- Threads in flight -----

  /** Has a token, no chunk yet. */
  function Taking(x: PC): nat { if x.ReqLock? || x.ReqTake? then 1 else 0 }

  /** Has given a chunk back, its token not yet. */
  function Posting(x: PC): nat { if x.RelPost? then 1 else 0 }

  function Locking(x: PC): nat {
    if x.ReqTake? || x.ReqUnlock? || x.RelDrop? || x.RelPost? || x.RelUnlock? || x.RefChange? || x.RefUnlock?
    then 1 else 0
  }

  /** Every chunk is in one of the two lists, once. */
  ghost predicate Partition(s: State) {
    && |s.free| + |s.alloc| == s.max == |s.refs|
    && forall c: nat :: multiset(s.free)[c] + multiset(s.alloc)[c] == if c < s.max then 1 else 0
  }

  predicate FreeUnused(s: State)
    requires |s.refs| == s.max
  {
    forall c :: 0 <= c < s.max && c in s.free ==> s.refs[c] == 0
  }

  /** Chunks under release come from this pool. */
  predicate Ours(s: State) {
    forall t :: 0 <= t < |s.pc| && (s.pc[t].RelLock? || s.pc[t].RelDrop?) ==> 0 <= s.pc[t].c < s.max
  }

  ghost predicate Inv(s: State) {
    && Partition(s) && FreeUnused(s) && Ours(s)
    && s.slots + Total(s.pc, Taking) + Total(s.pc, Posting) == |s.free|
    && Total(s.pc, Locking) == (if s.locked then 1 else 0)
  }

  lemma {:induction false} RangeOnce(n: nat, c: nat)
    ensures multiset(Range(n))[c] == if c < n then 1 else 0
  {
    if n > 0 { RangeOnce(n - 1, c); }
  }

  lemma InitInv(s: State)
    requires Init(s)
    ensures Inv(s)
  {
    forall c: nat ensures multiset(s.free)[c] + multiset(s.alloc)[c] == if c < s.max then 1 else 0 {
      RangeOnce(s.max, c);
    }
    TotalZero(s.pc, Taking);
    TotalZero(s.pc, Posting);
    TotalZero(s.pc, Locking);
  }

  lemma Sums(pc: seq<PC>, t: nat, x: PC)
    requires t < |pc|
    ensures var y := pc[t := x];
      && Total(y, Taking) == Total(pc, Taking) - Taking(pc[t]) + Taking(x)
      && Total(y, Posting) == Total(pc, Posting) - Posting(pc[t]) + Posting(x)
      && Total(y, Locking) == Total(pc, Locking) - Locking(pc[t]) + Locking(x)
    ensures Taking(pc[t]) <= Total(pc, Taking) && Posting(pc[t]) <= Total(pc, Posting)
    ensures Locking(pc[t]) <= Total(pc, Locking)
  {
    TotalStep(pc, t, x, Taking);
    TotalStep(pc, t, x, Posting);
    TotalStep(pc, t, x, Locking);
  }

  /** A requester past the semaphore finds a chunk nobody uses, and is its only user. */
  lemma TakeFinds(s: State, t: nat)
    requires Inv(s) && t < |s.pc| && s.pc[t].ReqTake?
    ensures s.free != [] && s.free[0] < s.max && s.refs[s.free[0]] == 0 && s.free[0] !in s.alloc
    ensures Taken(s).refs == s.refs[s.free[0] := 1] && Taken(s).free == s.free[1..]
    ensures Taken(s).alloc == s.alloc + [s.free[0]]
    ensures Partition(Taken(s)) && FreeUnused(Taken(s))
  {
    hide Total, Remove, Append;
    AtLeast(s.pc, t, Taking);
    MoveOut(s.free, s.alloc, s.max);
    FirstGoes(s.free);
  }

  lemma FirstGoes(l: seq<nat>)
    requires l != []
    ensures Remove(l, l[0]) == l[1..]
  {
  }

  /** The same for the first free chunk. */
  lemma MoveOut(free: seq<nat>, alloc: seq<nat>, max: nat)
    requires forall x: nat :: multiset(free)[x] + multiset(alloc)[x] == if x < max then 1 else 0
    requires free != [] && |free| + |alloc| == max
    ensures free[0] < max && free[0] !in alloc && Append(alloc, max, free[0]) == alloc + [free[0]]
    ensures forall x: nat :: multiset(free[1..])[x] + multiset(alloc + [free[0]])[x] == if x < max then 1 else 0
    ensures free[0] !in free[1..] && forall x :: x in free[1..] ==> x in free
  {
    var c := free[0];
    assert free == [c] + free[1..];
    assert multiset(free) == multiset{c} + multiset(free[1..]);
    assert multiset(free)[c] + multiset(alloc)[c] == 1;
    assert c !in multiset(alloc) && c !in multiset(free[1..]);
  }

  /** Taking a chunk off the one list and putting it on the other. */
  lemma MoveBack(free: seq<nat>, alloc: seq<nat>, max: nat, c: nat)
    requires forall x: nat :: multiset(free)[x] + multiset(alloc)[x] == if x < max then 1 else 0
    requires c in alloc && |free| + |alloc| == max
    ensures c < max && c !in free && c !in Remove(alloc, c) && |Remove(alloc, c)| == |alloc| - 1 && |free| < max
    ensures forall x: nat :: multiset(free + [c])[x] + multiset(Remove(alloc, c))[x] == if x < max then 1 else 0
    ensures forall x :: x in Remove(alloc, c) ==> x in alloc
  {
    hide Remove;
    var rest := Remove(alloc, c);
    assert multiset(alloc)[c] > 0 && multiset(free)[c] + multiset(alloc)[c] == 1;
    assert multiset(rest) == multiset(alloc) - multiset{c};
    assert |multiset(rest)| == |alloc| - 1;
    assert c !in multiset(rest) && c !in multiset(free);
    forall x | x in rest ensures x in alloc {
      assert multiset(rest)[x] > 0;
    }
  }

  /** A release gives the chunk back exactly when its last reference goes. */
  lemma DropFrees(s: State, c: nat)
    requires Partition(s) && FreeUnused(s) && c in s.alloc
    ensures c < s.max && Partition(Dropped(s, c)) && FreeUnused(Dropped(s, c))
    ensures if s.refs[c] > 1 then Dropped(s, c) == s.(refs := s.refs[c := s.refs[c] - 1])
            else Dropped(s, c).free == s.free + [c] && Dropped(s, c).refs == s.refs[c := 0]
                 && Dropped(s, c).alloc == Remove(s.alloc, c) && |Remove(s.alloc, c)| == |s.alloc| - 1
                 && c !in Remove(s.alloc, c)
    ensures forall x :: x in Dropped(s, c).alloc ==> x in s.alloc
  {
    hide Remove, Partition, FreeUnused;
    Listed(s, c);
    if s.refs[c] > 1 { RefsLeft(s, c); } else { LastGone(s, c); }
  }

  lemma Listed(s: State, c: nat)
    requires Partition(s) && c in s.alloc
    ensures c < s.max == |s.refs| && c !in s.free
  {
    assert multiset(s.alloc)[c] > 0 && multiset(s.free)[c] + multiset(s.alloc)[c] == 1;
  }

  lemma RefsLeft(s: State, c: nat)
    requires Partition(s) && FreeUnused(s) && c in s.alloc && c < s.max && s.refs[c] > 1
    ensures Partition(Dropped(s, c)) && FreeUnused(Dropped(s, c))
  {
    Listed(s, c);
  }

  lemma LastGone(s: State, c: nat)
    requires Partition(s) && FreeUnused(s) && c in s.alloc && c < s.max && s.refs[c] <= 1
    ensures Partition(Dropped(s, c)) && FreeUnused(Dropped(s, c))
    ensures Dropped(s, c).free == s.free + [c] && |Remove(s.alloc, c)| == |s.alloc| - 1 && c !in Remove(s.alloc, c)
    ensures forall x :: x in Remove(s.alloc, c) ==> x in s.alloc
  {
    hide Remove;
    MoveBack(s.free, s.alloc, s.max, c);
  }

  lemma ReqStep(s: State, t: nat, s': State)
    requires Inv(s) && t < |s.pc| && Step(s, t, s') && s.pc[t].ReqTake?
    ensures Inv(s')
  {
    TakeFinds(s, t);
    Sums(s.pc, t, s'.pc[t]);
    hide Total, Taken;
    assert s' == Goto(Taken(s), t, ReqUnlock(s.free[0]));
  }

  lemma RelStep(s: State, t: nat, s': State)
    requires Inv(s) && t < |s.pc| && CallerKeepsChunk(s, t) && Step(s, t, s') && s.pc[t].RelDrop?
    ensures Inv(s')
  {
    hide Total, Remove;
    Sums(s.pc, t, s'.pc[t]);
    DropFrees(s, s.pc[t].c);
    SamePool(Dropped(s, s.pc[t].c), s');
  }

  /** The lists and the counts decide, not the threads. */
  lemma SamePool(s: State, s': State)
    requires s'.free == s.free && s'.alloc == s.alloc && s'.refs == s.refs && s'.max == s.max
    requires Partition(s) && FreeUnused(s)
    ensures Partition(s') && FreeUnused(s')
  {
  }

  lemma RefStep(s: State, t: nat, s': State)
    requires Inv(s) && t < |s.pc| && CallerKeepsChunk(s, t) && Step(s, t, s') && s.pc[t].RefChange?
    ensures Inv(s')
  {
    hide Total;
    Sums(s.pc, t, s'.pc[t]);
    var c := s.pc[t].c;
    if 0 <= c < s.max {
      assert multiset(s.free)[c] + multiset(s.alloc)[c] == 1;
    }
  }

  /** No other step touches the lists or the counts. */
  lemma OtherSame(s: State, t: nat, s': State)
    requires t < |s.pc| && !s.pc[t].ReqTake? && !s.pc[t].RelDrop? && !s.pc[t].RefChange?
    requires Step(s, t, s') || Call(s, t, s')
    ensures s'.free == s.free && s'.alloc == s.alloc && s'.refs == s.refs && s'.max == s.max
    ensures t < |s'.pc| && s'.pc == s.pc[t := s'.pc[t]]
  {
  }

  lemma OtherStep(s: State, t: nat, s': State)
    requires Inv(s) && t < |s.pc| && !s.pc[t].ReqTake? && !s.pc[t].RelDrop? && !s.pc[t].RefChange?
    requires Step(s, t, s') || Call(s, t, s')
    ensures Inv(s')
  {
    hide Total, Partition, FreeUnused;
    OtherSame(s, t, s');
    Sums(s.pc, t, s'.pc[t]);
    SamePool(s, s');
  }

  lemma StepInv(s: State, t: nat, s': State)
    requires Inv(s) && t < |s.pc| && CallerKeepsChunk(s, t) && (Step(s, t, s') || Call(s, t, s'))
    ensures Inv(s') && |s'.pc| == |s.pc| && s'.max == s.max
  {
    hide Total;
    if s.pc[t].ReqTake? {
      ReqStep(s, t, s');
    } else if s.pc[t].RelDrop? {
      RelStep(s, t, s');
    } else if s.pc[t].RefChange? {
      RefStep(s, t, s');
    } else {
      OtherStep(s, t, s');
    }
  }

  // ----- Runs -----

  predicate Run(run: seq<State>) {
    forall i :: 0 < i < |run| ==> Next(run[i - 1], run[i])
  }

  lemma {:induction false} RunInv(run: seq<State>, i: nat)
    requires Run(run) && i < |run| && Init(run[0])
    ensures Inv(run[i])
  {
    InitInv(run[0]);
    if i > 0 {
      hide Step, Inv, Call, CallerKeepsChunk;
      RunInv(run, i - 1);
      var s, s' := run[i - 1], run[i];
      var t :| 0 <= t < |s.pc| && (Call(s, t, s') || (CallerKeepsChunk(s, t) && Step(s, t, s')));
      if Call(s, t, s') { CallKeepsChunk(s, t, s'); }
      StepInv(s, t, s');
    }
  }

  lemma CallKeepsChunk(s: State, t: nat, s': State)
    requires t < |s.pc| && Call(s, t, s')
    ensures CallerKeepsChunk(s, t)
  {
  }

  /** In every interleaving the two lists share the chunks out between them, the semaphore and the
      threads in flight count the free ones, and a requester past the semaphore always gets a
      chunk with exactly one reference. */
  lemma Conservation(run: seq<State>, i: nat, t: nat)
    requires Run(run) && i < |run| && Init(run[0]) && t < |run[i].pc|
    ensures var s := run[i];
      && Partition(s) && FreeUnused(s)
      && s.slots + Total(s.pc, Taking) + Total(s.pc, Posting) == |s.free|
      && (s.pc[t].ReqTake? ==> s.free != [] && s.free[0] < s.max && Taken(s).refs[s.free[0]] == 1)
  {
    RunInv(run, i);
    if run[i].pc[t].ReqTake? { TakeFinds(run[i], t); }
  }
}
