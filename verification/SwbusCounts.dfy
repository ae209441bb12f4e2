/** Reference counts on the bus: the count of a chunk is its outstanding reservation plus the
    queue entries that need it. */
module SwbusCounts {
  import opened Threads
  import opened Rbuffer
  import opened Swbus
  import opened SwbusLinks
  import opened SwbusQueues
  import L = Rdwrlock
  import M = Mpool
  import Q = Pcqueue

  /** Entries with chunk `c` of pool `p`. */
  function Occurs(l: seq<Entry>, p: nat, c: nat): nat {
    if l == [] then 0
    else Occurs(l[..|l| - 1], p, c) + if l[|l| - 1].bp == p && l[|l| - 1].data == c then 1 else 0
  }

  lemma {:induction false} OccursFirst(l: seq<Entry>, e: Entry, p: nat, c: nat)
    ensures Occurs([e] + l, p, c) == Occurs(l, p, c) + if e.bp == p && e.data == c then 1 else 0
  {
    if l == [] {
      assert [e] + l == [e];
      assert [e][..0] == [];
    } else {
      assert ([e] + l)[..|l|] == [e] + l[..|l| - 1];
      OccursFirst(l[..|l| - 1], e, p, c);
    }
  }

  lemma OccursLast(l: seq<Entry>, e: Entry, p: nat, c: nat)
    ensures Occurs(l + [e], p, c) == Occurs(l, p, c) + if e.bp == p && e.data == c then 1 else 0
  {
    assert (l + [e])[..|l|] == l;
  }

  function Holds(p: nat, c: nat): PC -> nat {
    x => if Held(x) == Some((p, c)) then 1 else 0
  }

  function OccursIn(p: nat, c: nat): seq<Entry> -> nat {
    l => Occurs(l, p, c)
  }

  function AllNeeded(s: State): (a: seq<seq<Entry>>)
    requires Shape(s)
    ensures |a| == |s.rxqs| && forall q :: 0 <= q < |a| ==> a[q] == Needed(s, q)
  {
    seq(|s.rxqs|, q requires 0 <= q < |s.rxqs| => Needed(s, q))
  }

  /** The count of each chunk. */
  ghost predicate Counts(s: State)
    requires Shape(s) && Pools(s)
  {
    forall p, c :: 0 <= p < |s.pools| && 0 <= c < s.pools[p].max ==>
      s.pools[p].refs[c] == Total(s.pc, Holds(p, c)) + Total(AllNeeded(s), OccursIn(p, c))
  }

  lemma RefsSize(s: State, p: nat)
    requires Pools(s) && p < |s.pools|
    ensures |s.pools[p].refs| == s.pools[p].max
  {
  }

  // ----- What keeps a chunk -----

  /** A chunk somebody counts on is allocated. */
  lemma CountedAllocated(m: M.State, c: nat)
    requires M.Inv(m) && c < m.max && m.refs[c] > 0
    ensures c in m.alloc && c !in m.free
  {
    assert multiset(m.free)[c] + multiset(m.alloc)[c] == 1;
  }

  lemma HeldCounts(s: State, t: nat, p: nat, c: nat)
    requires Shape(s) && Pools(s) && Counts(s) && t < |s.pc| && Held(s.pc[t]) == Some((p, c))
    requires p < |s.pools| && c < s.pools[p].max
    ensures s.pools[p].refs[c] > 0
  {
    AtLeast(s.pc, t, Holds(p, c));
  }

  lemma NeededCounts(s: State, q: nat, e: Entry)
    requires Shape(s) && Pools(s) && Counts(s) && q < |s.rxqs| && e in Needed(s, q) && IsChunk(s, e.bp, e.data)
    ensures s.pools[e.bp].refs[e.data] > 0
  {
    OccursOnce(Needed(s, q), e);
    assert OccursIn(e.bp, e.data)(AllNeeded(s)[q]) > 0;
    AtLeast(AllNeeded(s), q, OccursIn(e.bp, e.data));
  }

  lemma {:induction false} OccursOnce(l: seq<Entry>, e: Entry)
    requires e in l
    ensures Occurs(l, e.bp, e.data) > 0
  {
    if l[|l| - 1] != e { OccursOnce(l[..|l| - 1], e); }
  }

  /** Until the consumer gives its reference up, the front entry is needed. */
  lemma FrontNeeded(s: State, t: nat)
    requires Shape(s) && QueuesOk(s) && t < |s.pc| && ThreadOk(s, t)
    requires var x := s.pc[t]; x.RxExit? || x.RxHave? || (x.RxRel? && !x.dropped)
    ensures s.pc[t].q < |s.rxqs| && s.pc[t].e in Needed(s, s.pc[t].q) && IsChunk(s, s.pc[t].e.bp, s.pc[t].e.data)
  {
    hide LockAt, PoolAt, QueueAt;
    var q := s.pc[t].q;
    assert QueueOk(s, q);
    var v := ViewOf(s, q);
    assert v.checked && !v.released && v.front == Some(s.pc[t].e);
    assert NeededIn(v)[0] == v.f[0];
  }

  /** Where a thread releases a chunk or adds to its count, it is about that chunk. */
  lemma UsesOwnChunk(s: State, t: nat, p: nat)
    requires Shape(s) && t < |s.pc| && ThreadOk(s, t) && p < |s.pools|
    ensures var x, y := s.pc[t], s.pools[p].pc[t];
      y.RelDrop? || y.RefChange? ==>
        && (x.PubRef? || x.PubRel? || (x.RxRel? && !x.dropped)) && p == x.e.bp && y.c == x.e.data
        && (!x.RxRel? ==> Held(x) == Some((x.e.bp, x.e.data)))
  {
    hide LockAt, QueueAt;
    assert PoolAt(s.pc[t], p, s.pools[p].pc[t]);
  }

  lemma ThreadKeepsChunk(s: State, t: nat, p: nat)
    requires Linked(s) && QueuesOk(s) && Counts(s) && t < |s.pc| && p < |s.pools|
    ensures M.CallerKeepsChunk(s.pools[p], t)
    ensures var y := s.pools[p].pc[t]; y.RelDrop? ==> 0 <= y.c < s.pools[p].max && s.pools[p].refs[y.c] > 0
  {
    hide Linked, ThreadOk, QueuesOk, Counts, Pools, M.Inv, Held;
    ThreadLinked(s, t);
    PoolInv(s, p);
    UsesOwnChunk(s, t, p);
    var x, y := s.pc[t], s.pools[p].pc[t];
    if y.RelDrop? || y.RefChange? {
      if x.RxRel? {
        FrontNeeded(s, t);
        NeededCounts(s, x.q, x.e);
      } else {
        HeldChunk(s, t);
        HeldCounts(s, t, p, x.e.data);
      }
      CountedAllocated(s.pools[p], x.e.data);
    }
  }

  lemma HeldChunk(s: State, t: nat)
    requires Shape(s) && t < |s.pc| && ThreadOk(s, t) && Held(s.pc[t]).Some?
    ensures IsChunk(s, Held(s.pc[t]).value.0, Held(s.pc[t]).value.1)
  {
  }

  /** So the bus owes the pools nothing: whoever releases a chunk, or adds a reference to it, does
      so while it is allocated. */
  lemma BusKeepsChunks(s: State, t: nat)
    requires Linked(s) && QueuesOk(s) && Counts(s) && t < |s.pc|
    ensures forall p :: 0 <= p < |s.pools| ==> M.CallerKeepsChunk(s.pools[p], t)
  {
    forall p | 0 <= p < |s.pools| ensures M.CallerKeepsChunk(s.pools[p], t) {
      ThreadKeepsChunk(s, t, p);
    }
  }

  // ----- What a step does to the counts -----

  /** The pool a step is about, if any, and the call it makes there. */
  function AboutPool(x: PC): Option<(nat, M.PC)> {
    match x
    case RsvReq(i, _, _) => Some((i, M.ReqWait(false)))
    case PubRef(e, _, _, _) => Some((e.bp, M.RefLock(e.data, 1)))
    case PubRel(e, _) => Some((e.bp, M.RelQuery(e.data)))
    case RxRel(_, e, _) => Some((e.bp, M.RelQuery(e.data)))
    case _ => None
  }

  /** The chunk whose count the next step of `t` in pool `p` changes, and by how much. */
  function CountedIn(m: M.State, t: nat, p: nat): Option<(nat, int, int)>
    requires t < |m.pc|
  {
    match m.pc[t]
    case ReqTake => if m.free != [] then Some((p, m.free[0], 1)) else None
    case RefChange(c, delta) => Some((p, c, delta))
    case RelDrop(c) => Some((p, c, -1))
    case _ => None
  }

  function CountedBy(s: State, t: nat): Option<(nat, int, int)>
    requires Shape(s) && t < |s.pc|
  {
    var about := AboutPool(s.pc[t]);
    if about.Some? && about.value.0 < |s.pools| then CountedIn(s.pools[about.value.0], t, about.value.0) else None
  }

  function Delta(d: Option<(nat, int, int)>, p: nat, c: nat): int {
    if d.Some? && d.value.0 == p && d.value.1 == c then d.value.2 else 0
  }

  lemma PoolSize(m: M.State)
    requires M.Inv(m)
    ensures |m.refs| == m.max
  {
  }

  lemma TakeRefs(m: M.State, t: nat, m': M.State)
    requires M.Inv(m) && t < |m.pc| && m.pc[t].ReqTake? && M.Step(m, t, m')
    ensures m.free != [] && m.free[0] < m.max == |m.refs| == m'.max
    ensures m'.refs == m.refs[m.free[0] := m.refs[m.free[0]] + 1]
  {
    hide Total, M.Inv, M.Partition, M.FreeUnused, M.Remove, M.Append;
    PoolSize(m);
    M.TakeFinds(m, t);
  }

  lemma DropRefs(m: M.State, t: nat, m': M.State)
    requires M.Inv(m) && t < |m.pc| && m.pc[t].RelDrop? && M.Step(m, t, m') && m.pc[t].c in m.alloc
    requires m.pc[t].c < m.max && m.refs[m.pc[t].c] > 0
    ensures 0 <= m.pc[t].c < |m.refs| == m.max == m'.max && m'.refs == m.refs[m.pc[t].c := m.refs[m.pc[t].c] - 1]
  {
    hide Total, M.Partition, M.FreeUnused, M.Remove, M.Append;
    PoolSize(m);
    M.DropFrees(m, m.pc[t].c);
  }

  lemma OtherRefs(m: M.State, t: nat, first: M.PC, m': M.State)
    requires M.Inv(m) && t < |m.pc| && PoolMoves(m, t, first, m') && !m.pc[t].ReqTake? && !m.pc[t].RelDrop?
    ensures |m.refs| == m.max == m'.max
    ensures var y := m.pc[t];
      m'.refs == if y.RefChange? && 0 <= y.c < m.max then m.refs[y.c := m.refs[y.c] + y.delta] else m.refs
  {
    hide Total, M.Inv, M.Taken, M.Dropped;
    PoolSize(m);
  }

  /** One call on a pool changes at most one count. */
  lemma RefsMove(m: M.State, t: nat, first: M.PC, m': M.State)
    requires M.Inv(m) && t < |m.pc| && PoolMoves(m, t, first, m') && M.CallerKeepsChunk(m, t)
    requires m.pc[t].RelDrop? ==> m.pc[t].c < m.max && m.refs[m.pc[t].c] > 0
    ensures |m'.refs| == m.max == m'.max
    ensures var y := m.pc[t];
      m'.refs ==
        if y.ReqTake? && m.free != [] && m.free[0] < m.max then m.refs[m.free[0] := m.refs[m.free[0]] + 1]
        else if y.RefChange? && 0 <= y.c < m.max then m.refs[y.c := m.refs[y.c] + y.delta]
        else if y.RelDrop? then m.refs[y.c := m.refs[y.c] - 1]
        else m.refs
  {
    hide Total, M.Inv, M.Step;
    if m.pc[t].ReqTake? {
      TakeRefs(m, t, m');
    } else if m.pc[t].RelDrop? {
      DropRefs(m, t, m');
    } else {
      OtherRefs(m, t, first, m');
    }
  }

  lemma PoolStep(s: State, t: nat, s': State, p: nat)
    requires Shape(s) && t < |s.pc| && Step(s, t, s') && p < |s.pools|
    ensures p < |s'.pools|
    ensures
      if AboutPool(s.pc[t]).Some? && AboutPool(s.pc[t]).value.0 == p
      then PoolMoves(s.pools[p], t, AboutPool(s.pc[t]).value.1, s'.pools[p])
      else s'.pools[p] == s.pools[p]
  {
    hide L.Step, M.Step, Q.Step, PoolMoves, QueueMoves, LockMoves;
  }

  lemma PoolDelta(m: M.State, t: nat, first: M.PC, m': M.State, p: nat, c: nat)
    requires M.Inv(m) && t < |m.pc| && PoolMoves(m, t, first, m') && M.CallerKeepsChunk(m, t) && c < m.max
    requires m.pc[t].RelDrop? ==> 0 <= m.pc[t].c < m.max && m.refs[m.pc[t].c] > 0
    ensures |m.refs| == |m'.refs| == m.max && m'.refs[c] == m.refs[c] + Delta(CountedIn(m, t, p), p, c)
  {
    RefsMove(m, t, first, m');
    if m.pc[t].ReqTake? { M.TakeFinds(m, t); }
    hide PoolMoves, M.CallerKeepsChunk, Total;
  }

  lemma PoolInv(s: State, p: nat)
    requires Linked(s) && p < |s.pools|
    ensures Shape(s) && Pools(s) && M.Inv(s.pools[p]) && |s.pools[p].refs| == s.pools[p].max
  {
    hide Parts, SubsOk, ThreadOk;
  }

  lemma RefsBy(s: State, t: nat, s': State, p: nat, c: nat)
    requires Linked(s) && QueuesOk(s) && Counts(s) && t < |s.pc| && Step(s, t, s')
    requires p < |s.pools| && c < s.pools[p].max
    ensures p < |s'.pools| && c < |s'.pools[p].refs| && c < |s.pools[p].refs|
    ensures s'.pools[p].refs[c] == s.pools[p].refs[c] + Delta(CountedBy(s, t), p, c)
  {
    hide Counts, QueuesOk, Step, PoolMoves, Linked, Pools, CountedIn, M.Inv, M.CallerKeepsChunk;
    PoolInv(s, p);
    ThreadKeepsChunk(s, t, p);
    PoolStep(s, t, s', p);
    if AboutPool(s.pc[t]).Some? && AboutPool(s.pc[t]).value.0 == p {
      PoolDelta(s.pools[p], t, AboutPool(s.pc[t]).value.1, s'.pools[p], p, c);
    } else {
      OtherPool(s, t, p, c);
    }
  }

  lemma OtherPool(s: State, t: nat, p: nat, c: nat)
    requires Shape(s) && t < |s.pc| && !(AboutPool(s.pc[t]).Some? && AboutPool(s.pc[t]).value.0 == p)
    ensures Delta(CountedBy(s, t), p, c) == 0
  {
  }

  /** A reservation begins when the pool gives a chunk, and ends when the publisher gives up its
      reference. */
  predicate Reserves(s: State, t: nat)
    requires Shape(s) && t < |s.pc|
  {
    s.pc[t].RsvReq? && s.pc[t].i < |s.pools| && s.pools[s.pc[t].i].pc[t].ReqTake? && s.pools[s.pc[t].i].free != []
  }

  predicate Finishes(s: State, t: nat)
    requires Shape(s) && t < |s.pc|
  {
    s.pc[t].PubRel? && s.pc[t].e.bp < |s.pools| && s.pools[s.pc[t].e.bp].pc[t].RelDrop?
  }

  predicate HeldMoves(s: State, t: nat, x': PC)
    requires Shape(s) && t < |s.pc|
  {
    var x := s.pc[t];
    if Reserves(s, t) then Held(x).None? && Held(x') == Some((x.i, s.pools[x.i].free[0]))
    else if Finishes(s, t) then Held(x) == Some((x.e.bp, x.e.data)) && Held(x').None?
    else Held(x') == Held(x)
  }

  lemma RequestTakes(m: M.State, t: nat, m': M.State)
    requires M.Inv(m) && t < |m.pc| && PoolMoves(m, t, M.ReqWait(false), m') && m.pc[t].ReqTake?
    ensures m.free != [] && m'.pc[t] == M.ReqUnlock(m.free[0])
  {
    M.TakeFinds(m, t);
  }

  lemma HeldRequesting(s: State, t: nat, s': State)
    requires Shape(s) && t < |s.pc| && ThreadOk(s, t) && ReserveStep(s, t, s') && t < |s'.pc| && Pools(s)
    requires s.pc[t].RsvReq?
    ensures HeldMoves(s, t, s'.pc[t])
  {
    hide LockAt, QueueAt, M.Step, PoolMoves, M.Inv;
    var i := s.pc[t].i;
    assert PoolAt(s.pc[t], i, s.pools[i].pc[t]);
    RequestMoves(s, t, i, s'.pools[i]);
    if s.pools[i].pc[t].ReqTake? {
      RequestTakes(s.pools[i], t, s'.pools[i]);
    } else {
      RequestOther(s.pools[i], t, s'.pools[i]);
    }
  }

  lemma RequestOther(m: M.State, t: nat, m': M.State)
    requires t < |m.pc| && PoolMoves(m, t, M.ReqWait(false), m') && !m.pc[t].ReqTake?
    ensures !m'.pc[t].ReqUnlock?
  {
  }

  lemma HeldReleasing(s: State, t: nat, s': State)
    requires Shape(s) && t < |s.pc| && ThreadOk(s, t) && NotifyStep(s, t, s') && t < |s'.pc| && Pools(s)
    requires s.pc[t].PubRel?
    ensures HeldMoves(s, t, s'.pc[t])
  {
    hide LockAt, QueueAt, M.Step, QueueMoves, M.Inv;
    var e := s.pc[t].e;
    assert PoolAt(s.pc[t], e.bp, s.pools[e.bp].pc[t]);
    ReleaseMoves(s.pools[e.bp], t, e.data, s.pc[t].dropped, s'.pools[e.bp]);
  }

  lemma ReleaseMoves(m: M.State, t: nat, c: nat, dropped: bool, m': M.State)
    requires t < |m.pc| && PoolMoves(m, t, M.RelQuery(c), m') && ReleaseAt(c, dropped, m.pc[t])
    requires dropped || c < m.max
    ensures var y := m'.pc[t];
      && (y.Idle? <==> m.pc[t].RelUnlock?)
      && (y.RelPost? || y.RelUnlock? <==> m.pc[t].RelDrop? || m.pc[t].RelPost?)
  {
  }

  lemma HeldAtPool(s: State, t: nat, s': State)
    requires Linked(s) && t < |s.pc| && Step(s, t, s') && t < |s'.pc|
    requires s.pc[t].RsvReq? || s.pc[t].PubRel?
    ensures HeldMoves(s, t, s'.pc[t])
  {
    hide BeginStep, ReserveStep, NotifyStep, MutexStep, LockStep, ConsumeStep, ThreadOk, Held, Linked;
    ThreadLinked(s, t);
    AtPoolStep(s, t, s');
    if s.pc[t].RsvReq? { HeldRequesting(s, t, s'); } else { HeldReleasing(s, t, s'); }
  }

  lemma ThreadLinked(s: State, t: nat)
    requires Linked(s)
    ensures Shape(s) && Pools(s) && (t < |s.pc| ==> ThreadOk(s, t))
  {
    hide ThreadOk, Parts, SubsOk;
  }

  lemma AtPoolStep(s: State, t: nat, s': State)
    requires Shape(s) && t < |s.pc| && Step(s, t, s') && (s.pc[t].RsvReq? || s.pc[t].PubRel?)
    ensures if s.pc[t].RsvReq? then ReserveStep(s, t, s') else NotifyStep(s, t, s')
  {
    hide PoolMoves, QueueMoves, LockMoves;
  }

  lemma HeldPublishing(s: State, t: nat, s': State)
    requires Shape(s) && t < |s.pc| && t < |s'.pc| && !s.pc[t].RsvReq? && !s.pc[t].PubRel?
    requires (s.pc[t].Idle? && BeginStep(s, t, s')) || ReserveStep(s, t, s') || NotifyStep(s, t, s')
    ensures Held(s'.pc[t]) == Held(s.pc[t])
  {
    hide L.Step, M.Step, Q.Step, PoolMoves, QueueMoves, LockMoves;
  }

  lemma HeldConsuming(s: State, t: nat, s': State)
    requires Shape(s) && t < |s.pc| && t < |s'.pc|
    requires MutexStep(s, t, s') || LockStep(s, t, s') || ConsumeStep(s, t, s')
    ensures Held(s'.pc[t]) == Held(s.pc[t])
  {
    hide L.Step, M.Step, Q.Step, PoolMoves, QueueMoves, LockMoves;
  }

  lemma HeldChanges(s: State, t: nat, s': State)
    requires Linked(s) && t < |s.pc| && Step(s, t, s') && t < |s'.pc|
    ensures HeldMoves(s, t, s'.pc[t])
  {
    assert Shape(s);
    hide BeginStep, ReserveStep, NotifyStep, MutexStep, LockStep, ConsumeStep, Linked, Held;
    if s.pc[t].RsvReq? || s.pc[t].PubRel? {
      HeldAtPool(s, t, s');
    } else if (s.pc[t].Idle? && BeginStep(s, t, s')) || ReserveStep(s, t, s') || NotifyStep(s, t, s') {
      HeldPublishing(s, t, s');
    } else {
      HeldConsuming(s, t, s');
    }
  }

  lemma FramePc(s: State, t: nat, s': State)
    requires Shape(s) && t < |s.pc| && Frame(s, t, s')
    ensures |s'.pc| == |s.pc| && s'.pc == s.pc[t := s'.pc[t]]
  {
  }

  /** The chunk of a reservation that begins or ends is the chunk whose count changes. */
  lemma HeldDelta(s: State, t: nat, x': PC, p: nat, c: nat)
    requires Shape(s) && t < |s.pc| && ThreadOk(s, t) && HeldMoves(s, t, x')
    ensures Holds(p, c)(x') == Holds(p, c)(s.pc[t])
      + Delta(if Reserves(s, t) || Finishes(s, t) then CountedBy(s, t) else None, p, c)
  {
    hide LockAt, QueueAt, Held;
  }

  lemma HoldsBy(s: State, t: nat, s': State, p: nat, c: nat)
    requires Linked(s) && t < |s.pc| && Step(s, t, s') && Frame(s, t, s')
    ensures Total(s'.pc, Holds(p, c)) == Total(s.pc, Holds(p, c))
      + Delta(if Reserves(s, t) || Finishes(s, t) then CountedBy(s, t) else None, p, c)
  {
    FramePc(s, t, s');
    HeldChanges(s, t, s');
    assert ThreadOk(s, t);
    HeldDelta(s, t, s'.pc[t], p, c);
    hide Total, Step, Linked, ThreadOk, Held, HeldMoves, Reserves, Finishes, CountedBy, Holds, Frame;
    TotalStep(s.pc, t, s'.pc[t], Holds(p, c));
  }

  lemma ChangedTotal(was: seq<seq<Entry>>, now: seq<seq<Entry>>, q: nat, change: Change, p: nat, c: nat)
    requires q < |was| == |now| && Changes(was[q], change, now[q])
    requires forall r :: 0 <= r < |was| && r != q ==> now[r] == was[r]
    ensures Total(now, OccursIn(p, c)) == Total(was, OccursIn(p, c)) +
      match change
      case Same => 0
      case Gains(e) => Delta(By(e, 1), p, c)
      case Loses(e) => Delta(By(e, -1), p, c)
  {
    hide Total, Occurs;
    assert now == was[q := now[q]];
    TotalStep(was, q, now[q], OccursIn(p, c));
    match change
    case Same =>
    case Gains(e) => OccursLast(was[q], e, p, c);
    case Loses(e) => OccursFirst(now[q], e, p, c);
  }

  lemma NeededChanges(s: State, t: nat, s': State)
    requires Linked(s) && Linked(s') && QueuesOk(s) && t < |s.pc| && Step(s, t, s') && Frame(s, t, s')
    ensures |AllNeeded(s')| == |AllNeeded(s)|
    ensures forall q :: 0 <= q < |AllNeeded(s)| ==>
      Changes(AllNeeded(s)[q], if About(s.pc[t]) == Some(q) then ChangeBy(s, t) else Same, AllNeeded(s')[q])
  {
    QueuesKept(s, t, s');
  }

  lemma NeededBy(s: State, t: nat, s': State, p: nat, c: nat)
    requires Linked(s) && Linked(s') && QueuesOk(s) && t < |s.pc| && Step(s, t, s') && Frame(s, t, s')
    ensures Total(AllNeeded(s'), OccursIn(p, c)) == Total(AllNeeded(s), OccursIn(p, c))
      + Delta(if ChangeBy(s, t) != Same then CountedBy(s, t) else None, p, c)
  {
    hide Step, QueuesOk, ThreadOk, Frame, Total, AllNeeded, Linked, ChangeBy, CountedBy, Reserves, Finishes, About,
      OccursIn, Changes;
    ThreadLinked(s, t);
    ThreadLinked(s', t);
    var was, now := AllNeeded(s), AllNeeded(s');
    NeededCounted(s, t);
    NeededChanges(s, t, s');
    var about := About(s.pc[t]);
    if about.Some? && about.value < |was| {
      SameElsewhere(was, now, about.value, ChangeBy(s, t));
      ChangedTotal(was, now, about.value, ChangeBy(s, t), p, c);
    } else {
      AllSame(was, now);
    }
  }

  lemma SameElsewhere(was: seq<seq<Entry>>, now: seq<seq<Entry>>, q: nat, change: Change)
    requires q < |was| == |now|
    requires forall r :: 0 <= r < |was| ==> Changes(was[r], if Some(q) == Some(r) then change else Same, now[r])
    ensures forall r :: 0 <= r < |was| && r != q ==> now[r] == was[r]
    ensures Changes(was[q], change, now[q])
  {
  }

  lemma AllSame(was: seq<seq<Entry>>, now: seq<seq<Entry>>)
    requires |was| == |now| && forall q :: 0 <= q < |was| ==> Changes(was[q], Same, now[q])
    ensures was == now
  {
  }

  function By(e: Entry, d: int): Option<(nat, int, int)> { Some((e.bp, e.data, d)) }

  /** The entry a queue gains or loses is the chunk whose count changes. */
  lemma NeededCounted(s: State, t: nat)
    requires Shape(s) && t < |s.pc| && ThreadOk(s, t)
    ensures match ChangeBy(s, t)
      case Same => true
      case Gains(e) => CountedBy(s, t) == By(e, 1) && About(s.pc[t]) == Some(s.pc[t].q) && s.pc[t].q < |s.rxqs|
      case Loses(e) => CountedBy(s, t) == By(e, -1) && About(s.pc[t]) == Some(s.pc[t].q) && s.pc[t].q < |s.rxqs|
    ensures CountedBy(s, t).Some? <==> Reserves(s, t) || Finishes(s, t) || ChangeBy(s, t) != Same
    ensures Reserves(s, t) || Finishes(s, t) ==> ChangeBy(s, t) == Same
  {
    hide LockAt, QueueAt;
  }

  lemma CountsKept(s: State, t: nat, s': State)
    requires Linked(s) && Linked(s') && QueuesOk(s) && Counts(s) && t < |s.pc| && Step(s, t, s') && Frame(s, t, s')
    ensures Counts(s')
  {
    hide Step, QueuesOk, ThreadOk, Frame, Total, Parts, SubsOk, Linked, Reserves, Finishes, ChangeBy, CountedBy, Holds,
      AllNeeded, M.Inv, Pools;
    ThreadLinked(s, t);
    ThreadLinked(s', t);
    NeededCounted(s, t);
    MaxKept(s, t, s');
    Sizes(s');
    forall p, c | 0 <= p < |s'.pools| && 0 <= c < s'.pools[p].max
      ensures s'.pools[p].refs[c] == Total(s'.pc, Holds(p, c)) + Total(AllNeeded(s'), OccursIn(p, c))
    {
      RefsBy(s, t, s', p, c);
      HoldsBy(s, t, s', p, c);
      NeededBy(s, t, s', p, c);
    }
  }

  lemma Sizes(s: State)
    requires Pools(s)
    ensures forall p :: 0 <= p < |s.pools| ==> |s.pools[p].refs| == s.pools[p].max
  {
    forall p | 0 <= p < |s.pools| ensures |s.pools[p].refs| == s.pools[p].max { RefsSize(s, p); }
  }

  lemma MaxKept(s: State, t: nat, s': State)
    requires Shape(s) && t < |s.pc| && Frame(s, t, s')
    ensures |s'.pools| == |s.pools| && forall p :: 0 <= p < |s.pools| ==> s'.pools[p].max == s.pools[p].max
  {
  }
}
