/**
  What every step of the pool keeps. Theorems about it are in the modules that import this one.

  The invariant speaks of one thread, two threads, one holder or one duty at a time. For every group of regions
  there is a lemma for each of its five aspects: Control (where threads stand, and apart from whom), Own (the shared
  facts and the acting thread's counts and holder), Others (the same for another thread), Holders, and Duties.
 */
module Invariants {
  import opened Configs
  import opened Protocol

  // ----- Classes of program counters

  /** The thread at p has a registered holder to itself: it took it out of idle, reserved it, or created it. */
  predicate HasToken(p: Pc) {
    p.Has? && !p.w.Closing?
  }

  predicate Holds(p: Pc, h: Id) {
    HasToken(p) && p.h == h
  }

  /** The thread at p has locked the mutex of holder p.h. */
  predicate Locks(p: Pc) {
    p.Unlocking? ||
    (p.Has? && match p.w
               case Running | Cleaned | Stamping | Releasing | Pushing => true
               case Dropping(from) => from.ByRun?
               case Closing(from) => from.ByRun?
               case _ => false)
  }

  predicate OfReaper(p: Pc) {
    p.Sleeping? || p.Counting? || p.Taking? || p.Exiting? ||
    (p.Has? && (p.w.PuttingBack? || (p.w.Dropping? && p.w.from.ByReaper?) || (p.w.Closing? && p.w.from.ByReaper?)))
  }

  predicate OfCtor(p: Pc) {
    p.Filling? || (p.Has? && p.w.Enqueuing?)
  }

  predicate OfClose(p: Pc) {
    p.Marking? || p.In?
  }

  ghost predicate HeldBy(pc: map<Tid, Pc>, h: Id) {
    exists t :: t in pc && Holds(pc[t], h)
  }

  predicate Distinct(q: seq<Id>) {
    forall i, j :: 0 <= i < j < |q| ==> q[i] != q[j]
  }

  /** The holders in circulation: idle, or held by some thread. */
  ghost predicate Circulates(s: State, h: Id) {
    h in s.m.idle || HeldBy(s.pc, h)
  }

  // ----- The invariant, thread by thread and holder by holder

  /** Which threads may stand where. */
  predicate RoleOk(m: Mem, t: Tid, p: Pc) {
    && (OfReaper(p) <==> t == REAPER)
    && (OfReaper(p) ==> m.cfg.Reaps() && !m.done)
    && (OfCtor(p) ==> t == CTOR && !m.closed)
    && (t == CTOR ==> !m.published && (OfCtor(p) || OfClose(p)))
    && (!m.published ==> t == CTOR || t == REAPER)
    && (!m.published && t == REAPER ==> p.Sleeping? || p.Counting? || p.Exiting?)
  }

  /** The handshake between closers and the reaper, and how far the one closer past the guard is. */
  predicate Guarded(m: Mem, p: Pc) {
    && (p.In? ==> m.closed)
    && ((p.In? && p.c.StoppingReaper?) ==> !m.stop && m.cfg.Reaps())
    && (((p.In? && p.c.AwaitingReaper?) || p.Exiting?) && m.cfg.Reaps() ==> m.stop)
    && ((p.In? && p.c.Snapshotting?) ==> m.done)
    && ((p.In? && p.c.StoppingReaper?) || (p.In? && p.c.AwaitingReaper?) || (p.In? && p.c.Snapshotting?) ==> m.log.snap.None?)
    && ((p.In? && p.c.Draining?) || (p.In? && p.c.TearingDown?) ==>
          m.log.snap.Some? && p.c.rest == m.log.snap.value - m.log.torn)
  }

  /** Without deaths, failed scale-ups, reaping and Close, nothing leaves the registry. */
  predicate NoLoss(m: Mem) {
    !m.cfg.Reaps() && m.log.deaths == 0 && m.log.failed == 0 && !m.closed
  }

  /** What a thread's position says about the number of registered holders. */
  predicate Counted(m: Mem, p: Pc) {
    && (p.Waiting? && NoLoss(m) ==> |m.all| >= m.cfg.max)
    && (p.Filling? ==> p.i <= m.cfg.min && |m.all| == |m.idle| == p.i)
    && ((p.Has? && p.w.Enqueuing?) ==> p.w.i < m.cfg.min && |m.idle| == p.w.i && |m.all| == p.w.i + 1)
    && (p.Taking? || ((p.Has? && p.w.Dropping?) && p.w.from.ByReaper?) ==> m.closed || Floor(m) > m.cfg.min)
  }

  /** Registered holders, plus those lost to a death or to a failed scale-up. */
  function Floor(m: Mem): int {
    |m.all| + m.log.deaths + m.log.failed
  }

  /** How far into run, cleanup, checkHolder the holder at p is. */
  function Stage(p: Pc): nat {
    if (p.Has? && p.w.Running?) then 1 else if (p.Has? && p.w.Cleaned?) then 2 else 0
  }

  /** p.h may still be handed out once after Close has begun. */
  predicate Handable(p: Pc) {
    IsBuilding(p) || (p.Has? && p.w.Pushing?) || (p.Has? && p.w.PuttingBack?)
  }

  /** The holder is in all, or was when Close took its snapshot. */
  predicate Registered(m: Mem, h: Id) {
    if m.log.snap.Some? then h in m.log.snap.value else h in m.all
  }

  /** What a thread knows about the holder it works on. */
  predicate Carries(m: Mem, p: Pc) {
    && (p.Has? || p.Unlocking? ==>
          && p.h in m.heap
          && (Locks(p) ==> m.heap[p.h].locked))
    && (p.Has? ==>
          && p.h !in m.idle && p.h !in m.log.drained
          && m.heap[p.h].ownerCloses == 0
          && (m.heap[p.h].built <==> !IsBuilding(p))
          && |m.heap[p.h].calls| % 3 == Stage(p))
    && (HasToken(p) ==>
          && (m.heap[p.h].dead <==> (p.Has? && p.w.Dropping?) && p.w.from.ByRun?)
          && Registered(m, p.h)
          && (m.closed ==> p.h in m.log.atClose))
    && ((p.Has? && p.w.Closing?) ==> p.h !in m.all && (m.heap[p.h].dead ==> !Registered(m, p.h)))
    && (Handable(p) ==> p.h !in m.log.handouts)
  }

  predicate Local(m: Mem, t: Tid, p: Pc) {
    RoleOk(m, t, p) && Guarded(m, p) && Counted(m, p) && Carries(m, p)
  }

  /** Two different threads are not both past Close's guard, do not keep the same holder, nor lock the same mutex. */
  predicate Apart(p: Pc, q: Pc) {
    && !(p.In? && q.In?)
    && (p.Has? && q.Has? ==> p.h != q.h)
    && (Locks(p) && Locks(q) ==> p.h != q.h)
  }

  /** Flags, capacity and floor. */
  predicate Shared(m: Mem) {
    && m.cfg.Normal()
    && (!m.cfg.Reaps() ==> m.done)
    && (m.stop ==> m.closed)
    && (m.done && m.cfg.Reaps() ==> m.stop)
    && (m.log.snap.Some? ==> m.done && m.closed && m.all == {})
    && (!m.closed ==> m.log.handouts == [] && m.log.drained == {} && m.log.snap.None?)
    && (m.log.snap.None? ==> m.log.torn == {})
    && (if m.closed then |m.log.atClose| <= m.cfg.max else |m.all| <= m.cfg.max)
    && (!m.published ==> |m.all| <= m.cfg.min)
    && (m.published && !m.closed ==> Floor(m) >= m.cfg.min)
  }

  predicate IdleOk(m: Mem, h: Id) {
    && h in m.heap && m.heap[h].built && !m.heap[h].dead && |m.heap[h].calls| % 3 == 0 && m.heap[h].ownerCloses == 0
    && Registered(m, h)
    && (m.closed ==> h in m.log.atClose)
    && h !in m.log.handouts && h !in m.log.drained
  }

  /** The only order in which Run calls an impl: run, cleanup, checkHolder, over and over; nothing after a failed check. */
  predicate Hygienic(calls: seq<Call>) {
    forall i :: 0 <= i < |calls| ==> Fits(calls, i)
  }

  predicate Fits(calls: seq<Call>, i: nat)
    requires i < |calls|
  {
    if i % 3 == 0 then calls[i] == RunCall
    else if i % 3 == 1 then calls[i] == CleanupCall
    else calls[i] == CheckOk || (calls[i] == CheckFailed && i == |calls| - 1)
  }

  predicate Condemned(calls: seq<Call>) {
    calls != [] && calls[|calls| - 1] == CheckFailed
  }

  /** No variable of the pool knows h yet. */
  predicate Unknown(m: Mem, h: Id) {
    h !in m.all && h !in m.idle && h !in m.log.atClose && h !in m.log.drained && h !in m.log.torn && h !in m.log.handouts &&
    (m.log.snap.Some? ==> h !in m.log.snap.value)
  }

  predicate HolderOk(m: Mem, h: Id) {
    if h !in m.heap then Unknown(m, h) else
      var x := m.heap[h];
      && x.lastUsed <= m.now
      && Hygienic(x.calls)
      && (x.dead <==> Condemned(x.calls))
      && (!x.built ==> x.calls == [] && x.ownerCloses == 0 && x.teardowns == 0)
      && x.ownerCloses <= 1
      && (Registered(m, h) && x.ownerCloses == 1 ==> m.log.snap.Some? && !x.dead)
      && x.teardowns == (if h in m.log.torn then 1 else 0)
      && (h in m.log.torn ==> m.log.snap.Some? && h in m.log.snap.value)
      && (h in m.log.drained ==> m.log.snap.Some? && h in m.log.snap.value && x.ownerCloses == 0)
      && (h in m.log.handouts ==> h in m.log.atClose)
      && (m.closed && (h in m.all || (m.log.snap.Some? && h in m.log.snap.value)) ==> h in m.log.atClose)
      && (h in m.idle ==> IdleOk(m, h))
  }

  // ----- Things some thread must still do

  datatype Duty = Hold(h: Id) | Keep(h: Id) | CloseOnce(h: Id) | Release(h: Id) | TearRest | ReachSnapshot

  /** The duty is due in m ... */
  predicate Due(m: Mem, d: Duty) {
    match d
    case Hold(h) => h in m.all && h !in m.idle
    case Keep(h) =>
      && Registered(m, h) && h in m.heap && m.heap[h].built && !m.heap[h].dead && m.heap[h].ownerCloses == 0
      && h !in m.idle && h !in m.log.drained
    case CloseOnce(h) =>
      && h in m.heap && m.heap[h].built && m.heap[h].ownerCloses == 0
      && h !in m.all && !(m.log.snap.Some? && h in m.log.snap.value)
    case Release(h) => h in m.heap && m.heap[h].locked
    case TearRest => m.log.snap.Some? && m.log.snap.value - m.log.torn != {}
    case ReachSnapshot => m.closed && m.log.snap.None?
  }

  /** ... and a thread at p sees to it. */
  predicate Bears(p: Pc, d: Duty) {
    match d
    case Hold(h) => Holds(p, h)
    case Keep(h) => p.Has? && p.h == h
    case CloseOnce(h) => (p.Has? && p.w.Closing?) && p.h == h
    case Release(h) => Locks(p) && p.h == h
    case TearRest => (p.In? && p.c.Draining?) || (p.In? && p.c.TearingDown?)
    case ReachSnapshot => (p.In? && p.c.StoppingReaper?) || (p.In? && p.c.AwaitingReaper?) || (p.In? && p.c.Snapshotting?)
  }

  ghost predicate Borne(s: State, d: Duty) {
    exists t :: t in s.pc && Bears(s.pc[t], d)
  }

  ghost predicate Inv(s: State) {
    && Shared(s.m)
    && (REAPER in s.pc <==> s.m.cfg.Reaps() && !s.m.done)
    && (forall t :: t in s.pc ==> Local(s.m, t, s.pc[t]))
    && (forall t, u :: t in s.pc && u in s.pc && t != u ==> Apart(s.pc[t], s.pc[u]))
    && (forall h :: HolderOk(s.m, h))
    && (forall d :: Due(s.m, d) ==> Borne(s, d))
    && Distinct(s.m.idle) && Distinct(s.m.log.handouts)
  }

  // ----- One region

  /** What a region may assume: its own thread's facts, the shared ones, and those of a holder it takes or allocates. */
  predicate Before(m: Mem, t: Tid, p: Pc, a: Action) {
    && m.panic.None? && Ready(m, p, a) && Shared(m) && Local(m, t, p)
    && (|m.idle| > 0 ==> IdleOk(m, m.idle[0]) && m.idle[0] !in m.idle[1..])
    && (a.ReserveSlot? || a.Create? ==> Unknown(m, a.id))
  }

  /** Own position and that of another thread x at q: roles, handshake, separation. */
  predicate KeepsControl(m: Mem, t: Tid, p: Pc, r: Outcome, x: Tid, q: Pc) {
    && (r.p.Some? ==> RoleOk(r.m, t, r.p.value) && Guarded(r.m, r.p.value))
    && (x != t && Local(m, x, q) && Apart(p, q) ==>
          RoleOk(r.m, x, q) && Guarded(r.m, q) && (r.p.Some? ==> Apart(r.p.value, q)))
  }

  /** The shared facts, and what the thread itself knows about counts and its holder. */
  predicate KeepsOwn(r: Outcome) {
    Shared(r.m) && (r.p.Some? ==> Counted(r.m, r.p.value) && Carries(r.m, r.p.value))
  }

  predicate KeepsOther(m: Mem, t: Tid, p: Pc, r: Outcome, x: Tid, q: Pc) {
    x != t && Local(m, x, q) && Apart(p, q) ==> Counted(r.m, q) && Carries(r.m, q)
  }

  predicate KeepsHolder(m: Mem, p: Pc, r: Outcome, h: Id) {
    (h in m.heap ==> h in r.m.heap) && (HolderOk(m, h) ==> HolderOk(r.m, h))
  }

  /** A duty due afterwards is the thread's own, or was due before and not borne by it. */
  predicate KeepsDuty(m: Mem, p: Pc, r: Outcome, d: Duty) {
    Due(r.m, d) ==> (r.p.Some? && Bears(r.p.value, d)) || (Due(m, d) && !Bears(p, d))
  }

  lemma HygienicAppend(calls: seq<Call>, c: Call)
    requires Hygienic(calls) && !Condemned(calls)
    requires if |calls| % 3 == 0 then c == RunCall else if |calls| % 3 == 1 then c == CleanupCall else c == CheckOk || c == CheckFailed
    ensures Hygienic(calls + [c])
  {
    var next := calls + [c];
    forall i | 0 <= i < |next| ensures Fits(next, i) {
      if i < |calls| {
        assert Fits(calls, i) && next[i] == calls[i];
      }
    }
  }

  // ----- Every region keeps all of these

  lemma TakeControl(m: Mem, t: Tid, p: Pc, a: Action, r: Outcome, x: Tid, q: Pc)
    requires InTake(a) && Before(m, t, p, a) && r == Region(m, p, a)
    ensures KeepsControl(m, t, p, r, x, q)
  {
    hide Counted, Floor, IdleOk, Unknown;
  }

  lemma TakeOwn(m: Mem, t: Tid, p: Pc, a: Action, r: Outcome)
    requires InTake(a) && Before(m, t, p, a) && r == Region(m, p, a)
    ensures KeepsOwn(r)
  {
    hide Region;
    DispatchAcquire(m, p, a);
  }

  lemma TakeOthers(m: Mem, t: Tid, p: Pc, a: Action, r: Outcome, x: Tid, q: Pc)
    requires InTake(a) && Before(m, t, p, a) && r == Region(m, p, a)
    ensures KeepsOther(m, t, p, r, x, q)
  {
    hide Region;
    DispatchAcquire(m, p, a);
    hide Guarded;
  }

  lemma TakeHolders(m: Mem, t: Tid, p: Pc, a: Action, r: Outcome, h: Id)
    requires InTake(a) && Before(m, t, p, a) && r == Region(m, p, a)
    ensures KeepsHolder(m, p, r, h)
  {
    hide Region;
    DispatchAcquire(m, p, a);
    hide Counted, Floor, RoleOk;
  }

  lemma TakeDuties(m: Mem, t: Tid, p: Pc, a: Action, r: Outcome, d: Duty)
    requires InTake(a) && Before(m, t, p, a) && r == Region(m, p, a)
    ensures KeepsDuty(m, p, r, d)
  {
    hide Region;
    DispatchAcquire(m, p, a);
  }

  lemma ReserveControl(m: Mem, t: Tid, p: Pc, a: Action, r: Outcome, x: Tid, q: Pc)
    requires InReserve(a) && Before(m, t, p, a) && r == Region(m, p, a)
    ensures KeepsControl(m, t, p, r, x, q)
  {
    hide Counted, Floor, IdleOk, Unknown;
  }

  lemma ReserveOwn(m: Mem, t: Tid, p: Pc, a: Action, r: Outcome)
    requires InReserve(a) && Before(m, t, p, a) && r == Region(m, p, a)
    ensures KeepsOwn(r)
  {
    hide Region;
    DispatchAcquire(m, p, a);
  }

  lemma ReserveOthers(m: Mem, t: Tid, p: Pc, a: Action, r: Outcome, x: Tid, q: Pc)
    requires InReserve(a) && Before(m, t, p, a) && r == Region(m, p, a)
    ensures KeepsOther(m, t, p, r, x, q)
  {
    hide Region;
    DispatchAcquire(m, p, a);
    hide Guarded;
  }

  lemma ReserveHolders(m: Mem, t: Tid, p: Pc, a: Action, r: Outcome, h: Id)
    requires InReserve(a) && Before(m, t, p, a) && r == Region(m, p, a)
    ensures KeepsHolder(m, p, r, h)
  {
    hide Region;
    DispatchAcquire(m, p, a);
    hide Counted, Floor, RoleOk;
  }

  lemma ReserveDuties(m: Mem, t: Tid, p: Pc, a: Action, r: Outcome, d: Duty)
    requires InReserve(a) && Before(m, t, p, a) && r == Region(m, p, a)
    ensures KeepsDuty(m, p, r, d)
  {
    hide Region;
    DispatchAcquire(m, p, a);
  }

  lemma BuildControl(m: Mem, t: Tid, p: Pc, a: Action, r: Outcome, x: Tid, q: Pc)
    requires InBuild(a) && Before(m, t, p, a) && r == Region(m, p, a)
    ensures KeepsControl(m, t, p, r, x, q)
  {
    hide Counted, Floor, IdleOk, Unknown;
  }

  lemma BuildOwn(m: Mem, t: Tid, p: Pc, a: Action, r: Outcome)
    requires InBuild(a) && Before(m, t, p, a) && r == Region(m, p, a)
    ensures KeepsOwn(r)
  {
    hide Region;
    DispatchAcquire(m, p, a);
  }

  lemma BuiltOthers(m: Mem, t: Tid, p: Pc, a: Action, r: Outcome, x: Tid, q: Pc)
    requires InBuild(a) && a.ok && Before(m, t, p, a) && r == Region(m, p, a)
    ensures KeepsOther(m, t, p, r, x, q)
  {
    hide Region;
    DispatchAcquire(m, p, a);
  }

  lemma UnbuiltOthers(m: Mem, t: Tid, p: Pc, a: Action, r: Outcome, x: Tid, q: Pc)
    requires InBuild(a) && !a.ok && Before(m, t, p, a) && r == Region(m, p, a)
    ensures KeepsOther(m, t, p, r, x, q)
  {
    hide Region;
    DispatchAcquire(m, p, a);
  }

  lemma BuildOthers(m: Mem, t: Tid, p: Pc, a: Action, r: Outcome, x: Tid, q: Pc)
    requires InBuild(a) && Before(m, t, p, a) && r == Region(m, p, a)
    ensures KeepsOther(m, t, p, r, x, q)
  {
    hide Before, Region, KeepsOther;
    if a.ok {
      BuiltOthers(m, t, p, a, r, x, q);
    } else {
      UnbuiltOthers(m, t, p, a, r, x, q);
    }
  }

  lemma BuildHolders(m: Mem, t: Tid, p: Pc, a: Action, r: Outcome, h: Id)
    requires InBuild(a) && Before(m, t, p, a) && r == Region(m, p, a)
    ensures KeepsHolder(m, p, r, h)
  {
    hide Region;
    DispatchAcquire(m, p, a);
    hide Counted, Floor, RoleOk;
  }

  lemma BuildDuties(m: Mem, t: Tid, p: Pc, a: Action, r: Outcome, d: Duty)
    requires InBuild(a) && Before(m, t, p, a) && r == Region(m, p, a)
    ensures KeepsDuty(m, p, r, d)
  {
    hide Region;
    DispatchAcquire(m, p, a);
  }

  lemma RunControl(m: Mem, t: Tid, p: Pc, a: Action, r: Outcome, x: Tid, q: Pc)
    requires InRun(a) && Before(m, t, p, a) && r == Region(m, p, a)
    ensures KeepsControl(m, t, p, r, x, q)
  {
    hide Region;
    DispatchRun(m, p, a);
    hide Counted, Floor, IdleOk, Unknown;
  }

  lemma RunOwn(m: Mem, t: Tid, p: Pc, a: Action, r: Outcome)
    requires InRun(a) && Before(m, t, p, a) && r == Region(m, p, a)
    ensures KeepsOwn(r)
  {
    hide Region;
    DispatchRun(m, p, a);
  }

  lemma RunOthers(m: Mem, t: Tid, p: Pc, a: Action, r: Outcome, x: Tid, q: Pc)
    requires InRun(a) && Before(m, t, p, a) && r == Region(m, p, a)
    ensures KeepsOther(m, t, p, r, x, q)
  {
    hide Region;
    DispatchRun(m, p, a);
    hide Guarded;
  }

  lemma RunHolders(m: Mem, t: Tid, p: Pc, a: Action, r: Outcome, h: Id)
    requires InRun(a) && Before(m, t, p, a) && r == Region(m, p, a)
    ensures KeepsHolder(m, p, r, h)
  {
    hide Region;
    DispatchRun(m, p, a);
    hide Counted, Floor, RoleOk;
    if h == p.h && HolderOk(m, h) {
      HygienicAppend(m.heap[h].calls, if a.Begin? then RunCall else CleanupCall);
    }
  }

  lemma RunDuties(m: Mem, t: Tid, p: Pc, a: Action, r: Outcome, d: Duty)
    requires InRun(a) && Before(m, t, p, a) && r == Region(m, p, a)
    ensures KeepsDuty(m, p, r, d)
  {
    hide Region;
    DispatchRun(m, p, a);
  }

  lemma CheckControl(m: Mem, t: Tid, p: Pc, a: Action, r: Outcome, x: Tid, q: Pc)
    requires InCheck(a) && Before(m, t, p, a) && r == Region(m, p, a)
    ensures KeepsControl(m, t, p, r, x, q)
  {
    hide Region;
    DispatchRun(m, p, a);
    hide Counted, Floor, IdleOk, Unknown;
  }

  lemma CheckOwn(m: Mem, t: Tid, p: Pc, a: Action, r: Outcome)
    requires InCheck(a) && Before(m, t, p, a) && r == Region(m, p, a)
    ensures KeepsOwn(r)
  {
    hide Region;
    DispatchRun(m, p, a);
  }

  lemma CheckOthers(m: Mem, t: Tid, p: Pc, a: Action, r: Outcome, x: Tid, q: Pc)
    requires InCheck(a) && Before(m, t, p, a) && r == Region(m, p, a)
    ensures KeepsOther(m, t, p, r, x, q)
  {
    hide Region;
    DispatchRun(m, p, a);
    hide Guarded;
  }

  lemma CheckHolders(m: Mem, t: Tid, p: Pc, a: Action, r: Outcome, h: Id)
    requires InCheck(a) && Before(m, t, p, a) && r == Region(m, p, a)
    ensures KeepsHolder(m, p, r, h)
  {
    hide Region;
    DispatchRun(m, p, a);
    hide Counted, Floor, RoleOk;
    if h == p.h && HolderOk(m, h) {
      HygienicAppend(m.heap[h].calls, if a.ok then CheckOk else CheckFailed);
    }
  }

  lemma CheckDuties(m: Mem, t: Tid, p: Pc, a: Action, r: Outcome, d: Duty)
    requires InCheck(a) && Before(m, t, p, a) && r == Region(m, p, a)
    ensures KeepsDuty(m, p, r, d)
  {
    hide Region;
    DispatchRun(m, p, a);
  }

  lemma ReleaseControl(m: Mem, t: Tid, p: Pc, a: Action, r: Outcome, x: Tid, q: Pc)
    requires InRelease(a) && Before(m, t, p, a) && r == Region(m, p, a)
    ensures KeepsControl(m, t, p, r, x, q)
  {
    hide Counted, Floor, IdleOk, Unknown, Carries, Shared;
  }

  lemma UnlockOwn(m: Mem, t: Tid, p: Pc, a: Action, r: Outcome)
    requires a.Unlock? && Before(m, t, p, a) && r == Region(m, p, a)
    ensures KeepsOwn(r)
  {
    hide Region;
    DispatchRun(m, p, a);
  }

  lemma StampOwn(m: Mem, t: Tid, p: Pc, a: Action, r: Outcome)
    requires a.Stamp? && Before(m, t, p, a) && r == Region(m, p, a)
    ensures KeepsOwn(r)
  {
    hide Region;
    DispatchRelease(m, p, a);
  }

  lemma CheckedOwn(m: Mem, t: Tid, p: Pc, a: Action, r: Outcome)
    requires a.ReleaseLocked? && Before(m, t, p, a) && r == Region(m, p, a)
    ensures KeepsOwn(r)
  {
    hide Region;
    DispatchRelease(m, p, a);
  }

  lemma PushOwn(m: Mem, t: Tid, p: Pc, a: Action, r: Outcome)
    requires a.Push? && Before(m, t, p, a) && r == Region(m, p, a)
    ensures KeepsOwn(r)
  {
    hide Region;
    DispatchRelease(m, p, a);
  }

  lemma ReleaseOwn(m: Mem, t: Tid, p: Pc, a: Action, r: Outcome)
    requires InRelease(a) && Before(m, t, p, a) && r == Region(m, p, a)
    ensures KeepsOwn(r)
  {
    hide Before, Region, KeepsOwn;
    if a.Unlock? {
      UnlockOwn(m, t, p, a, r);
    } else if a.Stamp? {
      StampOwn(m, t, p, a, r);
    } else if a.ReleaseLocked? {
      CheckedOwn(m, t, p, a, r);
    } else {
      PushOwn(m, t, p, a, r);
    }
  }

  lemma UnlockOthers(m: Mem, t: Tid, p: Pc, a: Action, r: Outcome, x: Tid, q: Pc)
    requires a.Unlock? && Before(m, t, p, a) && r == Region(m, p, a)
    ensures KeepsOther(m, t, p, r, x, q)
  {
    hide Region;
    DispatchRun(m, p, a);
  }

  lemma StampOthers(m: Mem, t: Tid, p: Pc, a: Action, r: Outcome, x: Tid, q: Pc)
    requires a.Stamp? && Before(m, t, p, a) && r == Region(m, p, a)
    ensures KeepsOther(m, t, p, r, x, q)
  {
    hide Region;
    DispatchRelease(m, p, a);
  }

  lemma CheckedOthers(m: Mem, t: Tid, p: Pc, a: Action, r: Outcome, x: Tid, q: Pc)
    requires a.ReleaseLocked? && Before(m, t, p, a) && r == Region(m, p, a)
    ensures KeepsOther(m, t, p, r, x, q)
  {
    hide Region;
    DispatchRelease(m, p, a);
  }

  lemma PushOthers(m: Mem, t: Tid, p: Pc, a: Action, r: Outcome, x: Tid, q: Pc)
    requires a.Push? && Before(m, t, p, a) && r == Region(m, p, a)
    ensures KeepsOther(m, t, p, r, x, q)
  {
    hide Region;
    DispatchRelease(m, p, a);
  }

  lemma ReleaseOthers(m: Mem, t: Tid, p: Pc, a: Action, r: Outcome, x: Tid, q: Pc)
    requires InRelease(a) && Before(m, t, p, a) && r == Region(m, p, a)
    ensures KeepsOther(m, t, p, r, x, q)
  {
    hide Before, Region, KeepsOther;
    if a.Unlock? {
      UnlockOthers(m, t, p, a, r, x, q);
    } else if a.Stamp? {
      StampOthers(m, t, p, a, r, x, q);
    } else if a.ReleaseLocked? {
      CheckedOthers(m, t, p, a, r, x, q);
    } else {
      PushOthers(m, t, p, a, r, x, q);
    }
  }

  lemma ReleaseHolders(m: Mem, t: Tid, p: Pc, a: Action, r: Outcome, h: Id)
    requires InRelease(a) && Before(m, t, p, a) && r == Region(m, p, a)
    ensures KeepsHolder(m, p, r, h)
  {
    hide Region;
    if a.Unlock? {
      DispatchRun(m, p, a);
    } else {
      DispatchRelease(m, p, a);
    }
    hide Counted, Floor, RoleOk;
  }

  lemma ReleaseDuties(m: Mem, t: Tid, p: Pc, a: Action, r: Outcome, d: Duty)
    requires InRelease(a) && Before(m, t, p, a) && r == Region(m, p, a)
    ensures KeepsDuty(m, p, r, d)
  {
    hide Region;
    if a.Unlock? {
      DispatchRun(m, p, a);
    } else {
      DispatchRelease(m, p, a);
    }
  }

  lemma DropControl(m: Mem, t: Tid, p: Pc, a: Action, r: Outcome, x: Tid, q: Pc)
    requires InDrop(a) && Before(m, t, p, a) && r == Region(m, p, a)
    ensures KeepsControl(m, t, p, r, x, q)
  {
    hide Region;
    DispatchRelease(m, p, a);
    hide Counted, Floor, IdleOk, Unknown;
  }

  lemma DropOwn(m: Mem, t: Tid, p: Pc, a: Action, r: Outcome)
    requires InDrop(a) && Before(m, t, p, a) && r == Region(m, p, a)
    ensures KeepsOwn(r)
  {
  }

  lemma DropOthers(m: Mem, t: Tid, p: Pc, a: Action, r: Outcome, x: Tid, q: Pc)
    requires InDrop(a) && Before(m, t, p, a) && r == Region(m, p, a)
    ensures KeepsOther(m, t, p, r, x, q)
  {
    hide Region;
    DispatchRelease(m, p, a);
    hide Guarded;
  }

  lemma DropHolders(m: Mem, t: Tid, p: Pc, a: Action, r: Outcome, h: Id)
    requires InDrop(a) && Before(m, t, p, a) && r == Region(m, p, a)
    ensures KeepsHolder(m, p, r, h)
  {
    hide Region;
    DispatchRelease(m, p, a);
    hide Counted, Floor, RoleOk;
  }

  lemma DropDuties(m: Mem, t: Tid, p: Pc, a: Action, r: Outcome, d: Duty)
    requires InDrop(a) && Before(m, t, p, a) && r == Region(m, p, a)
    ensures KeepsDuty(m, p, r, d)
  {
    hide Region;
    DispatchRelease(m, p, a);
  }

  lemma ReaperControl(m: Mem, t: Tid, p: Pc, a: Action, r: Outcome, x: Tid, q: Pc)
    requires InReaper(a) && Before(m, t, p, a) && r == Region(m, p, a)
    ensures KeepsControl(m, t, p, r, x, q)
  {
    hide Region;
    DispatchReaper(m, p, a);
    hide Counted, Floor, IdleOk, Unknown, Shared;
  }

  lemma ReaperOwn(m: Mem, t: Tid, p: Pc, a: Action, r: Outcome)
    requires InReaper(a) && Before(m, t, p, a) && r == Region(m, p, a)
    ensures KeepsOwn(r)
  {
    hide Region;
    DispatchReaper(m, p, a);
  }

  lemma ReaperOthers(m: Mem, t: Tid, p: Pc, a: Action, r: Outcome, x: Tid, q: Pc)
    requires InReaper(a) && Before(m, t, p, a) && r == Region(m, p, a)
    ensures KeepsOther(m, t, p, r, x, q)
  {
    hide Region;
    DispatchReaper(m, p, a);
    hide Guarded;
  }

  lemma ReaperHolders(m: Mem, t: Tid, p: Pc, a: Action, r: Outcome, h: Id)
    requires InReaper(a) && Before(m, t, p, a) && r == Region(m, p, a)
    ensures KeepsHolder(m, p, r, h)
  {
    hide Region;
    DispatchReaper(m, p, a);
    hide Counted, Floor, RoleOk;
  }

  lemma ReaperDuties(m: Mem, t: Tid, p: Pc, a: Action, r: Outcome, d: Duty)
    requires InReaper(a) && Before(m, t, p, a) && r == Region(m, p, a)
    ensures KeepsDuty(m, p, r, d)
  {
    hide Region;
    DispatchReaper(m, p, a);
  }

  lemma HaltControl(m: Mem, t: Tid, p: Pc, a: Action, r: Outcome, x: Tid, q: Pc)
    requires InHalt(a) && Before(m, t, p, a) && r == Region(m, p, a)
    ensures KeepsControl(m, t, p, r, x, q)
  {
    hide Region;
    DispatchClose(m, p, a);
    hide Counted, Floor, IdleOk, Unknown;
  }

  lemma HaltOwn(m: Mem, t: Tid, p: Pc, a: Action, r: Outcome)
    requires InHalt(a) && Before(m, t, p, a) && r == Region(m, p, a)
    ensures KeepsOwn(r)
  {
    hide Region;
    DispatchClose(m, p, a);
  }

  lemma HaltOthers(m: Mem, t: Tid, p: Pc, a: Action, r: Outcome, x: Tid, q: Pc)
    requires InHalt(a) && Before(m, t, p, a) && r == Region(m, p, a)
    ensures KeepsOther(m, t, p, r, x, q)
  {
    hide Region;
    DispatchClose(m, p, a);
  }

  lemma HaltHolders(m: Mem, t: Tid, p: Pc, a: Action, r: Outcome, h: Id)
    requires InHalt(a) && Before(m, t, p, a) && r == Region(m, p, a)
    ensures KeepsHolder(m, p, r, h)
  {
    hide Region;
    DispatchClose(m, p, a);
    hide Counted, Floor, RoleOk;
  }

  lemma HaltDuties(m: Mem, t: Tid, p: Pc, a: Action, r: Outcome, d: Duty)
    requires InHalt(a) && Before(m, t, p, a) && r == Region(m, p, a)
    ensures KeepsDuty(m, p, r, d)
  {
    hide Region;
    DispatchClose(m, p, a);
  }

  lemma SnapshotControl(m: Mem, t: Tid, p: Pc, a: Action, r: Outcome, x: Tid, q: Pc)
    requires InSnapshot(a) && Before(m, t, p, a) && r == Region(m, p, a)
    ensures KeepsControl(m, t, p, r, x, q)
  {
    hide Region;
    DispatchClose(m, p, a);
    hide Counted, Floor, IdleOk, Unknown;
  }

  lemma SnapshotOwn(m: Mem, t: Tid, p: Pc, a: Action, r: Outcome)
    requires InSnapshot(a) && Before(m, t, p, a) && r == Region(m, p, a)
    ensures KeepsOwn(r)
  {
    hide Region;
    DispatchClose(m, p, a);
  }

  lemma SnapshotOthers(m: Mem, t: Tid, p: Pc, a: Action, r: Outcome, x: Tid, q: Pc)
    requires InSnapshot(a) && Before(m, t, p, a) && r == Region(m, p, a)
    ensures KeepsOther(m, t, p, r, x, q)
  {
    hide Region;
    DispatchClose(m, p, a);
  }

  lemma SnapshotHolders(m: Mem, t: Tid, p: Pc, a: Action, r: Outcome, h: Id)
    requires InSnapshot(a) && Before(m, t, p, a) && r == Region(m, p, a)
    ensures KeepsHolder(m, p, r, h)
  {
    hide Region;
    DispatchClose(m, p, a);
    hide Counted, Floor, RoleOk;
  }

  lemma SnapshotDuties(m: Mem, t: Tid, p: Pc, a: Action, r: Outcome, d: Duty)
    requires InSnapshot(a) && Before(m, t, p, a) && r == Region(m, p, a)
    ensures KeepsDuty(m, p, r, d)
  {
    hide Region;
    DispatchClose(m, p, a);
  }

  lemma TearDownControl(m: Mem, t: Tid, p: Pc, a: Action, r: Outcome, x: Tid, q: Pc)
    requires InTearDown(a) && Before(m, t, p, a) && r == Region(m, p, a)
    ensures KeepsControl(m, t, p, r, x, q)
  {
    hide Region;
    DispatchClose(m, p, a);
    hide Counted, Floor, IdleOk, Unknown;
  }

  lemma TearDownOwn(m: Mem, t: Tid, p: Pc, a: Action, r: Outcome)
    requires InTearDown(a) && Before(m, t, p, a) && r == Region(m, p, a)
    ensures KeepsOwn(r)
  {
    hide Region;
    DispatchClose(m, p, a);
  }

  lemma TearDownOthers(m: Mem, t: Tid, p: Pc, a: Action, r: Outcome, x: Tid, q: Pc)
    requires InTearDown(a) && Before(m, t, p, a) && r == Region(m, p, a)
    ensures KeepsOther(m, t, p, r, x, q)
  {
    hide Region;
    DispatchClose(m, p, a);
  }

  lemma TearDownHolders(m: Mem, t: Tid, p: Pc, a: Action, r: Outcome, h: Id)
    requires InTearDown(a) && Before(m, t, p, a) && r == Region(m, p, a)
    ensures KeepsHolder(m, p, r, h)
  {
    hide Region;
    DispatchClose(m, p, a);
    hide Counted, Floor, RoleOk;
  }

  lemma TearDownDuties(m: Mem, t: Tid, p: Pc, a: Action, r: Outcome, d: Duty)
    requires InTearDown(a) && Before(m, t, p, a) && r == Region(m, p, a)
    ensures KeepsDuty(m, p, r, d)
  {
    hide Region;
    DispatchClose(m, p, a);
  }

  lemma NewControl(m: Mem, t: Tid, p: Pc, a: Action, r: Outcome, x: Tid, q: Pc)
    requires InNew(a) && Before(m, t, p, a) && r == Region(m, p, a)
    ensures KeepsControl(m, t, p, r, x, q)
  {
    hide Region;
    DispatchNew(m, p, a);
    hide Counted, Floor, IdleOk, Unknown;
  }

  lemma NewOwn(m: Mem, t: Tid, p: Pc, a: Action, r: Outcome)
    requires InNew(a) && Before(m, t, p, a) && r == Region(m, p, a)
    ensures KeepsOwn(r)
  {
    hide Region;
    DispatchNew(m, p, a);
  }

  lemma NewOthers(m: Mem, t: Tid, p: Pc, a: Action, r: Outcome, x: Tid, q: Pc)
    requires InNew(a) && Before(m, t, p, a) && r == Region(m, p, a)
    ensures KeepsOther(m, t, p, r, x, q)
  {
    hide Region;
    DispatchNew(m, p, a);
    hide Guarded;
  }

  lemma NewHolders(m: Mem, t: Tid, p: Pc, a: Action, r: Outcome, h: Id)
    requires InNew(a) && Before(m, t, p, a) && r == Region(m, p, a)
    ensures KeepsHolder(m, p, r, h)
  {
    hide Region;
    DispatchNew(m, p, a);
    hide Counted, Floor;
  }

  lemma NewDuties(m: Mem, t: Tid, p: Pc, a: Action, r: Outcome, d: Duty)
    requires InNew(a) && Before(m, t, p, a) && r == Region(m, p, a)
    ensures KeepsDuty(m, p, r, d)
  {
    hide Region;
    DispatchNew(m, p, a);
  }

  lemma ControlKept(m: Mem, t: Tid, p: Pc, a: Action, r: Outcome, x: Tid, q: Pc)
    requires Before(m, t, p, a) && r == Region(m, p, a)
    ensures KeepsControl(m, t, p, r, x, q)
  {
    hide Region, Before, KeepsControl;
    match a
    case TryIdle | WaitIdle | Cancel => TakeControl(m, t, p, a, r, x, q);
    case ReserveSlot(_) => ReserveControl(m, t, p, a, r, x, q);
    case Build(_) => BuildControl(m, t, p, a, r, x, q);
    case Begin | Finish => RunControl(m, t, p, a, r, x, q);
    case Check(_) => CheckControl(m, t, p, a, r, x, q);
    case Stamp | ReleaseLocked | Push | Unlock => ReleaseControl(m, t, p, a, r, x, q);
    case DropLocked | CloseImpl => DropControl(m, t, p, a, r, x, q);
    case ReapTick | ReapStop | ReapCount | ReapTake | ReapPutBack | ReapExit => ReaperControl(m, t, p, a, r, x, q);
    case MarkClosed | StopReaper => HaltControl(m, t, p, a, r, x, q);
    case AwaitReaper | Snapshot => SnapshotControl(m, t, p, a, r, x, q);
    case Drain | TearDown(_) | CloseReturn => TearDownControl(m, t, p, a, r, x, q);
    case Create(_, _) | Enqueue | Publish => NewControl(m, t, p, a, r, x, q);
  }

  lemma OwnKept(m: Mem, t: Tid, p: Pc, a: Action, r: Outcome)
    requires Before(m, t, p, a) && r == Region(m, p, a)
    ensures KeepsOwn(r)
  {
    hide Region, Before, KeepsOwn;
    match a
    case TryIdle | WaitIdle | Cancel => TakeOwn(m, t, p, a, r);
    case ReserveSlot(_) => ReserveOwn(m, t, p, a, r);
    case Build(_) => BuildOwn(m, t, p, a, r);
    case Begin | Finish => RunOwn(m, t, p, a, r);
    case Check(_) => CheckOwn(m, t, p, a, r);
    case Stamp | ReleaseLocked | Push | Unlock => ReleaseOwn(m, t, p, a, r);
    case DropLocked | CloseImpl => DropOwn(m, t, p, a, r);
    case ReapTick | ReapStop | ReapCount | ReapTake | ReapPutBack | ReapExit => ReaperOwn(m, t, p, a, r);
    case MarkClosed | StopReaper => HaltOwn(m, t, p, a, r);
    case AwaitReaper | Snapshot => SnapshotOwn(m, t, p, a, r);
    case Drain | TearDown(_) | CloseReturn => TearDownOwn(m, t, p, a, r);
    case Create(_, _) | Enqueue | Publish => NewOwn(m, t, p, a, r);
  }

  lemma OthersKept(m: Mem, t: Tid, p: Pc, a: Action, r: Outcome, x: Tid, q: Pc)
    requires Before(m, t, p, a) && r == Region(m, p, a)
    ensures KeepsOther(m, t, p, r, x, q)
  {
    hide Region, Before, KeepsOther;
    match a
    case TryIdle | WaitIdle | Cancel => TakeOthers(m, t, p, a, r, x, q);
    case ReserveSlot(_) => ReserveOthers(m, t, p, a, r, x, q);
    case Build(_) => BuildOthers(m, t, p, a, r, x, q);
    case Begin | Finish => RunOthers(m, t, p, a, r, x, q);
    case Check(_) => CheckOthers(m, t, p, a, r, x, q);
    case Stamp | ReleaseLocked | Push | Unlock => ReleaseOthers(m, t, p, a, r, x, q);
    case DropLocked | CloseImpl => DropOthers(m, t, p, a, r, x, q);
    case ReapTick | ReapStop | ReapCount | ReapTake | ReapPutBack | ReapExit => ReaperOthers(m, t, p, a, r, x, q);
    case MarkClosed | StopReaper => HaltOthers(m, t, p, a, r, x, q);
    case AwaitReaper | Snapshot => SnapshotOthers(m, t, p, a, r, x, q);
    case Drain | TearDown(_) | CloseReturn => TearDownOthers(m, t, p, a, r, x, q);
    case Create(_, _) | Enqueue | Publish => NewOthers(m, t, p, a, r, x, q);
  }

  lemma HoldersKept(m: Mem, t: Tid, p: Pc, a: Action, r: Outcome, h: Id)
    requires Before(m, t, p, a) && r == Region(m, p, a)
    ensures KeepsHolder(m, p, r, h)
  {
    hide Region, Before, KeepsHolder;
    match a
    case TryIdle | WaitIdle | Cancel => TakeHolders(m, t, p, a, r, h);
    case ReserveSlot(_) => ReserveHolders(m, t, p, a, r, h);
    case Build(_) => BuildHolders(m, t, p, a, r, h);
    case Begin | Finish => RunHolders(m, t, p, a, r, h);
    case Check(_) => CheckHolders(m, t, p, a, r, h);
    case Stamp | ReleaseLocked | Push | Unlock => ReleaseHolders(m, t, p, a, r, h);
    case DropLocked | CloseImpl => DropHolders(m, t, p, a, r, h);
    case ReapTick | ReapStop | ReapCount | ReapTake | ReapPutBack | ReapExit => ReaperHolders(m, t, p, a, r, h);
    case MarkClosed | StopReaper => HaltHolders(m, t, p, a, r, h);
    case AwaitReaper | Snapshot => SnapshotHolders(m, t, p, a, r, h);
    case Drain | TearDown(_) | CloseReturn => TearDownHolders(m, t, p, a, r, h);
    case Create(_, _) | Enqueue | Publish => NewHolders(m, t, p, a, r, h);
  }

  lemma DutiesKept(m: Mem, t: Tid, p: Pc, a: Action, r: Outcome, d: Duty)
    requires Before(m, t, p, a) && r == Region(m, p, a)
    ensures KeepsDuty(m, p, r, d)
  {
    hide Region, Before, KeepsDuty;
    match a
    case TryIdle | WaitIdle | Cancel => TakeDuties(m, t, p, a, r, d);
    case ReserveSlot(_) => ReserveDuties(m, t, p, a, r, d);
    case Build(_) => BuildDuties(m, t, p, a, r, d);
    case Begin | Finish => RunDuties(m, t, p, a, r, d);
    case Check(_) => CheckDuties(m, t, p, a, r, d);
    case Stamp | ReleaseLocked | Push | Unlock => ReleaseDuties(m, t, p, a, r, d);
    case DropLocked | CloseImpl => DropDuties(m, t, p, a, r, d);
    case ReapTick | ReapStop | ReapCount | ReapTake | ReapPutBack | ReapExit => ReaperDuties(m, t, p, a, r, d);
    case MarkClosed | StopReaper => HaltDuties(m, t, p, a, r, d);
    case AwaitReaper | Snapshot => SnapshotDuties(m, t, p, a, r, d);
    case Drain | TearDown(_) | CloseReturn => TearDownDuties(m, t, p, a, r, d);
    case Create(_, _) | Enqueue | Publish => NewDuties(m, t, p, a, r, d);
  }

  /** idle is a queue: a region leaves it, takes its head, or appends the thread's own holder. */
  lemma IdleMoves(m: Mem, p: Pc, a: Action)
    requires Ready(m, p, a)
    ensures var q := Region(m, p, a).m.idle;
      q == m.idle || (|m.idle| > 0 && q == m.idle[1..]) || (p.Has? && q == m.idle + [p.h])
  {
    match a
    case TryIdle | ReserveSlot(_) | Build(_) | WaitIdle | Cancel | Begin | Finish | Check(_) | Unlock | Stamp | ReleaseLocked
      | Push | DropLocked | CloseImpl | ReapTick | ReapStop | ReapCount | ReapTake | ReapPutBack | ReapExit | MarkClosed
      | StopReaper | AwaitReaper | Snapshot | Drain | TearDown(_) | CloseReturn | Create(_, _) | Enqueue | Publish =>
  }

  lemma HandoutsStay(m: Mem, p: Pc, a: Action)
    requires Ready(m, p, a) && !(a.TryIdle? || a.WaitIdle? || a.Build?)
    ensures Region(m, p, a).m.log.handouts == m.log.handouts
  {
    match a
    case TryIdle | ReserveSlot(_) | Build(_) | WaitIdle | Cancel | Begin | Finish | Check(_) | Unlock | Stamp | ReleaseLocked
      | Push | DropLocked | CloseImpl | ReapTick | ReapStop | ReapCount | ReapTake | ReapPutBack | ReapExit | MarkClosed
      | StopReaper | AwaitReaper | Snapshot | Drain | TearDown(_) | CloseReturn | Create(_, _) | Enqueue | Publish =>
  }

  /** What acquire hands out after Close began was not handed out before. */
  lemma HandoutMoves(m: Mem, t: Tid, p: Pc, a: Action, r: Outcome)
    requires Before(m, t, p, a) && r == Region(m, p, a)
    ensures || r.m.log.handouts == m.log.handouts
            || (r.p.Some? && r.p.value.Has? && r.p.value.h !in m.log.handouts &&
                r.m.log.handouts == m.log.handouts + [r.p.value.h])
  {
    hide Guarded, Counted, RoleOk, Floor, Unknown, Shared;
    if !(a.TryIdle? || a.WaitIdle? || a.Build?) {
      hide Region, Local, IdleOk;
      HandoutsStay(m, p, a);
    }
  }

  lemma QueuesKept(m: Mem, t: Tid, p: Pc, a: Action, r: Outcome)
    requires Before(m, t, p, a) && r == Region(m, p, a)
    requires Distinct(m.idle) && Distinct(m.log.handouts)
    ensures Distinct(r.m.idle) && Distinct(r.m.log.handouts)
  {
    hide Region, Ready, Shared, RoleOk, Guarded, Counted;
    IdleMoves(m, p, a);
    HandoutMoves(m, t, p, a, r);
  }

  // ----- Runs

  lemma InitInv(cfg: Config)
    requires cfg.Normal()
    ensures Inv(Init(cfg))
  {
    var s := Init(cfg);
    assert forall d :: !Due(s.m, d);
  }

  lemma StepBefore(s: State, t: Tid, a: Action)
    requires Inv(s) && Enabled(s, Go(t, a))
    ensures Before(s.m, t, s.pc[t], a)
  {
    hide Region, IdleOk, RoleOk, Guarded, Counted, Carries, Hygienic, Condemned;
    if |s.m.idle| > 0 {
      assert HolderOk(s.m, s.m.idle[0]);
    }
    if a.ReserveSlot? || a.Create? {
      assert HolderOk(s.m, a.id);
    }
  }

  lemma GoLocal(s: State, t: Tid, a: Action, x: Tid)
    requires Inv(s) && Enabled(s, Go(t, a)) && x in Do(s, Go(t, a)).pc
    ensures Local(Do(s, Go(t, a)).m, x, Do(s, Go(t, a)).pc[x])
  {
    hide Region, Ready, RoleOk, Guarded, Counted, Carries, Shared;
    var p, q := s.pc[t], if x in s.pc then s.pc[x] else Sleeping;
    StepBefore(s, t, a);
    var r := Region(s.m, p, a);
    OwnKept(s.m, t, p, a, r);
    ControlKept(s.m, t, p, a, r, x, q);
    OthersKept(s.m, t, p, a, r, x, q);
  }

  lemma GoApart(s: State, t: Tid, a: Action, x: Tid)
    requires Inv(s) && Enabled(s, Go(t, a)) && x in s.pc && x != t
    ensures t in Do(s, Go(t, a)).pc ==> Apart(Do(s, Go(t, a)).pc[t], s.pc[x])
  {
    hide Region, Ready, RoleOk, Guarded, Counted, Carries, Shared;
    StepBefore(s, t, a);
    ControlKept(s.m, t, s.pc[t], a, Region(s.m, s.pc[t], a), x, s.pc[x]);
  }

  lemma GoThreads(s: State, t: Tid, a: Action)
    requires Inv(s) && Enabled(s, Go(t, a))
    ensures var u := Do(s, Go(t, a));
      && (forall x :: x in u.pc ==> Local(u.m, x, u.pc[x]))
      && (forall x, y :: x in u.pc && y in u.pc && x != y ==> Apart(u.pc[x], u.pc[y]))
  {
    hide Region, Ready, Local, Shared;
    var u := Do(s, Go(t, a));
    forall x | x in u.pc ensures Local(u.m, x, u.pc[x]) {
      GoLocal(s, t, a, x);
    }
    forall x, y | x in u.pc && y in u.pc && x != y ensures Apart(u.pc[x], u.pc[y]) {
      if x == t {
        GoApart(s, t, a, y);
      } else if y == t {
        GoApart(s, t, a, x);
      }
    }
  }

  lemma GoHolders(s: State, t: Tid, a: Action)
    requires Inv(s) && Enabled(s, Go(t, a))
    ensures var m := Do(s, Go(t, a)).m;
      Shared(m) && Distinct(m.idle) && Distinct(m.log.handouts) && forall h :: HolderOk(m, h)
  {
    hide Region, Ready, HolderOk, Shared;
    StepBefore(s, t, a);
    var r := Region(s.m, s.pc[t], a);
    OwnKept(s.m, t, s.pc[t], a, r);
    QueuesKept(s.m, t, s.pc[t], a, r);
    forall h ensures HolderOk(r.m, h) {
      HoldersKept(s.m, t, s.pc[t], a, r, h);
    }
  }

  lemma GoDuties(s: State, t: Tid, a: Action, d: Duty)
    requires Inv(s) && Enabled(s, Go(t, a)) && Due(Do(s, Go(t, a)).m, d)
    ensures Borne(Do(s, Go(t, a)), d)
  {
    hide Region, Ready, Due, Bears, HolderOk, Local, Apart, Shared;
    var p, u := s.pc[t], Do(s, Go(t, a));
    StepBefore(s, t, a);
    var r := Region(s.m, p, a);
    DutiesKept(s.m, t, p, a, r, d);
    if r.p.Some? && Bears(r.p.value, d) {
      assert u.pc[t] == r.p.value;
    } else {
      var x :| x in s.pc && Bears(s.pc[x], d);
      assert u.pc[x] == s.pc[x];
    }
  }

  /** Only the reaper starts or ends being the reaper, and it ends by closing reaperDone. */
  lemma DoneBy(m: Mem, t: Tid, p: Pc, a: Action)
    requires Ready(m, p, a) && RoleOk(m, t, p)
    ensures var r := Region(m, p, a);
      && (r.m.done <==> m.done || (a.ReapExit? && t == REAPER))
      && (t == REAPER ==> (r.p.None? <==> a.ReapExit?))
  {
    match a
    case TryIdle | ReserveSlot(_) | Build(_) | WaitIdle | Cancel | Begin | Finish | Check(_) | Unlock | Stamp | ReleaseLocked
      | Push | DropLocked | CloseImpl | ReapTick | ReapStop | ReapCount | ReapTake | ReapPutBack | ReapExit | MarkClosed
      | StopReaper | AwaitReaper | Snapshot | Drain | TearDown(_) | CloseReturn | Create(_, _) | Enqueue | Publish =>
  }

  lemma ReaperPresence(s: State, t: Tid, a: Action)
    requires Inv(s) && Enabled(s, Go(t, a))
    ensures var u := Do(s, Go(t, a)); REAPER in u.pc <==> u.m.cfg.Reaps() && !u.m.done
  {
    assert Local(s.m, t, s.pc[t]);
    RegionKeepsCfg(s.m, s.pc[t], a);
    hide Guarded, Counted, Carries, HolderOk, Apart, Borne, Region;
    DoneBy(s.m, t, s.pc[t], a);
  }

  lemma InvStep(s: State, e: Step)
    requires Inv(s) && Enabled(s, e)
    ensures Inv(Do(s, e))
  {
    hide Region, Ready, Shared, Due, Bears;
    var u := Do(s, e);
    match e
    case Go(t, a) =>
      GoThreads(s, t, a);
      GoHolders(s, t, a);
      ReaperPresence(s, t, a);
      forall d | Due(u.m, d) ensures Borne(u, d) {
        GoDuties(s, t, a, d);
      }
    case Tick => TickInv(s);
    case CallRun(t) => CallInv(s, t, TryingIdle);
    case CallClose(t) => CallInv(s, t, Marking);
  }

  lemma TickInv(s: State)
    requires Inv(s) && s.m.panic.None?
    ensures Inv(Do(s, Tick))
  {
    var u := Do(s, Tick);
    forall h ensures HolderOk(u.m, h) {
      assert HolderOk(s.m, h);
    }
    forall d | Due(u.m, d) ensures Borne(u, d) {
      assert Due(s.m, d);
      assert Borne(s, d);
    }
  }

  /** A new caller at the start of Run or Close. */
  lemma CallInv(s: State, t: Tid, p: Pc)
    requires Inv(s) && s.m.published && t !in s.pc && t > REAPER && (p == TryingIdle || p == Marking)
    ensures Inv(s.(pc := s.pc[t := p]))
  {
    hide HolderOk, Shared, Due;
    var u := s.(pc := s.pc[t := p]);
    forall d | Due(u.m, d) ensures Borne(u, d) {
      var x :| x in s.pc && Bears(s.pc[x], d);
      assert u.pc[x] == s.pc[x];
    }
  }

  lemma {:induction false} InvSteps(s: State, es: seq<Step>, u: State)
    requires Inv(s) && Steps(s, es, u)
    ensures Inv(u)
    decreases |es|
  {
    hide Inv, Do;
    if es != [] {
      InvStep(s, es[0]);
      InvSteps(Do(s, es[0]), es[1..], u);
    }
  }

  /** Every reachable state satisfies the invariant. */
  lemma ReachableInv(s: State)
    requires Reachable(s)
    ensures Inv(s)
  {
    hide Inv, Init;
    InitInv(s.m.cfg);
    var es :| Steps(Init(s.m.cfg), es, s);
    InvSteps(Init(s.m.cfg), es, s);
  }
}
