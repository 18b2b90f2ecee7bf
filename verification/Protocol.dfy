/**
  The warm pool as a step machine: one step per atomic region of pool.go, any number of goroutines.

  A goroutine is a thread id with a program counter; a thread that has returned, or was never started, is absent from
  the map. Ids stand for pointers to holders. What the source leaves to the outside world (does a container start, is
  the holder healthy after a run, has the caller's context ended) is an argument of the step.
 */
module Protocol {
  import opened Wrappers
  import opened Configs

  type Id = int
  type Tid = int

  /** The goroutine inside NewPool and the reaper goroutine have fixed ids; callers of Run and Close have larger ones. */
  const CTOR: Tid := 0
  const REAPER: Tid := 1

  /** Calls a Run makes on a holder's impl, in the order it makes them. */
  datatype Call = RunCall | CleanupCall | CheckOk | CheckFailed

  /** A holder struct; impl == nil is !built. calls and the two close counters record what was called on the impl. */
  datatype Holder = Holder(
    built: bool, dead: bool, locked: bool, lastUsed: nat,
    calls: seq<Call>, ownerCloses: nat, teardowns: nat)

  /** Who called drop, and where to go on afterwards. */
  datatype Caller = ByRun | ByReaper(now: nat)

  /** What a thread is doing with a holder it has to itself. */
  datatype Work =
    // acquire, Run and release
    | Building
    | Acquired
    | Running
    | Cleaned
    | Stamping
    | Releasing
    | Pushing
    // drop, and the impl.close that release and drop end with
    | Dropping(from: Caller)
    | Closing(from: Caller)
    // reapIdle and NewPool
    | PuttingBack
    | Enqueuing(i: nat)

  /** Where a thread is inside Close, past the closed check; rest are the snapshotted holders not closed yet. */
  datatype ClosePc =
    | StoppingReaper
    | AwaitingReaper
    | Snapshotting
    | Draining(rest: set<Id>)
    | TearingDown(rest: set<Id>)

  datatype Pc =
    // acquire
    | TryingIdle
    | Reserving
    | Waiting
    | Has(h: Id, w: Work)
    // Run's deferred unlock
    | Unlocking(h: Id)
    // reaper and reapIdle
    | Sleeping
    | Counting(now: nat)
    | Taking(now: nat)
    | Exiting
    // Close
    | Marking
    | In(c: ClosePc)
    // NewPool
    | Filling(i: nat)

  /** acquire has reserved a slot and is starting a holder for it. */
  predicate IsBuilding(p: Pc) {
    p.Has? && p.w.Building?
  }

  datatype Panic = NilImpl(h: Id) | CloseOfClosedChannel

  /**
    History the source does not store: holders dropped by a Run, scale-ups that failed, the registered holders when
    closed was set, the snapshot Close took, what Close drained and what it closed, and the holders acquire handed out
    after closed was set.
   */
  datatype Log = Log(
    deaths: nat, failed: nat,
    atClose: set<Id>, snap: Option<set<Id>>, drained: set<Id>, torn: set<Id>, handouts: seq<Id>)

  /** What the goroutines share: the Pool struct's fields, the holders, the clock, and the history. */
  datatype Mem = Mem(
    cfg: Config, now: nat,
    all: set<Id>, idle: seq<Id>, closed: bool, stop: bool, done: bool,
    heap: map<Id, Holder>,
    published: bool, panic: Option<Panic>, log: Log)

  datatype State = State(m: Mem, pc: map<Tid, Pc>)

  /** The atomic regions, with the outside world's answers as arguments. */
  datatype Action =
    // acquire
    | TryIdle
    | ReserveSlot(id: Id)
    | Build(ok: bool)
    | WaitIdle
    | Cancel
    // Run
    | Begin
    | Finish
    | Check(ok: bool)
    | Unlock
    // release and drop
    | Stamp
    | ReleaseLocked
    | Push
    | DropLocked
    | CloseImpl
    // reaper
    | ReapTick
    | ReapStop
    | ReapCount
    | ReapTake
    | ReapPutBack
    | ReapExit
    // Close
    | MarkClosed
    | StopReaper
    | AwaitReaper
    | Snapshot
    | Drain
    | TearDown(x: Id)
    | CloseReturn
    // NewPool
    | Create(id: Id, ok: bool)
    | Enqueue
    | Publish

  /** The clock advances, a caller enters Run or Close, or a thread performs its next region. */
  datatype Step = Tick | CallRun(t: Tid) | CallClose(t: Tid) | Go(t: Tid, a: Action)

  function Init(cfg: Config): State {
    State(Mem(cfg, 0, {}, [], false, false, !cfg.Reaps(), map[], false, None, Log(0, 0, {}, None, {}, {}, [])),
          if cfg.Reaps() then map[CTOR := Filling(0), REAPER := Sleeping] else map[CTOR := Filling(0)])
  }

  function NewHolder(built: bool, now: nat): Holder {
    Holder(built, false, false, now, [], 0, 0)
  }

  /** A thread at p can perform a: it stands there, and a receive, send or lock in a does not block. */
  predicate Ready(m: Mem, p: Pc, a: Action) {
    match a
    case TryIdle => p.TryingIdle?
    case ReserveSlot(h) => p.Reserving? && h !in m.heap
    case Build(_) => IsBuilding(p) && p.h in m.heap
    case WaitIdle => p.Waiting? && |m.idle| > 0
    case Cancel => p.Waiting?
    case Begin => (p.Has? && p.w.Acquired?) && p.h in m.heap && !m.heap[p.h].locked
    case Finish => (p.Has? && p.w.Running?) && p.h in m.heap
    case Check(_) => (p.Has? && p.w.Cleaned?) && p.h in m.heap
    case Unlock => p.Unlocking? && p.h in m.heap
    case Stamp => (p.Has? && p.w.Stamping?) && p.h in m.heap
    case ReleaseLocked => (p.Has? && p.w.Releasing?)
    case Push => (p.Has? && p.w.Pushing?) && |m.idle| < m.cfg.max
    case DropLocked => (p.Has? && p.w.Dropping?)
    case CloseImpl => (p.Has? && p.w.Closing?) && p.h in m.heap
    case ReapTick => p.Sleeping?
    case ReapStop => p.Sleeping? && m.stop
    case ReapCount => p.Counting?
    case ReapTake => p.Taking? && (|m.idle| > 0 ==> m.idle[0] in m.heap)
    case ReapPutBack => (p.Has? && p.w.PuttingBack?) && |m.idle| < m.cfg.max
    case ReapExit => p.Exiting?
    case MarkClosed => p.Marking?
    case StopReaper => (p.In? && p.c.StoppingReaper?)
    case AwaitReaper => (p.In? && p.c.AwaitingReaper?) && m.done
    case Snapshot => (p.In? && p.c.Snapshotting?)
    case Drain => (p.In? && p.c.Draining?)
    case TearDown(h) => (p.In? && p.c.TearingDown?) && h in p.c.rest && h in m.heap
    case CloseReturn => (p.In? && p.c.TearingDown?) && p.c.rest == {}
    case Create(h, _) => p.Filling? && p.i < m.cfg.min && h !in m.heap
    case Enqueue => (p.Has? && p.w.Enqueuing?) && |m.idle| < m.cfg.max
    case Publish => p.Filling? && p.i >= m.cfg.min
  }

  /** What a region leaves behind: the memory, and where its thread stands next (None: it has returned). */
  datatype Outcome = Outcome(m: Mem, p: Option<Pc>)

  function Next(m: Mem, p: Pc): Outcome {
    Outcome(m, Some(p))
  }

  /** Calling a method of a nil impl, and closing a closed channel, end the process. */
  function Crash(m: Mem, p: Pc, why: Panic): Outcome {
    Outcome(m.(panic := Some(why)), Some(p))
  }

  function Put(m: Mem, h: Id, x: Holder): Mem {
    m.(heap := m.heap[h := x])
  }

  function Called(x: Holder, c: Call): Holder {
    x.(calls := x.calls + [c])
  }

  /** acquire returns h. */
  function HandOut(m: Mem, h: Id): Outcome {
    Next(if m.closed then m.(log := m.log.(handouts := m.log.handouts + [h])) else m, Has(h, Acquired))
  }

  /** After drop, a Run only has its holder's mutex left to release; the reaper loops. */
  function After(h: Id, from: Caller): Pc {
    match from
    case ByRun => Unlocking(h)
    case ByReaper(now) => Counting(now)
  }

  predicate Expired(m: Mem, h: Id, now: nat)
    requires h in m.heap
  {
    now - m.heap[h].lastUsed >= m.cfg.idleTimeout
  }

  // Groups of regions that belong together in the source.

  predicate InTake(a: Action) {
    a.TryIdle? || a.WaitIdle? || a.Cancel?
  }

  predicate InReserve(a: Action) {
    a.ReserveSlot?
  }

  predicate InBuild(a: Action) {
    a.Build?
  }

  predicate InRun(a: Action) {
    a.Begin? || a.Finish?
  }

  predicate InCheck(a: Action) {
    a.Check?
  }

  predicate InRelease(a: Action) {
    a.Stamp? || a.ReleaseLocked? || a.Push? || a.Unlock?
  }

  predicate InDrop(a: Action) {
    a.DropLocked? || a.CloseImpl?
  }

  predicate InReaper(a: Action) {
    a.ReapTick? || a.ReapStop? || a.ReapCount? || a.ReapTake? || a.ReapPutBack? || a.ReapExit?
  }

  predicate InHalt(a: Action) {
    a.MarkClosed? || a.StopReaper?
  }

  predicate InSnapshot(a: Action) {
    a.AwaitReaper? || a.Snapshot?
  }

  predicate InTearDown(a: Action) {
    a.Drain? || a.TearDown? || a.CloseReturn?
  }

  predicate InNew(a: Action) {
    a.Create? || a.Enqueue? || a.Publish?
  }

  /** Acquire, pool.go:158-194. */
  function AcquireRegion(m: Mem, p: Pc, a: Action): Outcome
    requires Ready(m, p, a) && (a.TryIdle? || a.ReserveSlot? || a.Build? || a.WaitIdle? || a.Cancel?)
  {
    match a
    case TryIdle => if |m.idle| > 0 then HandOut(m.(idle := m.idle[1..]), m.idle[0]) else Next(m, Reserving)
    case ReserveSlot(h) =>
      if m.closed then Outcome(m, None)
      else if |m.all| < m.cfg.max then
        Next(m.(all := m.all + {h}, heap := m.heap[h := NewHolder(false, m.now)]), Has(h, Building))
      else Next(m, Waiting)
    case Build(ok) =>
      if ok then HandOut(Put(m, p.h, m.heap[p.h].(built := true)), p.h)
      else Outcome(m.(all := m.all - {p.h}, log := m.log.(failed := m.log.failed + 1)), None)
    case WaitIdle => HandOut(m.(idle := m.idle[1..]), m.idle[0])
    case Cancel => Outcome(m, None)
  }

  /** Run, pool.go:233-254. */
  function RunRegion(m: Mem, p: Pc, a: Action): Outcome
    requires Ready(m, p, a) && (a.Begin? || a.Finish? || a.Check? || a.Unlock?)
  {
    match a
    case Begin =>
      var x := m.heap[p.h].(locked := true);
      if x.dead then Next(Put(m, p.h, x), Has(p.h, Dropping(ByRun)))
      else if !x.built then Crash(m, p, NilImpl(p.h))
      else Next(Put(m, p.h, Called(x, RunCall)), Has(p.h, Running))
    case Finish =>
      if !m.heap[p.h].built then Crash(m, p, NilImpl(p.h))
      else Next(Put(m, p.h, Called(m.heap[p.h], CleanupCall)), Has(p.h, Cleaned))
    case Check(ok) =>
      if !m.heap[p.h].built then Crash(m, p, NilImpl(p.h))
      else if ok then Next(Put(m, p.h, Called(m.heap[p.h], CheckOk)), Has(p.h, Stamping))
      else Next(Put(m, p.h, Called(m.heap[p.h], CheckFailed).(dead := true)), Has(p.h, Dropping(ByRun)))
    case Unlock => Outcome(Put(m, p.h, m.heap[p.h].(locked := false)), None)
  }

  /** Release and drop, pool.go:198-220. */
  function ReleaseRegion(m: Mem, p: Pc, a: Action): Outcome
    requires Ready(m, p, a) && (a.Stamp? || a.ReleaseLocked? || a.Push? || a.DropLocked? || a.CloseImpl?)
  {
    match a
    case Stamp => Next(Put(m, p.h, m.heap[p.h].(lastUsed := m.now)), Has(p.h, Releasing))
    case ReleaseLocked =>
      if m.closed then Next(m.(all := m.all - {p.h}), Has(p.h, Closing(ByRun))) else Next(m, Has(p.h, Pushing))
    case Push => Next(m.(idle := m.idle + [p.h]), Unlocking(p.h))
    case DropLocked =>
      Next(m.(all := m.all - {p.h}, log := if p.w.from.ByRun? then m.log.(deaths := m.log.deaths + 1) else m.log),
           if p.h in m.all then Has(p.h, Closing(p.w.from)) else After(p.h, p.w.from))
    case CloseImpl =>
      var x := m.heap[p.h];
      if !x.built then Crash(m, p, NilImpl(p.h))
      else Next(Put(m, p.h, x.(ownerCloses := x.ownerCloses + 1)), After(p.h, p.w.from))
  }

  /** Reaper and reapIdle, pool.go:259-306. */
  function ReaperRegion(m: Mem, p: Pc, a: Action): Outcome
    requires Ready(m, p, a) && (a.ReapTick? || a.ReapStop? || a.ReapCount? || a.ReapTake? || a.ReapPutBack? || a.ReapExit?)
  {
    match a
    case ReapTick => Next(m, Counting(m.now))
    case ReapStop => Next(m, Exiting)
    case ReapCount => Next(m, if |m.all| <= m.cfg.min then Sleeping else Taking(p.now))
    case ReapTake =>
      if |m.idle| == 0 then Next(m, Sleeping)
      else
        var h := m.idle[0];
        Next(m.(idle := m.idle[1..]), if Expired(m, h, p.now) then Has(h, Dropping(ByReaper(p.now))) else Has(h, PuttingBack))
    case ReapPutBack => Next(m.(idle := m.idle + [p.h]), Sleeping)
    case ReapExit => if m.done then Crash(m, p, CloseOfClosedChannel) else Outcome(m.(done := true), None)
  }

  /** Close, pool.go:309-352. */
  function CloseRegion(m: Mem, p: Pc, a: Action): Outcome
    requires Ready(m, p, a)
    requires a.MarkClosed? || a.StopReaper? || a.AwaitReaper? || a.Snapshot? || a.Drain? || a.TearDown? || a.CloseReturn?
  {
    match a
    case MarkClosed =>
      if m.closed then Outcome(m, None)
      else Next(m.(closed := true, log := m.log.(atClose := m.all)),
                if m.cfg.Reaps() then In(StoppingReaper) else In(AwaitingReaper))
    case StopReaper =>
      if m.stop then Crash(m, p, CloseOfClosedChannel) else Next(m.(stop := true), In(AwaitingReaper))
    case AwaitReaper => Next(m, In(Snapshotting))
    case Snapshot => Next(m.(all := {}, log := m.log.(snap := Some(m.all))), In(Draining(m.all)))
    case Drain =>
      if |m.idle| == 0 then Next(m, In(TearingDown(p.c.rest)))
      else Next(m.(idle := m.idle[1..], log := m.log.(drained := m.log.drained + {m.idle[0]})), p)
    case TearDown(h) =>
      var x := m.heap[h];
      if !x.built then Crash(m, p, NilImpl(h))
      else
        Next(Put(m, h, x.(teardowns := x.teardowns + 1)).(log := m.log.(torn := m.log.torn + {h})),
             In(TearingDown(p.c.rest - {h})))
    case CloseReturn => Outcome(m, None)
  }

  /** NewPool, pool.go:130-139 and 144-153; a failed create ends in Close. */
  function NewRegion(m: Mem, p: Pc, a: Action): Outcome
    requires Ready(m, p, a) && (a.Create? || a.Enqueue? || a.Publish?)
  {
    match a
    case Create(h, ok) =>
      if ok then Next(m.(all := m.all + {h}, heap := m.heap[h := NewHolder(true, m.now)]), Has(h, Enqueuing(p.i)))
      else Next(m, Marking)
    case Enqueue => Next(m.(idle := m.idle + [p.h]), Filling(p.w.i + 1))
    case Publish => Outcome(m.(published := true), None)
  }

  function Region(m: Mem, p: Pc, a: Action): Outcome
    requires Ready(m, p, a)
  {
    match a
    case TryIdle | ReserveSlot(_) | Build(_) | WaitIdle | Cancel => AcquireRegion(m, p, a)
    case Begin | Finish | Check(_) | Unlock => RunRegion(m, p, a)
    case Stamp | ReleaseLocked | Push | DropLocked | CloseImpl => ReleaseRegion(m, p, a)
    case ReapTick | ReapStop | ReapCount | ReapTake | ReapPutBack | ReapExit => ReaperRegion(m, p, a)
    case MarkClosed | StopReaper | AwaitReaper | Snapshot | Drain | TearDown(_) | CloseReturn => CloseRegion(m, p, a)
    case Create(_, _) | Enqueue | Publish => NewRegion(m, p, a)
  }

  // A proof about one of the parts hides Region and calls one of these.

  lemma DispatchAcquire(m: Mem, p: Pc, a: Action)
    requires Ready(m, p, a)
    requires a.TryIdle? || a.ReserveSlot? || a.Build? || a.WaitIdle? || a.Cancel?
    ensures Region(m, p, a) == AcquireRegion(m, p, a)
  {
  }

  lemma DispatchRun(m: Mem, p: Pc, a: Action)
    requires Ready(m, p, a)
    requires a.Begin? || a.Finish? || a.Check? || a.Unlock?
    ensures Region(m, p, a) == RunRegion(m, p, a)
  {
  }

  lemma DispatchRelease(m: Mem, p: Pc, a: Action)
    requires Ready(m, p, a)
    requires a.Stamp? || a.ReleaseLocked? || a.Push? || a.DropLocked? || a.CloseImpl?
    ensures Region(m, p, a) == ReleaseRegion(m, p, a)
  {
  }

  lemma DispatchReaper(m: Mem, p: Pc, a: Action)
    requires Ready(m, p, a)
    requires a.ReapTick? || a.ReapStop? || a.ReapCount? || a.ReapTake? || a.ReapPutBack? || a.ReapExit?
    ensures Region(m, p, a) == ReaperRegion(m, p, a)
  {
  }

  lemma DispatchClose(m: Mem, p: Pc, a: Action)
    requires Ready(m, p, a)
    requires a.MarkClosed? || a.StopReaper? || a.AwaitReaper? || a.Snapshot? || a.Drain? || a.TearDown? || a.CloseReturn?
    ensures Region(m, p, a) == CloseRegion(m, p, a)
  {
  }

  lemma DispatchNew(m: Mem, p: Pc, a: Action)
    requires Ready(m, p, a)
    requires a.Create? || a.Enqueue? || a.Publish?
    ensures Region(m, p, a) == NewRegion(m, p, a)
  {
  }

  predicate Enabled(s: State, e: Step) {
    && s.m.panic.None?
    && match e
       case Tick => true
       case CallRun(t) => s.m.published && t !in s.pc && t > REAPER
       case CallClose(t) => s.m.published && t !in s.pc && t > REAPER
       case Go(t, a) => t in s.pc && Ready(s.m, s.pc[t], a)
  }

  function Do(s: State, e: Step): (u: State)
    requires Enabled(s, e)
  {
    match e
    case Tick => s.(m := s.m.(now := s.m.now + 1))
    case CallRun(t) => s.(pc := s.pc[t := TryingIdle])
    case CallClose(t) => s.(pc := s.pc[t := Marking])
    case Go(t, a) =>
      var r := Region(s.m, s.pc[t], a);
      State(r.m, if r.p.Some? then s.pc[t := r.p.value] else s.pc - {t})
  }

  // ----- Runs

  /** The steps es are possible from s, in this order, and lead to u. */
  ghost predicate Steps(s: State, es: seq<Step>, u: State)
    decreases |es|
  {
    if es == [] then u == s else Enabled(s, es[0]) && Steps(Do(s, es[0]), es[1..], u)
  }

  ghost predicate Leads(s: State, u: State) {
    exists es :: Steps(s, es, u)
  }

  /** s occurs in some run of a pool whose configuration passed normalize. */
  ghost predicate Reachable(s: State) {
    s.m.cfg.Normal() && Leads(Init(s.m.cfg), s)
  }

  lemma {:induction false} StepsAppend(s: State, es: seq<Step>, u: State, fs: seq<Step>, v: State)
    requires Steps(s, es, u) && Steps(u, fs, v)
    ensures Steps(s, es + fs, v)
    decreases |es|
  {
    if es == [] {
      assert es + fs == fs;
    } else {
      StepsAppend(Do(s, es[0]), es[1..], u, fs, v);
      assert (es + fs)[1..] == es[1..] + fs;
    }
  }

  lemma OneStep(s: State, e: Step)
    requires Enabled(s, e)
    ensures Steps(s, [e], Do(s, e)) && Leads(s, Do(s, e))
  {
    assert [e][1..] == [] && [e][0] == e;
    assert Steps(Do(s, e), [e][1..], Do(s, e));
    assert Steps(s, [e], Do(s, e));
  }

  lemma LeadsTrans(s: State, u: State, v: State)
    requires Leads(s, u) && Leads(u, v)
    ensures Leads(s, v)
  {
    var es :| Steps(s, es, u);
    var fs :| Steps(u, fs, v);
    StepsAppend(s, es, u, fs, v);
  }

  lemma LeadsRefl(s: State)
    ensures Leads(s, s)
  {
    assert Steps(s, [], s);
  }

  lemma RegionKeepsCfg(m: Mem, p: Pc, a: Action)
    requires Ready(m, p, a)
    ensures Region(m, p, a).m.cfg == m.cfg
  {
    match a
    case TryIdle | ReserveSlot(_) | Build(_) | WaitIdle | Cancel | Begin | Finish | Check(_) | Unlock | Stamp | ReleaseLocked
      | Push | DropLocked | CloseImpl | ReapTick | ReapStop | ReapCount | ReapTake | ReapPutBack | ReapExit | MarkClosed
      | StopReaper | AwaitReaper | Snapshot | Drain | TearDown(_) | CloseReturn | Create(_, _) | Enqueue | Publish =>
  }

  lemma CfgKept(s: State, e: Step)
    requires Enabled(s, e)
    ensures Do(s, e).m.cfg == s.m.cfg
  {
    if e.Go? {
      RegionKeepsCfg(s.m, s.pc[e.t], e.a);
    }
  }

  lemma ReachableStep(s: State, e: Step)
    requires Reachable(s) && Enabled(s, e)
    ensures Reachable(Do(s, e))
  {
    CfgKept(s, e);
    OneStep(s, e);
    LeadsTrans(Init(s.m.cfg), s, Do(s, e));
  }

}
