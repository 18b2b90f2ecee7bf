/** Who has which holder, in every reachable state: exclusivity, capacity, hygiene. */
module Ownership {
  import opened Wrappers
  import opened Protocol
  import opened Invariants

  /** The thread at p is between the start of run and the end of checkHolder on h. */
  predicate Executes(p: Pc, h: Id) {
    p.Has? && p.h == h && (p.w.Running? || p.w.Cleaned?)
  }

  /** Number of times h's impl has been closed, by a Run or the reaper (release, drop) and by Close. */
  function Closes(m: Mem, h: Id): nat
    requires h in m.heap
  {
    m.heap[h].ownerCloses + m.heap[h].teardowns
  }

  /**
    Every holder has at most one place: one position in idle, or one thread. Until Close takes its snapshot the
    registered holders are exactly those; hence two Runs never execute on the same holder, then or afterwards.
   */
  lemma OwnershipPartition(s: State)
    requires Reachable(s)
    ensures Distinct(s.m.idle)
    ensures forall t, h :: t in s.pc && Holds(s.pc[t], h) ==> h !in s.m.idle
    ensures forall t, u, h :: t in s.pc && u in s.pc && Holds(s.pc[t], h) && Holds(s.pc[u], h) ==> t == u
    ensures forall t, u, h :: t in s.pc && u in s.pc && Executes(s.pc[t], h) && Executes(s.pc[u], h) ==> t == u
    ensures s.m.log.snap.None? ==> forall h :: h in s.m.all <==> Circulates(s, h)
  {
    ReachableInv(s);
    hide Shared, RoleOk, Guarded, Counted;
    if s.m.log.snap.None? {
      forall h ensures h in s.m.all <==> Circulates(s, h) {
        assert HolderOk(s.m, h);
        if h in s.m.all && h !in s.m.idle {
          assert Due(s.m, Hold(h));
          var t :| t in s.pc && Bears(s.pc[t], Hold(h));
        }
      }
    }
  }

  // ----- Capacity

  ghost function Circulating(s: State): set<Id> {
    set h | h in s.m.heap && Circulates(s, h)
  }

  lemma CirculatesWithin(s: State, h: Id)
    requires Inv(s) && Circulates(s, h)
    ensures h in s.m.heap && h in if s.m.closed then s.m.log.atClose else s.m.all
  {
    hide RoleOk, Guarded, Counted;
    if h in s.m.idle {
      assert HolderOk(s.m, h);
    } else {
      var t :| t in s.pc && Holds(s.pc[t], h);
      assert Carries(s.m, s.pc[t]);
    }
  }

  lemma Pick<T>(a: set<T>) returns (x: T)
    requires |a| > 0
    ensures x in a
  {
    x :| x in a;
  }

  lemma SubsetSize<T>(a: set<T>, b: set<T>)
    requires a <= b
    ensures |a| <= |b|
  {
    assert |b| == |a| + |b - a| by {
      assert b == a + (b - a);
    }
  }

  lemma {:induction false} DistinctSize(q: seq<Id>, b: set<Id>)
    requires Distinct(q) && forall h :: h in q ==> h in b
    ensures |q| <= |b|
    ensures |q| == |b| ==> forall h :: h in b ==> h in q
    decreases |q|
  {
    if q == [] {
    } else {
      var h, rest := q[0], q[1..];
      assert q == [h] + rest;
      DistinctSize(rest, b - {h});
    }
  }

  /**
    At most Max holders are idle, held or reserved, also after Close has emptied the registry while releases are still
    under way.
   */
  lemma CapacityBound(s: State)
    requires Reachable(s)
    ensures forall h :: Circulates(s, h) <==> h in Circulating(s)
    ensures |Circulating(s)| <= s.m.cfg.max
  {
    ReachableInv(s);
    forall h | Circulates(s, h) ensures h in s.m.heap && h in if s.m.closed then s.m.log.atClose else s.m.all {
      CirculatesWithin(s, h);
    }
    SubsetSize(Circulating(s), if s.m.closed then s.m.log.atClose else s.m.all);
  }

  /** The three sends on idle never block: release's, reapIdle's put-back, and NewPool's. */
  lemma SendsNeverBlock(s: State, t: Tid)
    requires Reachable(s) && t in s.pc && s.pc[t].Has?
    ensures s.pc[t].w.Pushing? ==> Ready(s.m, s.pc[t], Push)
    ensures s.pc[t].w.PuttingBack? ==> Ready(s.m, s.pc[t], ReapPutBack)
    ensures s.pc[t].w.Enqueuing? ==> Ready(s.m, s.pc[t], Enqueue)
  {
    ReachableInv(s);
    if HasToken(s.pc[t]) {
      RoomToSend(s, t);
    }
  }

  /** A holder in some thread's hands takes no place in idle. */
  lemma RoomToSend(s: State, t: Tid)
    requires Inv(s) && t in s.pc && HasToken(s.pc[t])
    ensures |s.m.idle| < s.m.cfg.max
  {
    var h := s.pc[t].h;
    var b := if s.m.closed then s.m.log.atClose else s.m.all;
    assert Holds(s.pc[t], h);
    assert HeldBy(s.pc, h);
    CirculatesWithin(s, h);
    forall x | x in s.m.idle ensures x in b - {h} {
      CirculatesWithin(s, x);
      assert Carries(s.m, s.pc[t]);
    }
    DistinctSize(s.m.idle, b - {h});
  }

  // ----- Reservations and dead holders

  /** A holder without an impl is in its creator's hands or abandoned; Run, release, drop and the reaper never see it. */
  lemma ReservationsHidden(s: State, h: Id)
    requires Reachable(s) && h in s.m.heap && !s.m.heap[h].built
    ensures h !in s.m.idle
    ensures forall t :: t in s.pc && s.pc[t].Has? && s.pc[t].h == h ==> s.pc[t].w.Building?
    ensures s.m.heap[h].calls == [] && Closes(s.m, h) == 0
  {
    ReachableInv(s);
    hide RoleOk, Guarded, Counted, Shared;
    assert HolderOk(s.m, h);
    forall t | t in s.pc && s.pc[t].Has? && s.pc[t].h == h ensures s.pc[t].w.Building? {
      assert Carries(s.m, s.pc[t]);
    }
  }

  /** The regions that can panic at all. */
  predicate Crashes(m: Mem, p: Pc, a: Action)
    requires Ready(m, p, a)
  {
    match a
    case Begin => !m.heap[p.h].dead && !m.heap[p.h].built
    case Finish | Check(_) | CloseImpl => !m.heap[p.h].built
    case ReapExit => m.done
    case StopReaper => m.stop
    case TearDown(h) => !m.heap[h].built
    case _ => false
  }

  lemma CrashPoints(m: Mem, p: Pc, a: Action)
    requires Ready(m, p, a) && m.panic.None?
    ensures Region(m, p, a).m.panic.Some? <==> Crashes(m, p, a)
    ensures Crashes(m, p, a) && a.TearDown? ==> Region(m, p, a).m.panic == Some(NilImpl(a.x))
  {
    match a
    case TryIdle | ReserveSlot(_) | Build(_) | WaitIdle | Cancel | Begin | Finish | Check(_) | Unlock | Stamp | ReleaseLocked
      | Push | DropLocked | CloseImpl | ReapTick | ReapStop | ReapCount | ReapTake | ReapPutBack | ReapExit | MarkClosed
      | StopReaper | AwaitReaper | Snapshot | Drain | TearDown(_) | CloseReturn | Create(_, _) | Enqueue | Publish =>
  }

  lemma CrashesOnlyTearingDown(m: Mem, t: Tid, p: Pc, a: Action)
    requires Before(m, t, p, a)
    ensures Region(m, p, a).m.panic.Some? ==>
      a.TearDown? && !m.heap[a.x].built && Region(m, p, a).m.panic == Some(NilImpl(a.x))
    ensures a.TearDown? && !m.heap[a.x].built ==> Region(m, p, a).m.panic.Some?
  {
    hide Region, Counted, Unknown, Floor;
    CrashPoints(m, p, a);
  }

  /**
    The process panics exactly when Close's teardown loop reaches a holder that has no impl; in particular reaperStop
    and reaperDone are never closed twice, and no dead holder is ever acquired.
   */
  lemma PanicsOnlyInTearDown(s: State, e: Step)
    requires Reachable(s) && Enabled(s, e)
    ensures Do(s, e).m.panic.Some? <==> e.Go? && e.a.TearDown? && !s.m.heap[e.a.x].built
    ensures Do(s, e).m.panic.Some? ==> Do(s, e).m.panic == Some(NilImpl(e.a.x))
  {
    ReachableInv(s);
    if e.Go? {
      hide Inv, Region;
      StepBefore(s, e.t, e.a);
      CrashesOnlyTearingDown(s.m, e.t, s.pc[e.t], e.a);
    }
  }

  /** Run's guard for an acquired dead holder is never taken. */
  lemma DeadNeverAcquired(s: State, t: Tid)
    requires Reachable(s) && t in s.pc && s.pc[t].Has? && s.pc[t].w.Acquired?
    ensures s.pc[t].h in s.m.heap && !s.m.heap[s.pc[t].h].dead
  {
    ReachableInv(s);
    assert Carries(s.m, s.pc[t]);
  }

  /** h was found dead and is out of reach: not idle, and at most about to be dropped. */
  ghost predicate Buried(s: State, h: Id, calls: seq<Call>) {
    && h in s.m.heap && s.m.heap[h].dead && s.m.heap[h].calls == calls
    && h !in s.m.idle
    && (forall t :: t in s.pc && s.pc[t].Has? && s.pc[t].h == h ==> s.pc[t].w.Dropping? || s.pc[t].w.Closing?)
  }

  lemma DeadIsBuried(s: State, h: Id)
    requires Inv(s) && h in s.m.heap && s.m.heap[h].dead
    ensures Buried(s, h, s.m.heap[h].calls)
  {
    assert HolderOk(s.m, h);
    forall t | t in s.pc && s.pc[t].Has? && s.pc[t].h == h ensures s.pc[t].w.Dropping? || s.pc[t].w.Closing? {
      assert Carries(s.m, s.pc[t]);
    }
  }

  predicate WritesHolder(a: Action) {
    InReserve(a) || InBuild(a) || InRun(a) || InCheck(a) || a.Unlock? || a.Stamp? || a.CloseImpl? || a.TearDown? || a.Create?
  }

  lemma HoldersUntouched(m: Mem, p: Pc, a: Action)
    requires Ready(m, p, a) && !WritesHolder(a)
    ensures Region(m, p, a).m.heap == m.heap
  {
    match a
    case TryIdle | ReserveSlot(_) | Build(_) | WaitIdle | Cancel | Begin | Finish | Check(_) | Unlock | Stamp | ReleaseLocked
      | Push | DropLocked | CloseImpl | ReapTick | ReapStop | ReapCount | ReapTake | ReapPutBack | ReapExit | MarkClosed
      | StopReaper | AwaitReaper | Snapshot | Drain | TearDown(_) | CloseReturn | Create(_, _) | Enqueue | Publish =>
  }

  lemma RunWrites(m: Mem, p: Pc, a: Action)
    requires Ready(m, p, a) && (InRun(a) || InCheck(a) || a.Unlock?)
    ensures var u := Region(m, p, a).m; p.h in u.heap && u.heap == m.heap[p.h := u.heap[p.h]]
  {
    hide Region;
    DispatchRun(m, p, a);
  }

  lemma ReleaseWrites(m: Mem, p: Pc, a: Action)
    requires Ready(m, p, a) && (a.Stamp? || a.CloseImpl?)
    ensures var u := Region(m, p, a).m; p.h in u.heap && u.heap == m.heap[p.h := u.heap[p.h]]
  {
    hide Region;
    DispatchRelease(m, p, a);
  }

  lemma AcquireWrites(m: Mem, p: Pc, a: Action)
    requires Ready(m, p, a) && (InBuild(a) || InReserve(a))
    ensures var u := Region(m, p, a).m; var h := if InBuild(a) then p.h else a.id;
      u.heap == m.heap || (h in u.heap && u.heap == m.heap[h := u.heap[h]])
  {
    hide Region;
    DispatchAcquire(m, p, a);
  }

  lemma NewWrites(m: Mem, p: Pc, a: Action)
    requires Ready(m, p, a) && a.Create?
    ensures var u := Region(m, p, a).m; u.heap == m.heap || (a.id in u.heap && u.heap == m.heap[a.id := u.heap[a.id]])
  {
    hide Region;
    DispatchNew(m, p, a);
  }

  /** A thread's region leaves the holders of others alone. */
  lemma HolderElsewhere(m: Mem, p: Pc, a: Action, h: Id)
    requires Ready(m, p, a) && h in m.heap && !a.TearDown? && (p.Has? || p.Unlocking? ==> p.h != h)
    ensures var u := Region(m, p, a).m; h in u.heap && u.heap[h] == m.heap[h]
  {
    hide Region;
    if !WritesHolder(a) {
      HoldersUntouched(m, p, a);
    } else if InRun(a) || InCheck(a) || a.Unlock? {
      RunWrites(m, p, a);
    } else if a.Create? {
      NewWrites(m, p, a);
    } else if InBuild(a) || InReserve(a) {
      AcquireWrites(m, p, a);
    } else {
      ReleaseWrites(m, p, a);
    }
  }

  /** Close counts its close, and leaves the rest of every holder alone. */
  lemma TearDownCounts(m: Mem, p: Pc, a: Action, h: Id)
    requires Ready(m, p, a) && a.TearDown? && h in m.heap
    ensures var u := Region(m, p, a).m; h in u.heap && u.heap[h] == m.heap[h].(teardowns := u.heap[h].teardowns)
  {
    hide Region;
    DispatchClose(m, p, a);
  }

  /** How a holder gets on: its impl stays, its history grows, its last use is kept or now. */
  predicate Continues(x: Holder, y: Holder, now: nat) {
    (x.built ==> y.built) && x.calls <= y.calls && (y.lastUsed == x.lastUsed || y.lastUsed == now)
  }

  lemma OwnInRun(m: Mem, p: Pc, a: Action)
    requires Ready(m, p, a) && (InRun(a) || InCheck(a))
    ensures var u := Region(m, p, a).m;
      p.h in m.heap && p.h in u.heap && Continues(m.heap[p.h], u.heap[p.h], m.now)
  {
    hide Region;
    DispatchRun(m, p, a);
  }

  lemma OwnUnlocked(m: Mem, p: Pc, a: Action)
    requires Ready(m, p, a) && a.Unlock?
    ensures p.h in m.heap && Region(m, p, a).m.heap == m.heap[p.h := m.heap[p.h].(locked := false)]
  {
    hide Region;
    DispatchRun(m, p, a);
  }

  lemma OwnOtherwise(m: Mem, p: Pc, a: Action)
    requires Ready(m, p, a) && (InBuild(a) || a.Stamp? || a.CloseImpl?)
    ensures var u := Region(m, p, a).m;
      && p.h in m.heap && p.h in u.heap
      && var x, y := m.heap[p.h], u.heap[p.h];
         Continues(x, y, m.now) && y.dead == x.dead && y.calls == x.calls
  {
    hide Region;
    if InBuild(a) {
      DispatchAcquire(m, p, a);
    } else {
      DispatchRelease(m, p, a);
    }
  }

  lemma WritersOwn(m: Mem, p: Pc, a: Action)
    requires Ready(m, p, a) && WritesHolder(a)
    ensures (InRun(a) || InCheck(a) || a.Unlock? || InBuild(a) || a.Stamp? || a.CloseImpl?) <==> p.Has? || p.Unlocking?
  {
  }

  /** Every holder gets on; only run, cleanup and checkHolder, called by the holder's owner, add to its history. */
  lemma HolderContinues(m: Mem, p: Pc, a: Action, h: Id)
    requires Ready(m, p, a) && h in m.heap
    ensures var u := Region(m, p, a).m; h in u.heap && Continues(m.heap[h], u.heap[h], m.now)
    ensures var u := Region(m, p, a).m;
      (InRun(a) || InCheck(a) ==> p.h != h) ==> u.heap[h].dead == m.heap[h].dead && u.heap[h].calls == m.heap[h].calls
  {
    hide Region, Ready;
    if !WritesHolder(a) {
      HoldersUntouched(m, p, a);
    } else if a.TearDown? {
      TearDownCounts(m, p, a, h);
    } else {
      WritersOwn(m, p, a);
      if (p.Has? || p.Unlocking?) && p.h == h {
        if InRun(a) || InCheck(a) {
          OwnInRun(m, p, a);
        } else if a.Unlock? {
          OwnUnlocked(m, p, a);
        } else {
          OwnOtherwise(m, p, a);
        }
      } else {
        HolderElsewhere(m, p, a, h);
      }
    }
  }

  /** What has been called on an impl is never forgotten. */
  lemma CallsGrow(s: State, e: Step, h: Id)
    requires Enabled(s, e) && h in s.m.heap
    ensures var u := Do(s, e).m; h in u.heap && s.m.heap[h].calls <= u.heap[h].calls
  {
    if e.Go? {
      hide Region, Ready;
      HolderContinues(s.m, s.pc[e.t], e.a, h);
    }
  }

  lemma DeadStays(m: Mem, t: Tid, p: Pc, a: Action, h: Id)
    requires Before(m, t, p, a) && h in m.heap && m.heap[h].dead
    ensures var u := Region(m, p, a).m; h in u.heap && u.heap[h].dead && u.heap[h].calls == m.heap[h].calls
  {
    hide Region, RoleOk, Guarded, Counted, Shared, Unknown, Floor;
    HolderContinues(m, p, a, h);
  }

  /** After a failed check the holder is never idle, handed out, or called again, whatever happens next. */
  lemma {:induction false} DeadForever(s: State, es: seq<Step>, u: State, h: Id)
    requires Inv(s) && Steps(s, es, u) && h in s.m.heap && s.m.heap[h].dead
    ensures Buried(u, h, s.m.heap[h].calls)
    decreases |es|
  {
    if es == [] {
      DeadIsBuried(s, h);
    } else {
      var e := es[0];
      InvStep(s, e);
      if e.Go? {
        hide Region, Inv;
        StepBefore(s, e.t, e.a);
        DeadStays(s.m, e.t, s.pc[e.t], e.a, h);
      }
      DeadForever(Do(s, e), es[1..], u, h);
    }
  }

  // ----- Hygiene

  /** What Run calls on an impl is always a prefix of run, cleanup, checkHolder repeated, cut at the first failed check. */
  lemma HygieneTrace(s: State, h: Id)
    requires Reachable(s) && h in s.m.heap
    ensures forall i :: 0 <= i < |s.m.heap[h].calls| ==> Fits(s.m.heap[h].calls, i)
    ensures s.m.heap[h].dead <==> s.m.heap[h].calls != [] && s.m.heap[h].calls[|s.m.heap[h].calls| - 1] == CheckFailed
  {
    ReachableInv(s);
    assert HolderOk(s.m, h);
  }

  /** A workload starts only on a fresh holder or right after a cleanup and a passed check. */
  lemma WorkloadStartsClean(s: State, t: Tid)
    requires Reachable(s) && Enabled(s, Go(t, Begin))
    ensures var calls := s.m.heap[s.pc[t].h].calls;
      calls == [] || (|calls| >= 3 && calls[|calls| - 3..] == [RunCall, CleanupCall, CheckOk])
    ensures Do(s, Go(t, Begin)).m.heap[s.pc[t].h].calls == s.m.heap[s.pc[t].h].calls + [RunCall]
  {
    ReachableInv(s);
    var h := s.pc[t].h;
    var calls := s.m.heap[h].calls;
    assert Carries(s.m, s.pc[t]) && HolderOk(s.m, h);
    if calls != [] {
      var n := |calls|;
      assert Fits(calls, n - 3) && Fits(calls, n - 2) && Fits(calls, n - 1);
      assert calls[n - 3..] == [RunCall, CleanupCall, CheckOk];
    }
  }

  /** Nothing is called on an impl after release or drop has closed it; before Close begins, after any close. */
  lemma NoCallAfterClose(s: State, t: Tid, a: Action)
    requires Reachable(s) && Enabled(s, Go(t, a)) && (a.Begin? || a.Finish? || a.Check? || a.CloseImpl?)
    ensures s.m.heap[s.pc[t].h].ownerCloses == 0
    ensures !s.m.closed ==> Closes(s.m, s.pc[t].h) == 0
  {
    ReachableInv(s);
    var h := s.pc[t].h;
    assert Carries(s.m, s.pc[t]) && HolderOk(s.m, h);
  }

  // ----- The holder's mutex

  /** The regions that call a method of an impl, and on which holder. */
  predicate CallsImpl(a: Action) {
    a.Begin? || a.Finish? || a.Check? || a.CloseImpl? || a.TearDown?
  }

  function Callee(p: Pc, a: Action): Id
    requires CallsImpl(a) && (a.TearDown? || p.Has?)
  {
    if a.TearDown? then a.x else p.h
  }

  lemma CalleeKnown(m: Mem, p: Pc, a: Action)
    requires Ready(m, p, a) && CallsImpl(a) && !a.TearDown?
    ensures p.Has?
  {
  }

  /** The thread at p has locked the mutex of h. */
  predicate HasMutex(m: Mem, p: Pc, h: Id) {
    Locks(p) && (p.Has? || p.Unlocking?) && p.h == h && h in m.heap && m.heap[h].locked
  }

  /** Where the acting thread has the callee's mutex when it makes the call: Run's first region locks before it calls. */
  predicate CallsLocked(s: State, t: Tid, a: Action)
    requires Enabled(s, Go(t, a)) && CallsImpl(a)
  {
    var u := if a.Begin? then Do(s, Go(t, a)) else s;
    t in u.pc && (a.TearDown? || s.pc[t].Has?) && HasMutex(u.m, u.pc[t], Callee(s.pc[t], a))
  }

  /**
    A method of an impl is called with its holder's mutex held exactly if neither the reaper nor Close makes the call:
    drop is called without the mutex in reapIdle, and Close takes no holder's mutex.
   */
  lemma CallsLockedIff(s: State, t: Tid, a: Action)
    requires Reachable(s) && Enabled(s, Go(t, a)) && CallsImpl(a)
    ensures CallsLocked(s, t, a) <==> !OfReaper(s.pc[t]) && !OfClose(s.pc[t])
    ensures CallsLocked(s, t, a) ==>
      forall x, h :: x in s.pc && x != t && h == Callee(s.pc[t], a) ==> !HasMutex(s.m, s.pc[x], h)
  {
    ReachableInv(s);
    assert Local(s.m, t, s.pc[t]);
    if !a.TearDown? {
      CalleeKnown(s.m, s.pc[t], a);
    }
  }
}
