/** Who can always move, who may wait for ever, and how many holders stay alive meanwhile. */
module Progress {
  import opened Protocol
  import opened Invariants
  import opened Ownership
  import opened Shutdown

  /** t can take a step of its own that does not give up: not the cancellation of its caller's context. */
  ghost predicate CanMove(s: State, t: Tid) {
    exists a :: Enabled(s, Go(t, a)) && !a.Cancel?
  }

  /** t receives from an empty idle channel. */
  predicate WaitsForIdle(s: State, t: Tid) {
    t in s.pc && s.pc[t].Waiting? && s.m.idle == []
  }

  /** t waits for u: for its deferred unlock of the holder t was given, or for the reaper to close reaperDone. */
  predicate WaitsOn(s: State, t: Tid, u: Tid) {
    t in s.pc && u in s.pc && u != t &&
    ((s.pc[t].Has? && s.pc[t].w.Acquired? && s.pc[u] == Unlocking(s.pc[t].h)) || (s.pc[t] == In(AwaitingReaper) && u == REAPER))
  }

  /** The next region of a thread at p, if nothing it depends on is missing; some unused id serves as address. */
  function Forward(m: Mem, p: Pc, unused: Id): Action {
    match p
    case TryingIdle => TryIdle
    case Reserving => ReserveSlot(unused)
    case Waiting => WaitIdle
    case Has(_, w) => (
      match w
      case Building => Build(true)
      case Acquired => Begin
      case Running => Finish
      case Cleaned => Check(true)
      case Stamping => Stamp
      case Releasing => ReleaseLocked
      case Pushing => Push
      case Dropping(_) => DropLocked
      case Closing(_) => CloseImpl
      case PuttingBack => ReapPutBack
      case Enqueuing(_) => Enqueue)
    case Unlocking(_) => Unlock
    case Sleeping => ReapTick
    case Counting(_) => ReapCount
    case Taking(_) => ReapTake
    case Exiting => ReapExit
    case Marking => MarkClosed
    case In(c) => (
      match c
      case StoppingReaper => StopReaper
      case AwaitingReaper => AwaitReaper
      case Snapshotting => Snapshot
      case Draining(_) => Drain
      case TearingDown(rest) => if rest == {} then CloseReturn else TearDown(unused))
    case Filling(i) => if i < m.cfg.min then Create(unused, true) else Publish
  }

  /** The only places where a thread can block: idle receive, holder mutex, reaperDone. */
  predicate MayBlock(m: Mem, p: Pc) {
    || (p.Waiting? && m.idle == [])
    || (p.Has? && p.w.Acquired? && p.h in m.heap && m.heap[p.h].locked)
    || (p.In? && p.c.AwaitingReaper? && !m.done)
  }

  lemma ForwardReady(m: Mem, t: Tid, p: Pc, unused: Id)
    requires Shared(m) && Local(m, t, p) && !MayBlock(m, p)
    requires HasToken(p) ==> |m.idle| < m.cfg.max
    requires |m.idle| > 0 ==> m.idle[0] in m.heap
    requires if p.In? && p.c.TearingDown? && p.c.rest != {} then unused in p.c.rest && unused in m.heap else unused !in m.heap
    ensures Ready(m, p, Forward(m, p, unused))
  {
    hide Guarded, Counted, Registered;
  }

  lemma UnblockedMoves(s: State, t: Tid)
    requires Inv(s) && s.m.panic.None? && t in s.pc && !MayBlock(s.m, s.pc[t])
    ensures CanMove(s, t)
  {
    var p := s.pc[t];
    var unused;
    if p.In? && p.c.TearingDown? && p.c.rest != {} {
      unused := Pick(p.c.rest);
      assert Guarded(s.m, p) && HolderOk(s.m, unused);
    } else {
      unused := FreshId(s.m.heap.Keys, 0);
    }
    if HasToken(p) {
      RoomToSend(s, t);
    }
    if |s.m.idle| > 0 {
      assert HolderOk(s.m, s.m.idle[0]);
    }
    hide HolderOk, RoleOk, Guarded, Counted, Carries;
    ForwardReady(s.m, t, p, unused);
    assert Enabled(s, Go(t, Forward(s.m, p, unused)));
  }

  /**
    No thread is stuck: it can move, or it waits for a holder, or another thread that it waits for can move, namely the
    Run that has yet to unlock the holder it was given, or the reaper that has yet to close reaperDone.
   */
  lemma NoThreadStuck(s: State, t: Tid)
    requires Reachable(s) && s.m.panic.None? && t in s.pc
    ensures WaitsForIdle(s, t) || CanMove(s, t) || exists u :: WaitsOn(s, t, u) && CanMove(s, u)
  {
    ReachableInv(s);
    var p := s.pc[t];
    if !MayBlock(s.m, p) {
      UnblockedMoves(s, t);
    } else if p.Has? {
      assert Due(s.m, Release(p.h));
      var u :| u in s.pc && Bears(s.pc[u], Release(p.h));
      assert u != t;
      assert Apart(s.pc[t], s.pc[u]) && WaitsOn(s, t, u);
      UnblockedMoves(s, u);
    } else if p.In? {
      assert RoleOk(s.m, t, p);
      assert REAPER in s.pc && RoleOk(s.m, REAPER, s.pc[REAPER]);
      assert WaitsOn(s, t, REAPER);
      UnblockedMoves(s, REAPER);
    }
  }

  /** t can move, or waits for a thread that can. */
  ghost predicate GetsOn(s: State, t: Tid) {
    CanMove(s, t) || exists u :: WaitsOn(s, t, u) && CanMove(s, u)
  }

  lemma KeeperGetsOn(s: State, t: Tid)
    requires Reachable(s) && s.m.panic.None? && t in s.pc && HasToken(s.pc[t])
    ensures GetsOn(s, t)
  {
    NoThreadStuck(s, t);
  }

  /**
    Without reaping, deaths, failed scale-ups and Close: when a Run waits, all Max holders are registered, and each one
    is held or being built by another thread that can move, or only waits for the unlock of one that can.
   */
  lemma WaitersAreServed(s: State, t: Tid)
    requires Reachable(s) && s.m.panic.None? && NoLoss(s.m) && WaitsForIdle(s, t)
    ensures |s.m.all| == s.m.cfg.max
    ensures forall h :: h in s.m.all ==> exists u :: u in s.pc && u != t && Holds(s.pc[u], h) && GetsOn(s, u)
  {
    ReachableInv(s);
    assert Counted(s.m, s.pc[t]);
    forall h | h in s.m.all ensures exists u :: u in s.pc && u != t && Holds(s.pc[u], h) && GetsOn(s, u) {
      assert Due(s.m, Hold(h));
      var u :| u in s.pc && Bears(s.pc[u], Hold(h));
      KeeperGetsOn(s, u);
      assert Holds(s.pc[u], h);
    }
  }

  /** t waits for the reaper to close reaperDone. */
  predicate WaitsForReaper(s: State, t: Tid) {
    t in s.pc && s.pc[t] == In(AwaitingReaper) && !s.m.done
  }

  /**
    The pool as a whole: nobody but the reaper can move except by cancellation exactly when everybody else is a Run
    waiting on an empty idle, or the closer waiting for the reaper. Waiters.WaiterServedIff says when a single waiter
    has nothing to hope for.
   */
  lemma StuckIff(s: State)
    requires Reachable(s) && s.m.panic.None?
    ensures (forall t :: t != REAPER ==> !CanMove(s, t)) <==>
            (forall t :: t in s.pc && t != REAPER ==> WaitsForIdle(s, t) || WaitsForReaper(s, t))
  {
    if forall t :: t != REAPER ==> !CanMove(s, t) {
      forall t | t in s.pc && t != REAPER ensures WaitsForIdle(s, t) || WaitsForReaper(s, t) {
        BlockedFor(s, t);
      }
    }
  }

  lemma BlockedFor(s: State, t: Tid)
    requires Reachable(s) && s.m.panic.None? && t in s.pc && !CanMove(s, t)
    requires forall u :: u != REAPER ==> !CanMove(s, u)
    ensures WaitsForIdle(s, t) || WaitsForReaper(s, t)
  {
    NoThreadStuck(s, t);
    if !WaitsForIdle(s, t) {
      var u :| WaitsOn(s, t, u) && CanMove(s, u);
      ReachableInv(s);
      assert RoleOk(s.m, u, s.pc[u]);
      assert s.pc[t] == In(AwaitingReaper);
      assert s.m.done ==> Enabled(s, Go(t, AwaitReaper));
    }
  }

  /**
    Where no reaper runs, or no longer: nothing can move except by cancellation exactly when every thread still there
    waits on an empty idle. Then no holder is left in circulation; they were lost to deaths, failed scale-ups, the reaper
    or Close.
   */
  lemma StuckForGood(s: State)
    requires Reachable(s) && s.m.panic.None?
    ensures (forall t :: !CanMove(s, t)) <==> (forall t :: t in s.pc ==> WaitsForIdle(s, t))
    ensures (forall t :: !CanMove(s, t)) && s.pc != map[] ==>
      !NoLoss(s.m) && forall h :: !Circulates(s, h)
  {
    if forall t :: !CanMove(s, t) {
      forall t | t in s.pc ensures WaitsForIdle(s, t) {
        NoThreadStuck(s, t);
      }
      if s.pc != map[] {
        var t := Pick(s.pc.Keys);
        if NoLoss(s.m) {
          WaitersAreServed(s, t);
          var h := Pick(s.m.all);
        }
      }
    }
  }

  /**
    The floor: from NewPool's success until Close, the registered holders together with those lost to deaths and to
    failed scale-ups are at least Min, and one more while the reaper is between its count and its drop.
   */
  lemma MinFloor(s: State)
    requires Reachable(s) && s.m.published && !s.m.closed
    ensures |s.m.all| + s.m.log.deaths + s.m.log.failed >= s.m.cfg.min
    ensures REAPER in s.pc && (s.pc[REAPER].Taking? || (s.pc[REAPER].Has? && s.pc[REAPER].w.Dropping?)) ==>
      |s.m.all| + s.m.log.deaths + s.m.log.failed > s.m.cfg.min
    ensures s.m.log.deaths == 0 && s.m.log.failed == 0 ==> |s.m.all| >= s.m.cfg.min
  {
    ReachableInv(s);
    if REAPER in s.pc {
      assert Counted(s.m, s.pc[REAPER]) && RoleOk(s.m, REAPER, s.pc[REAPER]);
    }
  }

  /** e drops a holder that is still registered, or is a scale-up that fails. */
  predicate TakesAway(s: State, e: Step)
    requires Enabled(s, e)
  {
    && e.Go? && s.pc[e.t].Has? && s.pc[e.t].h in s.m.all
    && (e.a.DropLocked? || e.a == Build(false) || (e.a.ReleaseLocked? && s.m.closed))
  }

  lemma AllStays(m: Mem, p: Pc, a: Action)
    requires Ready(m, p, a) && !a.Snapshot? && !a.DropLocked? && !a.ReleaseLocked? && a != Build(false)
    ensures m.all <= Region(m, p, a).m.all
  {
    match a
    case TryIdle | ReserveSlot(_) | Build(_) | WaitIdle | Cancel | Begin | Finish | Check(_) | Unlock | Stamp | ReleaseLocked
      | Push | DropLocked | CloseImpl | ReapTick | ReapStop | ReapCount | ReapTake | ReapPutBack | ReapExit | MarkClosed
      | StopReaper | AwaitReaper | Snapshot | Drain | TearDown(_) | CloseReturn | Create(_, _) | Enqueue | Publish =>
  }

  lemma LiveAfter(m: Mem, t: Tid, p: Pc, a: Action)
    requires Before(m, t, p, a) && !a.Snapshot?
    ensures var all := Region(m, p, a).m.all;
      if p.Has? && p.h in m.all && (a.DropLocked? || a == Build(false) || (a.ReleaseLocked? && m.closed))
      then |all| == |m.all| - 1 else m.all <= all
  {
    hide RoleOk, Guarded, Counted, Unknown, Floor, IdleOk, Carries;
    hide Region;
    if a == Build(false) {
      DispatchAcquire(m, p, a);
    } else if a.DropLocked? || a.ReleaseLocked? {
      DispatchRelease(m, p, a);
    } else {
      AllStays(m, p, a);
    }
  }

  /**
    The exact way below Min: a step takes an open pool from at least Min registered holders to fewer exactly if it
    drops a registered holder, or fails a scale-up, while there are just Min of them. drop does not look.
   */
  lemma BelowMinIff(s: State, e: Step)
    requires Reachable(s) && Enabled(s, e) && !s.m.closed && |s.m.all| >= s.m.cfg.min
    ensures |Do(s, e).m.all| < s.m.cfg.min <==> |s.m.all| == s.m.cfg.min && TakesAway(s, e)
  {
    ReachableInv(s);
    if e.Go? {
      StepBefore(s, e.t, e.a);
      assert !e.a.Snapshot?;
      hide Region, Inv;
      LiveAfter(s.m, e.t, s.pc[e.t], e.a);
      if !TakesAway(s, e) {
        SubsetSize(s.m.all, Do(s, e).m.all);
      }
    }
  }
}
