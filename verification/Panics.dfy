/** The one panic of the protocol: Close's teardown loop reaches a holder that has no impl. When it can still happen. */
module Panics {
  import opened Protocol
  import opened Invariants
  import opened Ownership
  import opened Shutdown
  import opened Interference

  /**
    Whether Close may meet a nil impl, as can be looked up from the moment closed is set: before the snapshot, some acquire
    is building a holder; afterwards, some holder of the snapshot that Close has not reached has no impl.
   */
  ghost predicate NilAhead(s: State) {
    match s.m.log.snap
    case None => exists x :: x in s.pc && IsBuilding(s.pc[x])
    case Some(snap) => exists h :: h in snap - s.m.log.torn && h in s.m.heap && !s.m.heap[h].built
  }

  ghost predicate CanPanic(s: State) {
    exists es, u :: Steps(s, es, u) && u.m.panic.Some?
  }

  lemma PanicAfter(s: State, es: seq<Step>, u: State)
    requires Steps(s, es, u) && CanPanic(u)
    ensures CanPanic(s)
  {
    var fs, v :| Steps(u, fs, v) && v.m.panic.Some?;
    StepsAppend(s, es, u, fs, v);
  }

  // ----- Without a nil impl ahead

  /** Close can only meet holders that have an impl. */
  ghost predicate AllBuilt(s: State) {
    && s.m.closed && s.m.panic.None?
    && (forall t :: t in s.pc ==> !IsBuilding(s.pc[t]))
    && (forall h :: h in s.m.all || (s.m.log.snap.Some? && h in s.m.log.snap.value) ==> h in s.m.heap && s.m.heap[h].built)
  }

  lemma BuiltRegion(m: Mem, t: Tid, p: Pc, a: Action, h: Id)
    requires Before(m, t, p, a) && m.closed && !IsBuilding(p)
    ensures var r := Region(m, p, a);
      && r.m.closed && (r.p.Some? ==> !IsBuilding(r.p.value))
      && (h in r.m.all ==> h in m.all)
      && (r.m.log.snap.Some? && h in r.m.log.snap.value ==> h in m.all || (m.log.snap.Some? && h in m.log.snap.value))
  {
    hide Counted, Unknown, Floor, IdleOk, Carries;
    match a
    case TryIdle | ReserveSlot(_) | Build(_) | WaitIdle | Cancel | Begin | Finish | Check(_) | Unlock | Stamp | ReleaseLocked
      | Push | DropLocked | CloseImpl | ReapTick | ReapStop | ReapCount | ReapTake | ReapPutBack | ReapExit | MarkClosed
      | StopReaper | AwaitReaper | Snapshot | Drain | TearDown(_) | CloseReturn | Create(_, _) | Enqueue | Publish =>
  }

  lemma AllBuiltStep(s: State, e: Step)
    requires Inv(s) && Enabled(s, e) && AllBuilt(s)
    ensures AllBuilt(Do(s, e))
  {
    if e.Go? {
      var t, p := e.t, s.pc[e.t];
      var u := Do(s, e);
      StepBefore(s, t, e.a);
      if e.a.TearDown? {
        assert Guarded(s.m, p);
      }
      hide Region, Inv;
      CrashesOnlyTearingDown(s.m, t, p, e.a);
      BuiltRegion(s.m, t, p, e.a, 0);
      forall h | h in u.m.all || (u.m.log.snap.Some? && h in u.m.log.snap.value)
        ensures h in u.m.heap && u.m.heap[h].built
      {
        BuiltRegion(s.m, t, p, e.a, h);
        HolderContinues(s.m, p, e.a, h);
      }
    }
  }

  lemma {:induction false} AllBuiltSteps(s: State, es: seq<Step>, u: State)
    requires Inv(s) && AllBuilt(s) && Steps(s, es, u)
    ensures u.m.panic.None?
    decreases |es|
  {
    if es != [] {
      InvStep(s, es[0]);
      AllBuiltStep(s, es[0]);
      hide Inv, Do;
      AllBuiltSteps(Do(s, es[0]), es[1..], u);
    }
  }

  /** The closer can drain idle without being interrupted. */
  lemma {:induction false} DrainAll(s: State, t: Tid) returns (es: seq<Step>, u: State)
    requires s.m.panic.None? && t in s.pc && s.pc[t].In? && s.pc[t].c.Draining?
    ensures Steps(s, es, u) && u.m.panic.None? && u.m.heap == s.m.heap
    ensures u.pc == s.pc[t := In(TearingDown(s.pc[t].c.rest))]
    decreases |s.m.idle|
  {
    var e := Go(t, Drain);
    u := Do(s, e);
    OneStep(s, e);
    if s.m.idle == [] {
      es := [e];
    } else {
      var fs, v := DrainAll(u, t);
      StepsAppend(s, [e], u, fs, v);
      assert u.pc == s.pc;
      es, u := [e] + fs, v;
    }
  }

  lemma NothingNil(s: State)
    requires Reachable(s) && s.m.panic.None? && s.m.closed && !NilAhead(s)
    ensures AllBuilt(s)
  {
    ReachableInv(s);
    if s.m.log.snap.None? {
      RegisteredBuilt(s);
    } else {
      forall h | h in s.m.log.snap.value ensures h in s.m.heap && s.m.heap[h].built {
        assert HolderOk(s.m, h);
      }
      forall t | t in s.pc ensures !IsBuilding(s.pc[t]) {
        assert Carries(s.m, s.pc[t]);
      }
    }
  }

  // ----- With one

  /** A thread in Close that is past the snapshot goes on alone until it reaches h. */
  lemma ReachNil(s: State, t: Tid, h: Id)
    requires Reachable(s) && s.m.panic.None? && t in s.pc && s.pc[t].In? && (s.pc[t].c.Draining? || s.pc[t].c.TearingDown?)
    requires h in s.pc[t].c.rest && h in s.m.heap && !s.m.heap[h].built
    ensures CanPanic(s)
  {
    var last := Go(t, TearDown(h));
    if s.pc[t].c.Draining? {
      var es, u := DrainAll(s, t);
      OneStep(u, last);
      PanicAfter(u, [last], Do(u, last)) by {
        assert Steps(Do(u, last), [], Do(u, last));
      }
      PanicAfter(s, es, u);
    } else {
      OneStep(s, last);
      assert Steps(s, [last], Do(s, last));
    }
  }

  /** The reaper's next region once it has been told to stop. */
  function WayOut(p: Pc): Action {
    if p.Sleeping? then ReapStop else if p.Counting? then ReapCount else if p.Taking? then ReapTake
    else if p.Exiting? then ReapExit else if p.Has? && p.w.PuttingBack? then ReapPutBack
    else if p.Has? && p.w.Dropping? then DropLocked else CloseImpl
  }

  lemma WayOutReady(s: State)
    requires Inv(s) && s.m.stop && REAPER in s.pc
    ensures Ready(s.m, s.pc[REAPER], WayOut(s.pc[REAPER])) && OfReaper(s.pc[REAPER])
  {
    var p := s.pc[REAPER];
    assert Local(s.m, REAPER, p);
    if HasToken(p) {
      RoomToSend(s, REAPER);
    }
    if |s.m.idle| > 0 {
      assert HolderOk(s.m, s.m.idle[0]);
    }
  }

  lemma WayOutShorter(m: Mem, p: Pc)
    requires Local(m, REAPER, p) && OfReaper(p) && m.stop && m.panic.None? && m.log.snap.None? && Ready(m, p, WayOut(p))
    ensures var r := Region(m, p, WayOut(p));
      && r.m.panic.None? && r.m.stop && r.m.closed == m.closed && r.m.log.snap.None?
      && (r.p.None? ==> r.m.done)
      && (r.p.Some? ==> OfReaper(r.p.value) && (|r.m.all| < |m.all| || (|r.m.all| == |m.all| && ToGo(r.p.value) < ToGo(p))))
  {
    hide Guarded, Counted;
    if p.Has? && p.w.Dropping? {
      assert |m.all - {p.h}| < |m.all|;
    }
  }

  /** How far a closer is from its snapshot. */
  function Ahead(c: ClosePc): nat {
    match c
    case StoppingReaper => 2
    case AwaitingReaper => 1
    case _ => 0
  }

  function ReaperToGo(s: State): nat {
    if REAPER in s.pc then ToGo(s.pc[REAPER]) + 1 else 0
  }

  /** The next step towards the snapshot of the closer t: its own, or one of the reaper it waits for. */
  lemma TowardsSnapshot(s: State, t: Tid, x: Tid) returns (e: Step)
    requires Reachable(s) && s.m.panic.None? && s.m.log.snap.None?
    requires t in s.pc && s.pc[t].In? && Ahead(s.pc[t].c) > 0 && x in s.pc && IsBuilding(s.pc[x])
    ensures Enabled(s, e)
    ensures var u := Do(s, e);
      && u.m.panic.None? && u.m.log.snap.None? && x in u.pc && u.pc[x] == s.pc[x] && t in u.pc && u.pc[t].In?
      && (Ahead(u.pc[t].c) < Ahead(s.pc[t].c)
          || (u.pc[t] == s.pc[t]
              && (|u.m.all| < |s.m.all| || (|u.m.all| == |s.m.all| && ReaperToGo(u) < ReaperToGo(s)))))
  {
    ReachableInv(s);
    assert Local(s.m, t, s.pc[t]) && Local(s.m, x, s.pc[x]);
    if s.pc[t].c.StoppingReaper? {
      e := Go(t, StopReaper);
    } else if s.m.done {
      e := Go(t, AwaitReaper);
    } else {
      assert Local(s.m, REAPER, s.pc[REAPER]);
      WayOutReady(s);
      e := Go(REAPER, WayOut(s.pc[REAPER]));
      hide Inv, Region, WayOut, Local;
      WayOutShorter(s.m, s.pc[REAPER]);
    }
  }

  /** While x is building, the reaper finishes, the closer t takes its snapshot, and reaches the holder of x. */
  lemma {:induction false} ReachBuilding(s: State, t: Tid, x: Tid)
    requires Reachable(s) && s.m.panic.None? && t in s.pc && s.pc[t].In? && s.m.log.snap.None?
    requires x in s.pc && IsBuilding(s.pc[x])
    ensures CanPanic(s)
    decreases Ahead(s.pc[t].c), |s.m.all|, ReaperToGo(s)
  {
    if Ahead(s.pc[t].c) > 0 {
      var e := TowardsSnapshot(s, t, x);
      ReachableStep(s, e);
      OneStep(s, e);
      hide Do;
      ReachBuilding(Do(s, e), t, x);
      PanicAfter(s, [e], Do(s, e));
    } else {
      ReachableInv(s);
      assert Local(s.m, t, s.pc[t]) && Local(s.m, x, s.pc[x]);
      var e := Go(t, Snapshot);
      ReachableStep(s, e);
      OneStep(s, e);
      ReachNil(Do(s, e), t, s.pc[x].h);
      PanicAfter(s, [e], Do(s, e));
    }
  }

  /**
    From the moment closed is set the process can go on to panic exactly if there is a nil impl ahead of Close: while it
    has no snapshot, one that some acquire is building; later, one left in the unreached part of the snapshot.
   */
  lemma ClosePanicIff(s: State)
    requires Reachable(s) && s.m.panic.None? && s.m.closed
    ensures CanPanic(s) <==> NilAhead(s)
  {
    ReachableInv(s);
    if !NilAhead(s) {
      NothingNil(s);
      forall es, u | Steps(s, es, u) ensures u.m.panic.None? {
        AllBuiltSteps(s, es, u);
      }
    } else if s.m.log.snap.None? {
      assert Due(s.m, ReachSnapshot);
      var t :| t in s.pc && Bears(s.pc[t], ReachSnapshot);
      var x :| x in s.pc && IsBuilding(s.pc[x]);
      ReachBuilding(s, t, x);
    } else {
      var h :| h in s.m.log.snap.value - s.m.log.torn && h in s.m.heap && !s.m.heap[h].built;
      assert Due(s.m, TearRest);
      var t :| t in s.pc && Bears(s.pc[t], TearRest);
      assert Guarded(s.m, s.pc[t]);
      ReachNil(s, t, h);
    }
  }
}
