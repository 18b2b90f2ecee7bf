/**
  When an impl that Close has taken into its snapshot can still be closed by release as well, and so a second time: close
  is idempotent by contract.
 */
module SecondClose {
  import opened Protocol
  import opened Invariants
  import opened Ownership
  import opened Shutdown
  import opened Progress
  import opened Interference
  import opened Waiters

  /** The thread at p has h, and not in order to drop it. */
  predicate Uses(p: Pc, h: Id) {
    p.Has? && p.h == h && !p.w.Dropping?
  }

  /** h is idle, or somebody is using it. */
  ghost predicate StillAround(s: State, h: Id) {
    h in s.m.idle || exists t :: t in s.pc && Uses(s.pc[t], h)
  }

  /** Some continuation has release close h. */
  ghost predicate CanRelease(s: State, h: Id) {
    exists es, u :: Steps(s, es, u) && h in u.m.heap && u.m.heap[h].ownerCloses == 1
  }

  lemma ReleaseAfter(s: State, e: Step, h: Id)
    requires Enabled(s, e) && CanRelease(Do(s, e), h)
    ensures CanRelease(s, h)
  {
    var es, u :| Steps(Do(s, e), es, u) && h in u.m.heap && u.m.heap[h].ownerCloses == 1;
    OneStep(s, e);
    StepsAppend(s, [e], Do(s, e), es, u);
  }

  // ----- A holder that is still around

  /** The regions of a Run with its holder, up to the close, in a pool whose Close has its snapshot. */
  function Remaining(p: Pc): nat {
    if p.Has? && p.w.Closing? then 1 else 1 + Rank(p)
  }

  predicate OnItsWay(p: Pc) {
    p.Has? && !p.w.Pushing? && !p.w.PuttingBack? && !p.w.Enqueuing? && !p.w.Dropping? && !p.w.Closing?
  }

  lemma Onward(m: Mem, t: Tid, p: Pc)
    requires Local(m, t, p) && m.panic.None? && m.closed && OnItsWay(p) && Ready(m, p, Forward(m, p, 0))
    ensures var r := Region(m, p, Forward(m, p, 0));
      && r.m.panic.None? && r.m.closed && r.p.Some? && r.p.value.Has? && r.p.value.h == p.h
      && (OnItsWay(r.p.value) || r.p.value.w.Closing?) && Remaining(r.p.value) < Remaining(p)
  {
    hide RoleOk, Guarded, Counted;
  }

  lemma LastClose(m: Mem, p: Pc)
    requires Carries(m, p) && m.panic.None? && p.Has? && p.w.Closing?
    ensures Ready(m, p, CloseImpl)
    ensures var u := Region(m, p, CloseImpl).m; p.h in u.heap && u.heap[p.h].ownerCloses == 1
  {
  }

  /** The Run of t goes on to the close of its holder. */
  lemma {:induction false} ReleaseByRun(s: State, t: Tid)
    requires Reachable(s) && s.m.panic.None? && s.m.closed
    requires t in s.pc && (OnItsWay(s.pc[t]) || (s.pc[t].Has? && s.pc[t].w.Closing?))
    ensures CanRelease(s, s.pc[t].h)
    decreases Remaining(s.pc[t]), MayBlock(s.m, s.pc[t])
  {
    var p := s.pc[t];
    ReachableInv(s);
    assert Local(s.m, t, p);
    if p.w.Closing? {
      LastClose(s.m, p);
      OneStep(s, Go(t, CloseImpl));
    } else {
      var e;
      if MayBlock(s.m, p) {
        var z := LockOwner(s, t);
        e := Go(z, Unlock);
        hide Inv, Region, Local;
        UnlockOnly(s.m, s.pc[z]);
      } else {
        NextReady(s, t);
        e := Go(t, Forward(s.m, p, 0));
        hide Inv, Region, Forward, Local;
        Onward(s.m, t, p);
      }
      ReachableStep(s, e);
      ReleaseByRun(Do(s, e), t);
      ReleaseAfter(s, e, p.h);
    }
  }

  /** New Runs take the idle holders one after the other, the last one h. */
  lemma {:induction false} ReleaseFromIdle(s: State, k: nat)
    requires Reachable(s) && s.m.panic.None? && s.m.closed && s.m.published && k < |s.m.idle|
    ensures CanRelease(s, s.m.idle[k])
    decreases k
  {
    var t := FreshTid(s.pc);
    var e := CallRun(t);
    ReachableStep(s, e);
    var s1 := Do(s, e);
    var f := Go(t, TryIdle);
    ReachableStep(s1, f);
    var s2 := Do(s1, f);
    if k == 0 {
      ReleaseByRun(s2, t);
    } else {
      ReleaseFromIdle(s2, k - 1);
    }
    ReleaseAfter(s1, f, s.m.idle[k]);
    ReleaseAfter(s, e, s.m.idle[k]);
  }

  lemma ReleaseAfterPush(s: State, t: Tid)
    requires Reachable(s) && s.m.panic.None? && s.m.closed && s.m.published
    requires t in s.pc && s.pc[t].Has? && s.pc[t].w.Pushing?
    ensures CanRelease(s, s.pc[t].h)
  {
    SendsNeverBlock(s, t);
    var e := Go(t, Push);
    ReachableStep(s, e);
    ReleaseFromIdle(Do(s, e), |s.m.idle|);
    ReleaseAfter(s, e, s.pc[t].h);
  }

  // ----- A holder that is not

  /** A holder comes into use only from idle, from its user, or by being made. */
  lemma UsesFrom(m: Mem, p: Pc, a: Action, h: Id)
    requires Ready(m, p, a) && h in m.heap && m.log.snap.Some? && m.all == {} && Guarded(m, p)
    ensures var r := Region(m, p, a);
      r.m.log.snap == m.log.snap && (r.p.Some? && Uses(r.p.value, h) ==> Uses(p, h) || h in m.idle)
  {
    match a
    case TryIdle | ReserveSlot(_) | Build(_) | WaitIdle | Cancel | Begin | Finish | Check(_) | Unlock | Stamp | ReleaseLocked
      | Push | DropLocked | CloseImpl | ReapTick | ReapStop | ReapCount | ReapTake | ReapPutBack | ReapExit | MarkClosed
      | StopReaper | AwaitReaper | Snapshot | Drain | TearDown(_) | CloseReturn | Create(_, _) | Enqueue | Publish =>
  }

  lemma NotClosedBy(m: Mem, p: Pc, a: Action, h: Id)
    requires Ready(m, p, a) && h in m.heap && !Uses(p, h)
    ensures var u := Region(m, p, a).m; h in u.heap && u.heap[h].ownerCloses == m.heap[h].ownerCloses
  {
    if a.TearDown? || !(p.Has? || p.Unlocking?) || p.h != h {
      hide Region, Ready;
      if a.TearDown? {
        TearDownCounts(m, p, a, h);
      } else {
        HolderElsewhere(m, p, a, h);
      }
    } else if a.Unlock? {
      hide Region;
      OwnUnlocked(m, p, a);
    } else {
      hide Region;
      HoldersUntouched(m, p, a);
    }
  }

  lemma GoneRegion(m: Mem, t: Tid, p: Pc, a: Action, h: Id)
    requires Before(m, t, p, a) && m.log.snap.Some? && h in m.heap && m.heap[h].ownerCloses == 0
    requires h !in m.idle && !Uses(p, h)
    ensures var r := Region(m, p, a);
      && r.m.log.snap == m.log.snap && h in r.m.heap && r.m.heap[h].ownerCloses == 0 && h !in r.m.idle
      && (r.p.Some? ==> !Uses(r.p.value, h))
  {
    hide Region, RoleOk, Counted, Carries, IdleOk, Guarded;
    UsesFrom(m, p, a, h);
    NotClosedBy(m, p, a, h);
    IdleMoves(m, p, a);
    if p.Has? && p.h == h {
      DropSendsNothing(m, p, a);
    }
  }

  lemma DropSendsNothing(m: Mem, p: Pc, a: Action)
    requires Ready(m, p, a) && p.Has? && p.w.Dropping?
    ensures Region(m, p, a).m.idle == m.idle
  {
  }

  ghost predicate Gone(s: State, h: Id) {
    && s.m.log.snap.Some? && h in s.m.log.snap.value && h in s.m.heap && s.m.heap[h].ownerCloses == 0
    && !StillAround(s, h)
  }

  lemma {:induction false} GoneForever(s: State, es: seq<Step>, u: State, h: Id)
    requires Inv(s) && Gone(s, h) && Steps(s, es, u)
    ensures Gone(u, h)
    decreases |es|
  {
    if es != [] {
      var e := es[0];
      InvStep(s, e);
      if e.Go? {
        hide Region, Inv;
        StepBefore(s, e.t, e.a);
        GoneRegion(s.m, e.t, s.pc[e.t], e.a, h);
      }
      assert Gone(Do(s, e), h);
      GoneForever(Do(s, e), es[1..], u, h);
    }
  }

  /**
    After the snapshot, release can still close a holder of it, closed by Close or not, exactly if the holder is idle or
    somebody has it and is not dropping it. (NewPool's own Close has no Runs beside it: see NewPoolFails.)
   */
  lemma SecondCloseIff(s: State, h: Id)
    requires Reachable(s) && s.m.panic.None? && s.m.published
    requires s.m.log.snap.Some? && h in s.m.log.snap.value && h in s.m.heap && s.m.heap[h].ownerCloses == 0
    ensures CanRelease(s, h) <==> StillAround(s, h)
  {
    ReachableInv(s);
    if h in s.m.idle {
      var k :| 0 <= k < |s.m.idle| && s.m.idle[k] == h;
      ReleaseFromIdle(s, k);
    } else if t :| t in s.pc && Uses(s.pc[t], h) {
      assert Local(s.m, t, s.pc[t]);
      if s.pc[t].w.Pushing? {
        ReleaseAfterPush(s, t);
      } else {
        ReleaseByRun(s, t);
      }
    } else {
      forall es, u | Steps(s, es, u) ensures h in u.m.heap && u.m.heap[h].ownerCloses == 0 {
        GoneForever(s, es, u, h);
      }
    }
  }
}
