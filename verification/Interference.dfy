/** What the other goroutines can and cannot do to a thread between two of its own atomic regions. */
module Interference {
  import opened Wrappers
  import opened Protocol
  import opened Invariants
  import opened Ownership
  import opened Reaping
  import opened Construction

  /** The thread a step belongs to; the clock moves by itself. */
  function Actor(e: Step): Option<Tid> {
    match e
    case Tick => None
    case CallRun(t) => Some(t)
    case CallClose(t) => Some(t)
    case Go(t, _) => Some(t)
  }

  ghost predicate ByOthers(es: seq<Step>, me: Tid) {
    forall e :: e in es ==> Actor(e) != Some(me)
  }

  /** u is s after any number of steps of other threads and of the clock. */
  ghost predicate Meanwhile(s: State, me: Tid, u: State) {
    exists es :: ByOthers(es, me) && Steps(s, es, u)
  }

  /** e is possible now, is not one of me's, and does not end the process. */
  predicate Playable(s: State, e: Step, me: Tid) {
    Enabled(s, e) && Actor(e) != Some(me) && Do(s, e).m.panic.None?
  }

  /** The others take these steps one after the other, as far as they can. */
  function Play(s: State, es: seq<Step>, me: Tid): State
    decreases |es|
  {
    if es == [] then s else Play(if Playable(s, es[0], me) then Do(s, es[0]) else s, es[1..], me)
  }

  /** h as its owner sees it: everything but how often Close has closed it. */
  function Owned(m: Mem, h: Id): Holder
    requires h in m.heap
  {
    m.heap[h].(teardowns := 0)
  }

  lemma OwnedUntouched(m: Mem, p: Pc, a: Action, h: Id)
    requires Ready(m, p, a) && h in m.heap && (p.Has? || p.Unlocking? ==> p.h != h)
    ensures var u := Region(m, p, a).m; h in u.heap && Owned(u, h) == Owned(m, h)
  {
    hide Region, Ready;
    if a.TearDown? {
      TearDownCounts(m, p, a, h);
    } else {
      HolderElsewhere(m, p, a, h);
    }
  }

  /** The holder me has locked is its own: no other thread's step changes anything about it except Close's count. */
  lemma MineUntouched(s: State, e: Step, me: Tid)
    requires Inv(s) && Enabled(s, e) && Actor(e) != Some(me)
    requires me in s.pc && s.pc[me].Has? && Locks(s.pc[me])
    ensures var u := Do(s, e);
      && me in u.pc && u.pc[me] == s.pc[me]
      && s.pc[me].h in s.m.heap && s.pc[me].h in u.m.heap && Owned(u.m, s.pc[me].h) == Owned(s.m, s.pc[me].h)
  {
    assert Carries(s.m, s.pc[me]);
    if e.Go? {
      assert Apart(s.pc[me], s.pc[e.t]);
      assert s.pc[e.t].Unlocking? ==> Locks(s.pc[e.t]);
      hide Region, Inv, Carries;
      OwnedUntouched(s.m, s.pc[e.t], e.a, s.pc[me].h);
    }
  }

  lemma StandsStill(s: State, e: Step, me: Tid)
    requires Enabled(s, e) && Actor(e) != Some(me) && me in s.pc
    ensures me in Do(s, e).pc && Do(s, e).pc[me] == s.pc[me]
  {
    hide Region, Ready;
  }

  lemma {:induction false} OthersKeep(s: State, es: seq<Step>, u: State, me: Tid)
    requires Inv(s) && ByOthers(es, me) && Steps(s, es, u) && me in s.pc
    ensures Inv(u) && me in u.pc && u.pc[me] == s.pc[me]
    ensures s.pc[me].Has? && Locks(s.pc[me]) ==>
      s.pc[me].h in s.m.heap && s.pc[me].h in u.m.heap && Owned(u.m, s.pc[me].h) == Owned(s.m, s.pc[me].h)
    decreases |es|
  {
    if es == [] {
      assert Carries(s.m, s.pc[me]);
    } else {
      InvStep(s, es[0]);
      StandsStill(s, es[0], me);
      if s.pc[me].Has? && Locks(s.pc[me]) {
        MineUntouched(s, es[0], me);
      }
      hide Inv, Owned;
      OthersKeep(Do(s, es[0]), es[1..], u, me);
    }
  }

  lemma MeanwhileLeads(s: State, me: Tid, u: State)
    requires Meanwhile(s, me, u)
    ensures Leads(s, u)
  {
    var es :| ByOthers(es, me) && Steps(s, es, u);
  }

  lemma MeanwhileRefl(s: State, me: Tid)
    ensures Meanwhile(s, me, s)
  {
    assert ByOthers([], me) && Steps(s, [], s);
  }

  lemma MeanwhileStep(s: State, me: Tid, u: State, e: Step)
    requires Meanwhile(s, me, u) && Enabled(u, e) && Actor(e) != Some(me)
    ensures Meanwhile(s, me, Do(u, e))
  {
    var es :| ByOthers(es, me) && Steps(s, es, u);
    OneStep(u, e);
    StepsAppend(s, es, u, [e], Do(u, e));
    assert ByOthers(es + [e], me);
  }

  lemma MeanwhileKeeps(s: State, me: Tid, u: State)
    requires Inv(s) && Meanwhile(s, me, u) && me in s.pc
    ensures Inv(u) && me in u.pc && u.pc[me] == s.pc[me]
    ensures s.pc[me].Has? && Locks(s.pc[me]) ==>
      s.pc[me].h in s.m.heap && s.pc[me].h in u.m.heap && Owned(u.m, s.pc[me].h) == Owned(s.m, s.pc[me].h)
  {
    var es :| ByOthers(es, me) && Steps(s, es, u);
    OthersKeep(s, es, u, me);
  }

  /** Reachability is kept along Leads, and so is the invariant. */
  lemma {:induction false} LeadsKeeps(s: State, u: State)
    requires Reachable(s) && Leads(s, u)
    ensures Reachable(u) && Inv(u) && u.m.cfg == s.m.cfg
  {
    var es :| Steps(s, es, u);
    CfgSteps(s, es, u);
    LeadsTrans(Init(s.m.cfg), s, u);
    ReachableInv(u);
  }

  lemma {:induction false} CfgSteps(s: State, es: seq<Step>, u: State)
    requires Steps(s, es, u)
    ensures u.m.cfg == s.m.cfg
    decreases |es|
  {
    if es != [] {
      CfgKept(s, es[0]);
      CfgSteps(Do(s, es[0]), es[1..], u);
    }
  }

  /** A region of the thread itself, as a step of the run that began in s0. */
  lemma Advance(s0: State, v: State, e: Step, u: State)
    requires Reachable(v) && Leads(s0, v) && Enabled(v, e) && u == Do(v, e)
    ensures Reachable(u) && Leads(s0, u)
  {
    ReachableStep(v, e);
    OneStep(v, e);
    LeadsTrans(s0, v, u);
  }

  /** The other threads' steps, as part of the run that began in s0. */
  lemma Resume(s0: State, v: State, me: Tid, u: State)
    requires Reachable(v) && Leads(s0, v) && Meanwhile(v, me, u) && me in v.pc
    ensures Reachable(u) && Leads(s0, u)
    ensures v.pc[me].Has? && Locks(v.pc[me]) ==>
      v.pc[me].h in v.m.heap && v.pc[me].h in u.m.heap && Owned(u.m, v.pc[me].h) == Owned(v.m, v.pc[me].h)
  {
    ReachableInv(v);
    MeanwhileKeeps(v, me, u);
    MeanwhileLeads(v, me, u);
    LeadsKeeps(v, u);
    LeadsTrans(s0, v, u);
  }

  /** What a thread knows in any reachable state about the holder it works on, and that a send has room. */
  lemma Mine(s: State, me: Tid)
    requires Reachable(s) && me in s.pc
    ensures Carries(s.m, s.pc[me])
    ensures HasToken(s.pc[me]) ==> |s.m.idle| < s.m.cfg.max
  {
    ReachableInv(s);
    if HasToken(s.pc[me]) {
      RoomToSend(s, me);
    }
  }

  /** What drop may rely on. */
  lemma DropFacts(s: State, me: Tid)
    requires Reachable(s) && me in s.pc && s.pc[me].Has? && s.pc[me].w.Dropping?
    ensures var h := s.pc[me].h;
      && h !in s.m.idle && h in s.m.heap && s.m.heap[h].ownerCloses == 0
      && (h !in s.m.all ==> s.m.log.snap.Some? && h in s.m.log.snap.value)
  {
    Mine(s, me);
  }

  /** The first idle holder is a live one, with an impl, that nobody has closed. */
  lemma Head(s: State)
    requires Reachable(s) && |s.m.idle| > 0
    ensures IdleOk(s.m, s.m.idle[0])
  {
    ReachableInv(s);
    assert HolderOk(s.m, s.m.idle[0]);
  }

  /** While the reaper lives, Close has not taken its snapshot. */
  lemma ReaperAlive(s: State)
    requires Reachable(s) && REAPER in s.pc
    ensures s.m.cfg.Reaps() && !s.m.done && s.m.log.snap.None? && |s.m.all| <= s.m.cfg.max
  {
    ReachableInv(s);
    assert RoleOk(s.m, REAPER, s.pc[REAPER]);
    if s.m.closed {
      forall h | h in s.m.all ensures h in s.m.log.atClose {
        assert HolderOk(s.m, h);
      }
      SubsetSize(s.m.all, s.m.log.atClose);
    }
  }

  lemma StaleLeads(s: State, u: State, now: nat)
    requires Reachable(s) && Leads(s, u) && s.m.cfg.Reaps() && now <= s.m.now
    ensures Stale(u.m, now) <= Stale(s.m, now)
  {
    ReachableInv(s);
    var es :| Steps(s, es, u);
    StaleShrinks(s, es, u, now);
  }

  /** The clock never goes back. */
  lemma {:induction false} ClockSteps(s: State, es: seq<Step>, u: State)
    requires Steps(s, es, u)
    ensures u.m.now >= s.m.now
    decreases |es|
  {
    if es != [] {
      if es[0].Go? {
        ClockKept(s.m, s.pc[es[0].t], es[0].a);
      }
      ClockSteps(Do(s, es[0]), es[1..], u);
    }
  }

  /** While the reaper lives, idle holders are registered ones. */
  lemma IdleRegistered(s: State)
    requires Reachable(s) && REAPER in s.pc
    ensures forall h :: h in s.m.idle ==> h in s.m.all && h in s.m.heap
  {
    ReaperAlive(s);
    OwnershipPartition(s);
    ReachableInv(s);
    forall h | h in s.m.idle ensures h in s.m.all && h in s.m.heap {
      assert HolderOk(s.m, h);
    }
  }

  lemma {:induction false} CallsLead(s: State, es: seq<Step>, u: State, h: Id)
    requires Steps(s, es, u) && h in s.m.heap
    ensures h in u.m.heap && s.m.heap[h].calls <= u.m.heap[h].calls
    decreases |es|
  {
    if es != [] {
      CallsGrow(s, es[0], h);
      CallsLead(Do(s, es[0]), es[1..], u, h);
    }
  }

  lemma StopStays(m: Mem, p: Pc, a: Action)
    requires Ready(m, p, a)
    ensures m.stop ==> Region(m, p, a).m.stop
  {
    match a
    case TryIdle | ReserveSlot(_) | Build(_) | WaitIdle | Cancel | Begin | Finish | Check(_) | Unlock | Stamp | ReleaseLocked
      | Push | DropLocked | CloseImpl | ReapTick | ReapStop | ReapCount | ReapTake | ReapPutBack | ReapExit | MarkClosed
      | StopReaper | AwaitReaper | Snapshot | Drain | TearDown(_) | CloseReturn | Create(_, _) | Enqueue | Publish =>
  }

  lemma {:induction false} StopSteps(s: State, es: seq<Step>, u: State)
    requires Steps(s, es, u) && s.m.stop
    ensures u.m.stop
    decreases |es|
  {
    if es != [] {
      if es[0].Go? {
        StopStays(s.m, s.pc[es[0].t], es[0].a);
      }
      StopSteps(Do(s, es[0]), es[1..], u);
    }
  }

  /** A closed reaperStop stays closed. */
  lemma StopLeads(s: State, u: State)
    requires Leads(s, u)
    ensures s.m.stop ==> u.m.stop
  {
    if s.m.stop {
      var es :| Steps(s, es, u);
      StopSteps(s, es, u);
    }
  }

  /** The clock is monotone. */
  lemma ClockLeads(s: State, u: State)
    requires Leads(s, u)
    ensures u.m.now >= s.m.now
  {
    var es :| Steps(s, es, u);
    ClockSteps(s, es, u);
  }

  lemma Unregistered(s: State, h: Id)
    requires Reachable(s) && h !in s.m.heap
    ensures h !in s.m.all && h !in s.m.idle
  {
    ReachableInv(s);
    assert HolderOk(s.m, h);
  }

  /** A holder's mutex that keeps its new user waiting is held by the previous Run, which has only the unlock left. */
  lemma LockOwner(s: State, me: Tid) returns (u: Tid)
    requires Reachable(s) && me in s.pc && s.pc[me].Has? && s.pc[me].w.Acquired?
    requires s.pc[me].h in s.m.heap && s.m.heap[s.pc[me].h].locked
    ensures u != me && u in s.pc && s.pc[u] == Unlocking(s.pc[me].h)
  {
    ReachableInv(s);
    var h := s.pc[me].h;
    assert Due(s.m, Release(h));
    u :| u in s.pc && Bears(s.pc[u], Release(h));
    assert u != me;
    assert Apart(s.pc[me], s.pc[u]);
  }

  /** A holder found dead stays dead and out of reach. */
  lemma DeadLeads(s: State, u: State, h: Id)
    requires Reachable(s) && Leads(s, u) && h in s.m.heap && s.m.heap[h].dead
    ensures h in u.m.heap && u.m.heap[h].dead && h !in u.m.idle
  {
    ReachableInv(s);
    var es :| Steps(s, es, u);
    DeadForever(s, es, u, h);
  }

  // ----- While a thread is inside Close

  lemma RunnersNeverTear(m: Mem, p: Pc, a: Action)
    requires Ready(m, p, a) && (InTake(a) || InReserve(a) || InBuild(a) || InRun(a) || InCheck(a))
    ensures var l := Region(m, p, a).m.log; l.snap == m.log.snap && l.drained == m.log.drained && l.torn == m.log.torn
  {
    match a
    case TryIdle | WaitIdle | Cancel | ReserveSlot(_) | Build(_) | Begin | Finish | Check(_) =>
    case _ =>
  }

  lemma OnlyCloserTears(m: Mem, p: Pc, a: Action)
    requires Ready(m, p, a) && !InSnapshot(a) && !InTearDown(a)
    ensures var l := Region(m, p, a).m.log; l.snap == m.log.snap && l.drained == m.log.drained && l.torn == m.log.torn
  {
    if InTake(a) || InReserve(a) || InBuild(a) || InRun(a) || InCheck(a) {
      hide Region;
      RunnersNeverTear(m, p, a);
    }
  }

  lemma {:induction false} CloserSteps(s: State, es: seq<Step>, u: State, me: Tid)
    requires Inv(s) && ByOthers(es, me) && Steps(s, es, u) && me in s.pc && s.pc[me].In?
    ensures u.m.log.snap == s.m.log.snap && u.m.log.drained == s.m.log.drained && u.m.log.torn == s.m.log.torn
    decreases |es|
  {
    if es != [] {
      var e := es[0];
      InvStep(s, e);
      StandsStill(s, e, me);
      if e.Go? {
        assert Apart(s.pc[me], s.pc[e.t]) && !s.pc[e.t].In?;
        OnlyCloserTears(s.m, s.pc[e.t], e.a);
      }
      hide Inv, Region;
      CloserSteps(Do(s, e), es[1..], u, me);
    }
  }

  /** Nobody else snapshots, drains or tears down. */
  lemma CloserAlone(s: State, me: Tid, u: State)
    requires Reachable(s) && Meanwhile(s, me, u) && me in s.pc && s.pc[me].In?
    ensures u.m.log.snap == s.m.log.snap && u.m.log.drained == s.m.log.drained && u.m.log.torn == s.m.log.torn
  {
    ReachableInv(s);
    var es :| ByOthers(es, me) && Steps(s, es, u);
    CloserSteps(s, es, u, me);
  }

  /** Close has closed h, exactly once. */
  predicate Torn(m: Mem, h: Id) {
    m.log.snap.Some? && h in m.log.snap.value && h in m.heap && m.heap[h].built && m.heap[h].teardowns == 1
  }

  /** What the closer knows about itself. */
  lemma CloserFacts(s: State, me: Tid)
    requires Reachable(s) && me in s.pc && s.pc[me].In?
    ensures Guarded(s.m, s.pc[me])
    ensures s.m.closed && |s.m.log.atClose| <= s.m.cfg.max
    ensures s.m.log.snap.Some? ==> forall h :: h in s.m.log.snap.value ==> h in s.m.heap && h in s.m.log.atClose
    ensures forall h :: h in s.m.log.torn ==> Torn(s.m, h)
    ensures forall h :: h in s.m.log.drained ==> s.m.log.snap.Some? && h in s.m.log.atClose
    ensures !s.m.done ==> REAPER in s.pc && OfReaper(s.pc[REAPER])
    ensures !s.m.done && s.pc[me].c.AwaitingReaper? ==> s.m.stop
    ensures me != REAPER && (s.m.log.snap.Some? ==> s.m.done)
  {
    ReachableInv(s);
    assert Guarded(s.m, s.pc[me]) && RoleOk(s.m, me, s.pc[me]);
    if !s.m.done {
      assert RoleOk(s.m, REAPER, s.pc[REAPER]);
    }
    if s.m.log.snap.Some? {
      forall h | h in s.m.log.snap.value ensures h in s.m.heap && h in s.m.log.atClose {
        assert HolderOk(s.m, h);
      }
    }
    forall h | h in s.m.log.torn
      ensures Torn(s.m, h)
    {
      assert HolderOk(s.m, h);
    }
    forall h | h in s.m.log.drained ensures s.m.log.snap.Some? && h in s.m.log.atClose {
      assert HolderOk(s.m, h);
    }
  }

  /** If nobody is building, every registered holder has an impl. */
  lemma RegisteredBuilt(s: State)
    requires Reachable(s) && forall x :: x in s.pc ==> !IsBuilding(s.pc[x])
    ensures forall h :: h in s.m.all ==> h in s.m.heap && s.m.heap[h].built
  {
    ReachableInv(s);
    forall h | h in s.m.all ensures h in s.m.heap && s.m.heap[h].built {
      assert HolderOk(s.m, h);
      if h !in s.m.idle {
        assert Due(s.m, Hold(h));
        var y :| y in s.pc && Bears(s.pc[y], Hold(h));
        assert Carries(s.m, s.pc[y]);
      }
    }
  }

  /** As long as NewPool has not returned, every holder has an impl. */
  lemma CtorBuilt(s: State, h: Id)
    requires Reachable(s) && CTOR in s.pc && h in s.m.heap
    ensures s.m.heap[h].built
  {
    ReachableConstruction(s);
    assert RoleOk(s.m, CTOR, s.pc[CTOR]);
    assert Unused(s.m, h);
  }

  lemma CtorUnpublished(s: State)
    requires Reachable(s) && CTOR in s.pc
    ensures !s.m.published
  {
    ReachableInv(s);
    assert RoleOk(s.m, CTOR, s.pc[CTOR]);
  }
}
