/** Close overlapping with everything else: what is closed how often, what is still handed out, when the process panics. */
module Shutdown {
  import opened Protocol
  import opened Invariants
  import opened Ownership

  // ----- How often an impl is closed

  /**
    Before Close takes its snapshot every impl is closed at most once; afterwards at most twice, and twice only if Close
    snapshotted the holder without draining it from idle. What Close drains it had snapshotted.
   */
  lemma CloseCounts(s: State, h: Id)
    requires Reachable(s) && h in s.m.heap
    ensures s.m.log.snap.None? ==> Closes(s.m, h) <= 1
    ensures Closes(s.m, h) <= 2
    ensures Closes(s.m, h) == 2 ==> s.m.log.snap.Some? && h in s.m.log.snap.value && h !in s.m.log.drained
    ensures h in s.m.log.drained ==> s.m.log.snap.Some? && h in s.m.log.snap.value
    ensures !s.m.heap[h].built ==> Closes(s.m, h) == 0
  {
    ReachableInv(s);
    assert HolderOk(s.m, h);
  }

  /** Once Close and all Runs have returned, every impl ever created has been closed, and nothing is registered. */
  lemma NoLeak(s: State)
    requires Reachable(s) && s.m.closed && s.pc == map[]
    ensures forall h :: h in s.m.heap && s.m.heap[h].built ==> Closes(s.m, h) >= 1
    ensures forall h :: h in s.m.heap ==> !s.m.heap[h].locked
    ensures s.m.all == {}
  {
    ReachableInv(s);
    assert forall d :: !Due(s.m, d) by {
      assert forall d :: !Borne(s, d);
    }
    assert !Due(s.m, ReachSnapshot) && !Due(s.m, TearRest);
    forall h | h in s.m.heap
      ensures !s.m.heap[h].locked && (s.m.heap[h].built ==> Closes(s.m, h) >= 1)
    {
      assert h !in s.m.log.snap.value - s.m.log.torn;
      assert HolderOk(s.m, h) && !Due(s.m, CloseOnce(h)) && !Due(s.m, Release(h));
    }
  }

  // ----- What is still handed out after closed was set

  /** After closed is set, the log of handouts records every return of acquire. */
  lemma HandoutsCounted(m: Mem, p: Pc, a: Action)
    requires Ready(m, p, a) && m.closed && m.panic.None?
    ensures var r := Region(m, p, a);
      r.m.panic.Some? || r.m.log.handouts ==
        if r.p.Some? && r.p.value.Has? && r.p.value.w.Acquired? then m.log.handouts + [r.p.value.h] else m.log.handouts
  {
    match a
    case TryIdle | ReserveSlot(_) | Build(_) | WaitIdle | Cancel | Begin | Finish | Check(_) | Unlock | Stamp | ReleaseLocked
      | Push | DropLocked | CloseImpl | ReapTick | ReapStop | ReapCount | ReapTake | ReapPutBack | ReapExit | MarkClosed
      | StopReaper | AwaitReaper | Snapshot | Drain | TearDown(_) | CloseReturn | Create(_, _) | Enqueue | Publish =>
  }

  /** Over all callers and all later time at most Max acquires return a holder, each a different one. */
  lemma BoundedShutdown(s: State)
    requires Reachable(s)
    ensures Distinct(s.m.log.handouts) && |s.m.log.handouts| <= s.m.cfg.max
    ensures forall h :: h in s.m.log.handouts ==> h in s.m.log.atClose
  {
    ReachableInv(s);
    forall h | h in s.m.log.handouts ensures h in s.m.log.atClose {
      assert HolderOk(s.m, h);
    }
    if s.m.closed {
      DistinctSize(s.m.log.handouts, s.m.log.atClose);
    }
  }

  lemma NothingReserved(m: Mem, t: Tid, p: Pc, a: Action)
    requires Ready(m, p, a) && RoleOk(m, t, p) && m.closed
    ensures Region(m, p, a).m.closed && Region(m, p, a).m.heap.Keys == m.heap.Keys
    ensures Region(m, p, a).m.log.atClose == m.log.atClose
  {
    if !WritesHolder(a) {
      HoldersUntouched(m, p, a);
    }
  }

  /** After closed is set no holder is reserved or created any more. */
  lemma {:induction false} ClosedForever(s: State, es: seq<Step>, u: State)
    requires Inv(s) && s.m.closed && Steps(s, es, u)
    ensures u.m.closed && u.m.heap.Keys == s.m.heap.Keys && u.m.log.atClose == s.m.log.atClose
    decreases |es|
  {
    if es != [] {
      InvStep(s, es[0]);
      if es[0].Go? {
        hide Region, Inv;
        StepBefore(s, es[0].t, es[0].a);
        NothingReserved(s.m, es[0].t, s.pc[es[0].t], es[0].a);
      }
      ClosedForever(Do(s, es[0]), es[1..], u);
    }
  }

  /** Closed, and no holder left anywhere acquire could get it from. */
  ghost predicate Quiet(s: State) {
    s.m.closed && s.m.idle == [] && forall t :: t in s.pc ==> !s.pc[t].Has?
  }

  lemma QuietRegion(m: Mem, t: Tid, p: Pc, a: Action)
    requires Before(m, t, p, a) && m.closed && m.idle == [] && !p.Has?
    ensures var r := Region(m, p, a);
      r.m.closed && r.m.idle == [] && r.m.log.handouts == m.log.handouts && (r.p.Some? ==> !r.p.value.Has?)
  {
    hide Guarded, Counted, Unknown, Floor, IdleOk;
  }

  lemma {:induction false} QuietForever(s: State, es: seq<Step>, u: State)
    requires Inv(s) && Quiet(s) && Steps(s, es, u)
    ensures Quiet(u) && u.m.log.handouts == s.m.log.handouts
    decreases |es|
  {
    if es != [] {
      var e := es[0];
      InvStep(s, e);
      if e.Go? {
        hide Region, Inv;
        StepBefore(s, e.t, e.a);
        QuietRegion(s.m, e.t, s.pc[e.t], e.a);
      }
      QuietForever(Do(s, e), es[1..], u);
    }
  }

  lemma FreshTid(pc: map<Tid, Pc>) returns (t: Tid)
    ensures t !in pc && t > REAPER
  {
    t := FreshId(pc.Keys, REAPER + 1);
  }

  lemma {:induction false} FreshId(ids: set<Id>, low: Id) returns (h: Id)
    ensures h !in ids && h >= low
    decreases |ids|
  {
    if low !in ids {
      return low;
    }
    h := FreshId(ids - {low}, low + 1);
  }

  /** Closed, idle empty, and no thread about to send a holder to idle or building one. */
  ghost predicate Spent(s: State) {
    s.m.closed && s.m.idle == [] && forall t :: t in s.pc ==> !Handable(s.pc[t])
  }

  lemma SpentRegion(m: Mem, t: Tid, p: Pc, a: Action)
    requires Before(m, t, p, a) && m.closed && m.idle == [] && !Handable(p)
    ensures var r := Region(m, p, a);
      r.m.closed && r.m.idle == [] && r.m.log.handouts == m.log.handouts && (r.p.Some? ==> !Handable(r.p.value))
  {
    hide Guarded, Counted, Unknown, Floor, IdleOk, Carries, Shared;
    match a
    case TryIdle | ReserveSlot(_) | Build(_) | WaitIdle | Cancel | Begin | Finish | Check(_) | Unlock | Stamp | ReleaseLocked
      | Push | DropLocked | CloseImpl | ReapTick | ReapStop | ReapCount | ReapTake | ReapPutBack | ReapExit | MarkClosed
      | StopReaper | AwaitReaper | Snapshot | Drain | TearDown(_) | CloseReturn | Create(_, _) | Enqueue | Publish =>
  }

  lemma {:induction false} SpentForever(s: State, es: seq<Step>, u: State)
    requires Inv(s) && Spent(s) && Steps(s, es, u)
    ensures Spent(u) && u.m.log.handouts == s.m.log.handouts
    decreases |es|
  {
    if es != [] {
      var e := es[0];
      InvStep(s, e);
      if e.Go? {
        hide Region, Inv;
        StepBefore(s, e.t, e.a);
        SpentRegion(s.m, e.t, s.pc[e.t], e.a);
      }
      SpentForever(Do(s, e), es[1..], u);
    }
  }

  /** A Run called now takes the first idle holder. */
  lemma LateAcquire(s: State) returns (es: seq<Step>, u: State)
    requires s.m.panic.None? && s.m.published && s.m.closed && s.m.idle != []
    ensures Steps(s, es, u) && u.m.log.handouts == s.m.log.handouts + [s.m.idle[0]]
  {
    var t := FreshTid(s.pc);
    var s1 := Do(s, CallRun(t));
    u := Do(s1, Go(t, TryIdle));
    OneStep(s, CallRun(t));
    OneStep(s1, Go(t, TryIdle));
    es := [CallRun(t)] + [Go(t, TryIdle)];
    StepsAppend(s, [CallRun(t)], s1, [Go(t, TryIdle)], u);
  }

  /** The next region of a thread that can still bring a holder into circulation. */
  function Bring(p: Pc): Action
    requires Handable(p)
  {
    if IsBuilding(p) then Build(true) else if p.w.Pushing? then Push else ReapPutBack
  }

  lemma BringsOne(m: Mem, p: Pc)
    requires Handable(p) && Carries(m, p) && |m.idle| < m.cfg.max && m.closed && m.panic.None?
    ensures Ready(m, p, Bring(p))
    ensures var u := Region(m, p, Bring(p)).m;
      && u.panic.None? && u.published == m.published && u.closed
      && if IsBuilding(p) then u.log.handouts == m.log.handouts + [p.h]
         else u.log.handouts == m.log.handouts && u.idle != []
  {
  }

  lemma LateBring(s: State, x: Tid) returns (es: seq<Step>, u: State)
    requires Reachable(s) && s.m.panic.None? && s.m.published && s.m.closed && x in s.pc && Handable(s.pc[x])
    ensures Steps(s, es, u) && |u.m.log.handouts| > |s.m.log.handouts|
  {
    ReachableInv(s);
    RoomToSend(s, x);
    assert Carries(s.m, s.pc[x]);
    hide Inv, Region;
    var e := Go(x, Bring(s.pc[x]));
    BringsOne(s.m, s.pc[x]);
    OneStep(s, e);
    u := Do(s, e);
    es := [e];
    if !IsBuilding(s.pc[x]) {
      var fs, v := LateAcquire(u);
      StepsAppend(s, [e], u, fs, v);
      es, u := [e] + fs, v;
    }
  }

  /**
    A closed pool can still hand out a holder exactly if one is idle, or a thread is about to send one to idle, or
    is still building one.
   */
  lemma LateAcquireIff(s: State)
    requires Reachable(s) && s.m.panic.None? && s.m.published && s.m.closed
    ensures (exists es, u :: Steps(s, es, u) && |u.m.log.handouts| > |s.m.log.handouts|) <==>
            s.m.idle != [] || exists t :: t in s.pc && Handable(s.pc[t])
  {
    if s.m.idle != [] {
      var es, u := LateAcquire(s);
      assert exists es, u :: Steps(s, es, u) && |u.m.log.handouts| > |s.m.log.handouts|;
    } else if x :| x in s.pc && Handable(s.pc[x]) {
      var es, u := LateBring(s, x);
    } else {
      ReachableInv(s);
      forall es, u | Steps(s, es, u) ensures u.m.log.handouts == s.m.log.handouts {
        SpentForever(s, es, u);
      }
    }
  }

  // ----- Close with no Run around

  /** Only Close calls and the reaper are active. */
  ghost predicate NoRuns(s: State) {
    forall t :: t in s.pc ==> OfClose(s.pc[t]) || OfReaper(s.pc[t])
  }

  /** Once the drain loop is over, idle is empty. */
  ghost predicate Drained(s: State) {
    s.m.log.snap.Some? && (forall t :: t in s.pc && s.pc[t].In? ==> !s.pc[t].c.Draining?) ==> s.m.idle == []
  }

  lemma AloneRegion(m: Mem, t: Tid, p: Pc, a: Action)
    requires Before(m, t, p, a) && (OfClose(p) || OfReaper(p))
    ensures var r := Region(m, p, a);
      && (r.p.Some? ==> OfClose(r.p.value) || OfReaper(r.p.value))
      && (m.log.snap.None? && r.m.log.snap.Some? ==> r.p.Some? && r.p.value.In? && r.p.value.c.Draining?)
      && (m.log.snap.Some? && m.idle == [] ==> r.m.idle == [])
      && (p.In? && p.c.Draining? ==> (r.p.Some? && r.p.value == p) || r.m.idle == [])
  {
    hide Counted, Unknown, Floor, IdleOk;
    match a
    case TryIdle | ReserveSlot(_) | Build(_) | WaitIdle | Cancel | Begin | Finish | Check(_) | Unlock | Stamp | ReleaseLocked
      | Push | DropLocked | CloseImpl | ReapTick | ReapStop | ReapCount | ReapTake | ReapPutBack | ReapExit | MarkClosed
      | StopReaper | AwaitReaper | Snapshot | Drain | TearDown(_) | CloseReturn | Create(_, _) | Enqueue | Publish =>
  }

  lemma AloneStep(s: State, e: Step)
    requires Inv(s) && Enabled(s, e) && !e.CallRun? && NoRuns(s) && Drained(s)
    ensures NoRuns(Do(s, e)) && Drained(Do(s, e))
  {
    var u := Do(s, e);
    if e.Go? {
      hide Region, Inv;
      StepBefore(s, e.t, e.a);
      AloneRegion(s.m, e.t, s.pc[e.t], e.a);
    }
    if u.m.log.snap.Some? && u.m.idle != [] {
      if x :| x in s.pc && s.pc[x].In? && s.pc[x].c.Draining? {
        assert x in u.pc && u.pc[x] == s.pc[x];
      } else {
        assert s.m.log.snap.None? && e.Go? && e.t in u.pc;
      }
    }
  }

  lemma {:induction false} AloneSteps(s: State, es: seq<Step>, u: State)
    requires Inv(s) && NoRuns(s) && Drained(s) && Steps(s, es, u)
    requires forall e :: e in es ==> !e.CallRun?
    ensures Inv(u) && NoRuns(u) && Drained(u)
    decreases |es|
  {
    if es != [] {
      InvStep(s, es[0]);
      AloneStep(s, es[0]);
      hide Inv, Do;
      AloneSteps(Do(s, es[0]), es[1..], u);
    }
  }

  /** If no Run overlaps Close, then when Close has returned every later acquire fails and creates nothing. */
  lemma QuietClose(s: State, es: seq<Step>, u: State, fs: seq<Step>, v: State)
    requires Reachable(s) && !s.m.closed && NoRuns(s) && Steps(s, es, u) && forall e :: e in es ==> !e.CallRun?
    requires u.m.log.snap.Some? && forall t :: t in u.pc ==> !u.pc[t].In?
    requires Steps(u, fs, v)
    ensures Quiet(v) && v.m.log.handouts == u.m.log.handouts && v.m.heap.Keys == u.m.heap.Keys
  {
    ReachableInv(s);
    AloneSteps(s, es, u);
    assert Quiet(u) by {
      forall t | t in u.pc ensures !u.pc[t].Has? {
        assert RoleOk(u.m, t, u.pc[t]);
      }
    }
    QuietForever(u, fs, v);
    ClosedForever(u, fs, v);
  }

  // ----- The reaper on its way out

  /** How far the reaper is from closing reaperDone, for a fixed number of registered holders. */
  function ToGo(p: Pc): nat {
    match p
    case Has(_, w) => if w.Closing? then 6 else if w.Dropping? then 3 else 2
    case Counting(_) => 5
    case Taking(_) => 4
    case Sleeping => 1
    case _ => 0
  }
}
