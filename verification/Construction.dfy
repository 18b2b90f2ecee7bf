/** NewPool: all Min holders or none, with the reaper already running. */
module Construction {
  import opened Protocol
  import opened Invariants
  import opened Ownership
  import opened Shutdown

  /** As created: has an impl, never used, never closed by an owner, and registered (or in Close's snapshot). */
  predicate Unused(m: Mem, h: Id) {
    h in m.heap && m.heap[h].built && m.heap[h].calls == [] && m.heap[h].ownerCloses == 0 && Registered(m, h)
  }

  /** Before NewPool succeeds nobody uses a holder, and failing ends in Close. */
  ghost predicate UnderConstruction(s: State) {
    !s.m.published ==>
      && (forall h :: h in s.m.heap ==> Unused(s.m, h))
      && NoUsers(s) && Drained(s)
      && (CTOR !in s.pc ==> s.m.closed)
  }

  /** Only NewPool, possibly in Close, and the reaper between its ticks. */
  ghost predicate NoUsers(s: State) {
    forall t :: t in s.pc ==> OfCtor(s.pc[t]) || OfClose(s.pc[t]) || (OfReaper(s.pc[t]) && !s.pc[t].Has?)
  }

  lemma UnusedRegion(m: Mem, t: Tid, p: Pc, a: Action, h: Id)
    requires Before(m, t, p, a) && !m.published && (h in m.heap ==> Unused(m, h))
    ensures var u := Region(m, p, a).m; !u.published && h in u.heap ==> Unused(u, h)
  {
    hide Counted, Unknown, Floor, IdleOk, Carries;
  }

  lemma FillRegion(m: Mem, t: Tid, p: Pc, a: Action)
    requires Before(m, t, p, a) && !m.published
    ensures var r := Region(m, p, a);
      && (r.p.Some? && !r.m.published ==> OfCtor(r.p.value) || OfClose(r.p.value) || (OfReaper(r.p.value) && !r.p.value.Has?))
      && (t == CTOR && r.p.None? && !r.m.published ==> r.m.closed)
      && (m.closed ==> r.m.closed)
  {
    hide Counted, Unknown, Floor, IdleOk, Carries;
  }

  lemma FillDrains(m: Mem, t: Tid, p: Pc, a: Action)
    requires Before(m, t, p, a) && !m.published
    ensures var r := Region(m, p, a);
      && (m.log.snap.None? && r.m.log.snap.Some? ==> r.p.Some? && r.p.value.In? && r.p.value.c.Draining?)
      && (m.log.snap.Some? && m.idle == [] ==> r.m.idle == [])
      && (p.In? && p.c.Draining? ==> (r.p.Some? && r.p.value == p) || r.m.idle == [])
  {
    hide Region, Counted, Unknown, Floor, IdleOk, Carries;
    if OfClose(p) || OfReaper(p) {
      AloneRegion(m, t, p, a);
    } else {
      FillStays(m, p, a);
    }
  }

  lemma FillStays(m: Mem, p: Pc, a: Action)
    requires Ready(m, p, a) && OfCtor(p)
    ensures Region(m, p, a).m.log.snap == m.log.snap
  {
  }

  lemma ConstructionStep(s: State, e: Step)
    requires Inv(s) && Enabled(s, e) && UnderConstruction(s)
    ensures UnderConstruction(Do(s, e))
  {
    var u := Do(s, e);
    if e.Go? && !u.m.published {
      var t, p := e.t, s.pc[e.t];
      StepBefore(s, t, e.a);
      PublishedStays(s.m, p, e.a);
      hide Region, Inv;
      FillRegion(s.m, t, p, e.a);
      FillDrains(s.m, t, p, e.a);
      forall h | h in u.m.heap ensures Unused(u.m, h) {
        UnusedRegion(s.m, t, p, e.a, h);
      }
      if u.m.log.snap.Some? && u.m.idle != [] {
        if x :| x in s.pc && s.pc[x].In? && s.pc[x].c.Draining? {
          assert x in u.pc && u.pc[x] == s.pc[x];
        } else {
          assert s.m.log.snap.None? && t in u.pc;
        }
      }
    }
  }

  lemma PublishedStays(m: Mem, p: Pc, a: Action)
    requires Ready(m, p, a)
    ensures m.published ==> Region(m, p, a).m.published
  {
  }

  lemma {:induction false} ConstructionSteps(s: State, es: seq<Step>, u: State)
    requires Inv(s) && UnderConstruction(s) && Steps(s, es, u)
    ensures UnderConstruction(u)
    decreases |es|
  {
    if es != [] {
      InvStep(s, es[0]);
      ConstructionStep(s, es[0]);
      hide Inv, Do, UnderConstruction;
      ConstructionSteps(Do(s, es[0]), es[1..], u);
    }
  }

  lemma ReachableConstruction(s: State)
    requires Reachable(s)
    ensures Inv(s) && UnderConstruction(s)
  {
    ReachableInv(s);
    InitInv(s.m.cfg);
    var es :| Steps(Init(s.m.cfg), es, s);
    ConstructionSteps(Init(s.m.cfg), es, s);
  }

  /** When NewPool succeeds there are exactly Min holders: distinct, live, unused, all registered and all idle. */
  lemma NewPoolSucceeds(s: State)
    requires Reachable(s) && Enabled(s, Go(CTOR, Publish))
    ensures |s.m.all| == |s.m.idle| == s.m.cfg.min && Distinct(s.m.idle)
    ensures forall h :: h in s.m.all <==> h in s.m.idle
    ensures forall h :: h in s.m.heap <==> h in s.m.all
    ensures forall h :: h in s.m.all ==> s.m.heap[h].built && !s.m.heap[h].dead && Closes(s.m, h) == 0
    ensures !s.m.closed
  {
    ReachableConstruction(s);
    assert Local(s.m, CTOR, s.pc[CTOR]);
    forall h | h in s.m.heap ensures h in s.m.all && h in s.m.idle && !s.m.heap[h].dead && Closes(s.m, h) == 0 {
      assert HolderOk(s.m, h) && Unused(s.m, h);
      if h !in s.m.idle {
        assert Due(s.m, Hold(h));
        assert false;
      }
    }
    forall h | h in s.m.all || h in s.m.idle ensures h in s.m.heap {
      assert HolderOk(s.m, h);
    }
  }

  /** When NewPool has failed, every impl it created has been closed, once, and nothing is left in the pool. */
  lemma NewPoolFails(s: State)
    requires Reachable(s) && !s.m.published && CTOR !in s.pc
    ensures s.m.closed && s.m.all == {} && s.m.idle == []
    ensures forall h :: h in s.m.heap ==> s.m.heap[h].built && Closes(s.m, h) == 1
  {
    ReachableConstruction(s);
    forall t | t in s.pc ensures t == REAPER && !s.pc[t].In? {
      assert RoleOk(s.m, t, s.pc[t]);
    }
    assert !Due(s.m, ReachSnapshot) && !Due(s.m, TearRest);
    forall h | h in s.m.heap ensures s.m.heap[h].built && Closes(s.m, h) == 1 {
      assert HolderOk(s.m, h) && Unused(s.m, h);
      assert h !in s.m.log.snap.value - s.m.log.torn;
    }
  }

  /** The Close of a failing NewPool never meets a reservation. */
  lemma NewPoolNeverPanics(s: State, e: Step)
    requires Reachable(s) && !s.m.published && Enabled(s, e)
    ensures Do(s, e).m.panic.None?
  {
    ReachableConstruction(s);
    PanicsOnlyInTearDown(s, e);
  }

  /** The reaper is running meanwhile, but looks at the live count at most: it takes and drops nothing during the fill. */
  lemma ReaperDropsNothing(s: State, a: Action)
    requires Reachable(s) && !s.m.published && Enabled(s, Go(REAPER, a))
    ensures var m := Do(s, Go(REAPER, a)).m; m.all == s.m.all && m.idle == s.m.idle && m.heap == s.m.heap
  {
    ReachableInv(s);
    assert Local(s.m, REAPER, s.pc[REAPER]);
  }
}
