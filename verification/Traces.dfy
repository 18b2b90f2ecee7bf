/**
  Runs that show where the plain form of a promise fails, so that the conditions in the other modules are needed.
  Each lemma goes through the steps of one run and states what its last state looks like.
 */
module Traces {
  import opened Wrappers
  import opened Configs
  import opened Protocol
  import opened Ownership
  import opened Waiters

  // The holders of these runs, and the threads calling Run and Close.
  const A: Id := 10
  const B: Id := 11
  const R1: Tid := 2
  const R2: Tid := 3
  const C: Tid := 4

  /** The other goroutines of a pool that NewPool has returned: at most the reaper. */
  function Background(cfg: Config): map<Tid, Pc> {
    if cfg.Reaps() then map[REAPER := Sleeping] else map[]
  }

  function Fresh(cfg: Config, idle: seq<Id>): Mem {
    Mem(cfg, 0, {A}, idle, false, false, !cfg.Reaps(), map[A := NewHolder(true, 0)], true, None,
        Log(0, 0, {}, None, {}, {}, []))
  }

  /** NewPool with Min == 1 has made its holder. */
  lemma Filled(cfg: Config) returns (s: State)
    requires cfg.Normal() && cfg.min == 1
    ensures Reachable(s) && s == State(Fresh(cfg, [A]).(published := false), Background(cfg)[CTOR := Filling(1)])
  {
    s := Init(cfg);
    LeadsRefl(s);
    s := Then(s, Go(CTOR, Create(A, true)));
    s := Then(s, Go(CTOR, Enqueue));
    assert s.pc == Background(cfg)[CTOR := Filling(1)];
    assert s.m == Fresh(cfg, [A]).(published := false);
  }

  /** NewPool with Min == 1 has returned. */
  lemma Opened(cfg: Config) returns (s: State)
    requires cfg.Normal() && cfg.min == 1
    ensures Reachable(s) && s == State(Fresh(cfg, [A]), Background(cfg))
  {
    s := Filled(cfg);
    s := Then(s, Go(CTOR, Publish));
    assert s.pc == Background(cfg);
  }

  /** The first Run has taken the only holder. */
  lemma OneTaken(cfg: Config) returns (s: State)
    requires cfg.Normal() && cfg.min == 1
    ensures Reachable(s) && s == State(Fresh(cfg, []), Background(cfg)[R1 := Has(A, Acquired)])
  {
    s := Opened(cfg);
    s := Then(s, CallRun(R1));
    s := Then(s, Go(R1, TryIdle));
    assert s.pc == Background(cfg)[R1 := Has(A, Acquired)];
  }

  lemma Then(s: State, e: Step) returns (u: State)
    requires Reachable(s) && Enabled(s, e)
    ensures Reachable(u) && u == Do(s, e)
  {
    ReachableStep(s, e);
    u := Do(s, e);
  }

  /** The Run of t starts its workload and cleans up. */
  lemma CleanedUp(s: State, t: Tid) returns (u: State)
    requires Reachable(s) && s.m.panic.None? && t in s.pc && s.pc[t].Has? && s.pc[t].w.Acquired?
    requires s.pc[t].h in s.m.heap && s.m.heap[s.pc[t].h] == NewHolder(true, s.m.heap[s.pc[t].h].lastUsed)
    ensures Reachable(u)
    ensures var h := s.pc[t].h;
      u == State(s.m.(heap := s.m.heap[h := s.m.heap[h].(calls := [RunCall, CleanupCall], locked := true)]),
                 s.pc[t := Has(h, Cleaned)])
  {
    u := Then(s, Go(t, Begin));
    u := Then(u, Go(t, Finish));
    var h := s.pc[t].h;
    assert u.m.heap[h].calls == [RunCall, CleanupCall];
    assert u.m.heap == s.m.heap[h := u.m.heap[h]];
    assert u.pc == s.pc[t := u.pc[t]];
  }

  /** The Run of t goes as far as checkHolder's answer. */
  lemma Worked(s: State, t: Tid, ok: bool) returns (u: State)
    requires Reachable(s) && s.m.panic.None? && t in s.pc && s.pc[t].Has? && s.pc[t].w.Acquired?
    requires s.pc[t].h in s.m.heap && s.m.heap[s.pc[t].h] == NewHolder(true, s.m.heap[s.pc[t].h].lastUsed)
    ensures Reachable(u)
    ensures var h := s.pc[t].h;
      u == State(s.m.(heap := s.m.heap[h := s.m.heap[h].(
                   calls := [RunCall, CleanupCall, if ok then CheckOk else CheckFailed], locked := true, dead := !ok)]),
                 s.pc[t := Has(h, if ok then Stamping else Dropping(ByRun))])
  {
    u := CleanedUp(s, t);
    u := Then(u, Go(t, Check(ok)));
    var h := s.pc[t].h;
    assert u.m.heap[h].calls == [RunCall, CleanupCall, if ok then CheckOk else CheckFailed];
    assert u.m.heap == s.m.heap[h := u.m.heap[h]];
    assert u.pc == s.pc[t := u.pc[t]];
  }

  /**
    A scale-up that fails between reapIdle's look at the live count and its drop takes the pool below Min, although no
    holder died.
   */
  lemma BelowMin() returns (s: State)
    ensures Reachable(s) && !s.m.closed && s.m.published && s.m.log.deaths == 0
    ensures |s.m.all| < s.m.cfg.min && s.m.log.failed == 1
  {
    s := OneTaken(Config(1, 2, 1));
    s := Then(s, CallRun(R2));
    s := Then(s, Go(R2, TryIdle));
    s := Then(s, Go(R2, ReserveSlot(B)));
    assert s.m.all == {A, B} && s.pc == map[REAPER := Sleeping, R1 := Has(A, Acquired), R2 := Has(B, Building)];
    s := Worked(s, R1, true);
    s := BelowMinEnd(s);
  }

  lemma BelowMinEnd(s: State) returns (u: State)
    requires Reachable(s) && s.m.cfg == Config(1, 2, 1) && !s.m.closed && s.m.published && s.m.panic.None?
    requires s.m.all == {A, B} && s.m.idle == [] && s.m.now == 0 && A in s.m.heap && B in s.m.heap
    requires s.pc == map[REAPER := Sleeping, R1 := Has(A, Stamping), R2 := Has(B, Building)]
    requires s.m.log == Log(0, 0, {}, None, {}, {}, [])
    ensures Reachable(u) && !u.m.closed && u.m.published && u.m.log.deaths == 0
    ensures |u.m.all| < u.m.cfg.min && u.m.log.failed == 1
  {
    u := Then(s, Go(R1, Stamp));
    u := Then(u, Go(R1, ReleaseLocked));
    u := Then(u, Go(R1, Push));
    u := Then(u, Tick);
    u := Then(u, Go(REAPER, ReapTick));
    assert u.m.all - {B} == {A};
    u := Then(u, Go(REAPER, ReapCount));
    u := Then(u, Go(R2, Build(false)));
    u := Then(u, Go(REAPER, ReapTake));
    assert u.pc[REAPER] == Has(A, Dropping(ByReaper(1)));
    u := Then(u, Go(REAPER, DropLocked));
    assert u.m.all == {};
  }

  /** Close as far as its snapshot, in a pool without a reaper. */
  lemma Snapshotted(s: State) returns (u: State)
    requires Reachable(s) && s.m.published && s.m.panic.None? && !s.m.closed && !s.m.cfg.Reaps() && s.m.done
    requires s.m.all == {A} && C !in s.pc
    ensures Reachable(u) && u.pc == s.pc[C := In(Draining({A}))]
    ensures u.m == s.m.(closed := true, all := {}, log := s.m.log.(atClose := {A}, snap := Some({A})))
  {
    u := Then(s, CallClose(C));
    u := Then(u, Go(C, MarkClosed));
    u := Then(u, Go(C, AwaitReaper));
    u := Then(u, Go(C, Snapshot));
    assert u.pc == s.pc[C := In(Draining({A}))];
  }

  /** Close as far as the end of its teardown loop, with one registered holder, which is built and not idle. */
  lemma TornDown(s: State) returns (u: State)
    requires Reachable(s) && s.m.published && s.m.panic.None? && !s.m.closed && !s.m.cfg.Reaps() && s.m.done
    requires s.m.all == {A} && s.m.idle == [] && A in s.m.heap && s.m.heap[A].built && C !in s.pc
    ensures Reachable(u) && u.pc == s.pc[C := In(TearingDown({}))]
    ensures u.m == s.m.(closed := true, all := {}, heap := s.m.heap[A := s.m.heap[A].(teardowns := s.m.heap[A].teardowns + 1)],
                        log := s.m.log.(atClose := {A}, snap := Some({A}), torn := s.m.log.torn + {A}))
  {
    u := Snapshotted(s);
    u := Then(u, Go(C, Drain));
    u := Then(u, Go(C, TearDown(A)));
    assert {A} - {A} == {};
    assert u.pc == s.pc[C := In(TearingDown({}))];
  }

  /** The same Close to its return. */
  lemma Shut(s: State) returns (u: State)
    requires Reachable(s) && s.m.published && s.m.panic.None? && !s.m.closed && !s.m.cfg.Reaps() && s.m.done
    requires s.m.all == {A} && s.m.idle == [] && A in s.m.heap && s.m.heap[A].built && C !in s.pc
    ensures Reachable(u) && u.pc == s.pc
    ensures u.m == s.m.(closed := true, all := {}, heap := s.m.heap[A := s.m.heap[A].(teardowns := s.m.heap[A].teardowns + 1)],
                        log := s.m.log.(atClose := {A}, snap := Some({A}), torn := s.m.log.torn + {A}))
  {
    u := TornDown(s);
    u := Then(u, Go(C, CloseReturn));
    assert u.pc == s.pc;
  }

  /** Close does not wait for Runs, and takes no holder's mutex: it closes an impl while a workload runs on it. */
  lemma ClosedWhileRunning() returns (s: State)
    ensures Reachable(s) && s.m.panic.None? && s.pc == map[R1 := Has(A, Running)]
    ensures A in s.m.heap && s.m.heap[A].locked && s.m.heap[A].teardowns == 1
  {
    s := OneTaken(Config(1, 1, 0));
    s := Then(s, Go(R1, Begin));
    s := Shut(s);
  }

  /**
    A Run that looked at closed before Close and pushes after Close has returned leaves a stale holder in idle; the fast
    path of acquire does not look at closed, and the next caller's workload starts on an impl that has been closed.
   */
  lemma RunAfterClose() returns (s: State)
    ensures Reachable(s) && s.m.panic.None? && s.m.closed && s.m.log.snap.Some?
    ensures forall t :: t in s.pc ==> !s.pc[t].In?
    ensures s.pc == map[R2 := Has(A, Running)] && A in s.m.heap && s.m.heap[A].teardowns == 1
    ensures |s.m.heap[A].calls| == 4 && s.m.heap[A].calls[3] == RunCall
  {
    s := OneTaken(Config(1, 1, 0));
    s := Worked(s, R1, true);
    s := Then(s, Go(R1, Stamp));
    s := Then(s, Go(R1, ReleaseLocked));
    s := Shut(s);
    s := RunAfterCloseEnd(s);
  }

  lemma RunAfterCloseEnd(s: State) returns (u: State)
    requires Reachable(s) && s.m.panic.None? && s.m.published && s.m.closed && s.m.log.snap.Some? && s.m.cfg == Config(1, 1, 0)
    requires s.pc == map[R1 := Has(A, Pushing)] && s.m.idle == [] && A in s.m.heap
    requires s.m.heap[A].teardowns == 1 && |s.m.heap[A].calls| == 3 && s.m.heap[A].built && !s.m.heap[A].dead
    ensures Reachable(u) && u.m.panic.None? && u.m.closed && u.m.log.snap.Some?
    ensures u.pc == map[R2 := Has(A, Running)] && A in u.m.heap && u.m.heap[A].teardowns == 1
    ensures |u.m.heap[A].calls| == 4 && u.m.heap[A].calls[3] == RunCall
  {
    u := Then(s, Go(R1, Push));
    u := Then(u, Go(R1, Unlock));
    u := Then(u, CallRun(R2));
    u := Then(u, Go(R2, TryIdle));
    u := Then(u, Go(R2, Begin));
  }

  /** A Run that looks at closed after Close took its snapshot closes the impl a second time. */
  lemma ClosedTwice() returns (s: State)
    ensures Reachable(s) && s.m.panic.None? && A in s.m.heap
    ensures s.m.heap[A].ownerCloses == 1 && s.m.heap[A].teardowns == 1
  {
    s := OneTaken(Config(1, 1, 0));
    s := Worked(s, R1, true);
    s := Then(s, Go(R1, Stamp));
    s := Shut(s);
    s := Then(s, Go(R1, ReleaseLocked));
    s := Then(s, Go(R1, CloseImpl));
  }

  /**
    A waiter at Max is not woken by drop: the holder it waited for has died, no holder is registered, every slot is
    free, and nobody but a new caller can help; a reaper may be ticking or not.
   */
  lemma WaiterStranded(cfg: Config) returns (s: State)
    requires cfg.Normal() && cfg.min == 1 && cfg.max == 1
    ensures Reachable(s) && s.m.panic.None? && !s.m.closed && s.m.cfg == cfg
    ensures |s.m.all| == 0 < cfg.max && s.m.idle == [] && s.pc == Background(cfg)[R2 := Waiting]
    ensures forall a :: Enabled(s, Go(R2, a)) ==> a == Cancel
    ensures !CanServe(s, R2)
  {
    s := OneWaits(cfg);
    s := Died(s, R1);
    assert s.pc == Background(cfg)[R2 := Waiting];
    WaiterServedIff(s, R2);
  }

  /** At Max, the second Run comes to its wait. */
  lemma OneWaits(cfg: Config) returns (s: State)
    requires cfg.Normal() && cfg.min == 1 && cfg.max == 1
    ensures Reachable(s) && s.m == Fresh(cfg, [])
    ensures s.pc == Background(cfg)[R1 := Has(A, Acquired)][R2 := Waiting]
  {
    s := OneTaken(cfg);
    s := Then(s, CallRun(R2));
    s := Then(s, Go(R2, TryIdle));
    s := Then(s, Go(R2, ReserveSlot(B)));
  }

  /** The Run of t from its start on A, which is found dead, to its return. */
  lemma Died(s: State, t: Tid) returns (u: State)
    requires Reachable(s) && s.m.panic.None? && s.m.all == {A} && t in s.pc && s.pc[t] == Has(A, Acquired)
    requires A in s.m.heap && s.m.heap[A] == NewHolder(true, s.m.heap[A].lastUsed)
    ensures Reachable(u) && u.pc == s.pc - {t} && u.m.all == {} && u.m.idle == s.m.idle && u.m.panic.None?
    ensures u.m.closed == s.m.closed && u.m.cfg == s.m.cfg
  {
    u := Worked(s, t, false);
    u := Then(u, Go(t, DropLocked));
    u := Then(u, Go(t, CloseImpl));
    u := Then(u, Go(t, Unlock));
    assert u.m.all == {};
    assert u.pc == s.pc - {t};
  }

  /** drop unregisters before it closes: with Max == 1 two containers are up at once. */
  lemma TwoContainersAtMaxOne() returns (s: State)
    ensures Reachable(s) && s.m.panic.None? && s.m.cfg.max == 1 && |s.m.all| == 1
    ensures forall h :: h == A || h == B ==> h in s.m.heap && s.m.heap[h].built && Closes(s.m, h) == 0
  {
    s := OneTaken(Config(1, 1, 0));
    s := Worked(s, R1, false);
    s := Then(s, Go(R1, DropLocked));
    s := Then(s, CallRun(R2));
    s := Then(s, Go(R2, TryIdle));
    assert s.m.all == {};
    s := Then(s, Go(R2, ReserveSlot(B)));
    s := Then(s, Go(R2, Build(true)));
    assert s.m.all == {B};
  }

  /** Close snapshots a reservation whose holder is still being built, and calls close on its nil impl. */
  lemma NilImplClosed() returns (s: State)
    ensures Reachable(s) && s.m.panic == Some(NilImpl(B))
    ensures R2 in s.pc && s.pc[R2] == Has(B, Building)
  {
    s := Init(Config(0, 1, 0));
    LeadsRefl(s);
    s := Then(s, Go(CTOR, Publish));
    s := Then(s, CallRun(R2));
    s := Then(s, Go(R2, TryIdle));
    s := Then(s, Go(R2, ReserveSlot(B)));
    s := Then(s, CallClose(C));
    s := Then(s, Go(C, MarkClosed));
    s := Then(s, Go(C, AwaitReaper));
    s := Then(s, Go(C, Snapshot));
    s := Then(s, Go(C, Drain));
    s := Then(s, Go(C, TearDown(B)));
  }

  /** Time passes. */
  lemma {:induction false} Later(s: State, d: nat) returns (u: State)
    requires Reachable(s) && s.m.panic.None?
    ensures Reachable(u) && u == s.(m := s.m.(now := s.m.now + d))
    decreases d
  {
    if d == 0 {
      u := s;
    } else {
      u := Then(s, Tick);
      u := Later(u, d - 1);
    }
  }

  /** From the end of t's workload to its return, in an open pool. */
  lemma Released(s: State, t: Tid) returns (u: State)
    requires Reachable(s) && s.m.panic.None? && !s.m.closed && |s.m.idle| < s.m.cfg.max
    requires t in s.pc && s.pc[t].Has? && s.pc[t].w.Stamping? && s.pc[t].h in s.m.heap
    ensures Reachable(u) && u.pc == s.pc - {t}
    ensures var h := s.pc[t].h;
      u.m == s.m.(idle := s.m.idle + [h], heap := s.m.heap[h := s.m.heap[h].(lastUsed := s.m.now, locked := false)])
  {
    u := Then(s, Go(t, Stamp));
    u := Then(u, Go(t, ReleaseLocked));
    u := Then(u, Go(t, Push));
    u := Then(u, Go(t, Unlock));
    assert u.pc == s.pc - {t};
  }

  /** Two holders are idle, used one tick apart. */
  lemma TwoIdle() returns (s: State)
    ensures Reachable(s) && s.m.cfg == Config(1, 2, 10) && s.m.panic.None? && !s.m.closed && s.pc == map[REAPER := Sleeping]
    ensures s.m.all == {A, B} && s.m.idle == [A, B] && s.m.now == 1 && A in s.m.heap && B in s.m.heap
    ensures s.m.heap[A].lastUsed == 0 && s.m.heap[B].lastUsed == 1
  {
    s := OneTaken(Config(1, 2, 10));
    s := Then(s, CallRun(R2));
    s := Then(s, Go(R2, TryIdle));
    s := Then(s, Go(R2, ReserveSlot(B)));
    s := Then(s, Go(R2, Build(true)));
    assert s.pc == map[REAPER := Sleeping, R1 := Has(A, Acquired), R2 := Has(B, Acquired)];
    s := Worked(s, R1, true);
    s := Released(s, R1);
    s := Then(s, Tick);
    s := Worked(s, R2, true);
    s := Released(s, R2);
    assert s.pc == map[REAPER := Sleeping];
  }

  /** One call of reapIdle that finds h at the head of the queue, not expired, and puts it back. */
  lemma PutBackOnly(s: State) returns (u: State)
    requires Reachable(s) && s.m.panic.None? && s.pc == map[REAPER := Sleeping]
    requires |s.m.all| > s.m.cfg.min && 0 < |s.m.idle| <= s.m.cfg.max && s.m.idle[0] in s.m.heap && !Expired(s.m, s.m.idle[0], s.m.now)
    ensures Reachable(u) && u == s.(m := s.m.(idle := s.m.idle[1..] + [s.m.idle[0]]))
    ensures Steps(s, [Go(REAPER, ReapTick), Go(REAPER, ReapCount), Go(REAPER, ReapTake), Go(REAPER, ReapPutBack)], u)
  {
    var a, b := Go(REAPER, ReapTick), Go(REAPER, ReapCount);
    var c, d := Go(REAPER, ReapTake), Go(REAPER, ReapPutBack);
    var s1 := Then(s, a);
    var s2 := Then(s1, b);
    var s3 := Then(s2, c);
    u := Then(s3, d);
    assert u.pc == s.pc;
    assert Steps(s3, [d], u) && Steps(s2, [c, d], u) by {
      OneStep(s3, d);
      OneStep(s2, c);
      StepsAppend(s2, [c], s3, [d], u);
      assert [c] + [d] == [c, d];
    }
    OneStep(s, a);
    OneStep(s1, b);
    StepsAppend(s1, [b], s2, [c, d], u);
    StepsAppend(s, [a], s1, [b] + [c, d], u);
    assert [a] + ([b] + [c, d]) == [a, b, c, d];
  }

  /** Where a stretch of a run begins and ends. */
  datatype Span = Span(before: State, after: State)

  /**
    A whole call of reapIdle, undisturbed, after which an expired holder is still idle although more than Min are live:
    an earlier put-back has brought a younger one to the head, and the call stops at it.
   */
  lemma OnePassIncomplete() returns (c: Span)
    ensures Reachable(c.before) && c.before.pc == map[REAPER := Sleeping] && c.after.pc == map[REAPER := Sleeping]
    ensures Steps(c.before, [Go(REAPER, ReapTick), Go(REAPER, ReapCount), Go(REAPER, ReapTake), Go(REAPER, ReapPutBack)], c.after)
    ensures c.before.m.idle == [B, A] && c.after.m.idle == [A, B] && |c.after.m.all| > c.after.m.cfg.min
    ensures c.before.m.now == c.after.m.now && A in c.after.m.heap && Expired(c.after.m, A, c.after.m.now)
  {
    var s := TwoIdle();
    s := PutBackOnly(s);
    s := Later(s, 9);
    var u := PutBackOnly(s);
    c := Span(s, u);
  }
}
