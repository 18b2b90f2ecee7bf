/** A Run that waits at Max: when it can still be given a holder, with or without a reaper, open or closed. */
module Waiters {
  import opened Protocol
  import opened Invariants
  import opened Ownership
  import opened Shutdown
  import opened Progress
  import opened Interference

  /**
    The thread at p may still make a holder idle. While the pool is open that is a Run before its wait, and whoever has
    a holder that is not being dropped; once it is closed, only who has already decided to send.
   */
  predicate Promising(closed: bool, p: Pc) {
    if closed then p.Has? && (p.w.Pushing? || p.w.PuttingBack?)
    else p.TryingIdle? || p.Reserving? || (p.Has? && !p.w.Dropping? && !p.w.Closing?)
  }

  ghost predicate Hope(s: State) {
    s.m.idle != [] || exists x :: x in s.pc && Promising(s.m.closed, s.pc[x])
  }

  /** acquire has returned a holder to t. */
  predicate Served(s: State, t: Tid) {
    t in s.pc && s.pc[t].Has? && s.pc[t].w.Acquired?
  }

  ghost predicate NoNewRuns(es: seq<Step>) {
    forall e :: e in es ==> !e.CallRun?
  }

  /** The calls under way are enough for t to be given a holder. */
  ghost predicate CanServe(s: State, t: Tid) {
    exists es, u :: Steps(s, es, u) && NoNewRuns(es) && Served(u, t)
  }

  lemma ServeAfter(s: State, e: Step, t: Tid)
    requires Enabled(s, e) && !e.CallRun? && CanServe(Do(s, e), t)
    ensures CanServe(s, t)
  {
    var es, u :| Steps(Do(s, e), es, u) && NoNewRuns(es) && Served(u, t);
    var fs := [e] + es;
    assert fs[0] == e && fs[1..] == es;
    assert Steps(s, fs, u) && NoNewRuns(fs);
  }

  lemma ServeNow(s: State, t: Tid)
    requires s.m.panic.None? && t in s.pc && s.pc[t].Waiting? && s.m.idle != []
    ensures CanServe(s, t)
  {
    var e := Go(t, WaitIdle);
    assert Steps(Do(s, e), [], Do(s, e)) && NoNewRuns([]) && Served(Do(s, e), t);
    ServeAfter(s, e, t);
  }

  /** Where a waiting Run implies that NewPool is done. */
  lemma PoolIsOut(s: State, t: Tid)
    requires Inv(s) && t in s.pc && s.pc[t].Waiting?
    ensures s.m.published && forall x :: x in s.pc ==> !OfCtor(s.pc[x])
  {
    assert RoleOk(s.m, t, s.pc[t]);
    forall x | x in s.pc ensures !OfCtor(s.pc[x]) {
      assert RoleOk(s.m, x, s.pc[x]);
    }
  }

  // ----- Towards a holder for t

  /** How many regions a thread with a holder is away from sending it to idle. */
  function Rank(p: Pc): nat {
    if !p.Has? then 0 else
      match p.w
      case Building => 7
      case Acquired => 6
      case Running => 5
      case Cleaned => 4
      case Stamping => 3
      case Releasing => 2
      case _ => 1
  }

  lemma Approach(m: Mem, t: Tid, p: Pc)
    requires Local(m, t, p) && m.panic.None? && p.Has? && !p.w.Enqueuing? && Promising(m.closed, p)
    requires Ready(m, p, Forward(m, p, 0))
    ensures var r := Region(m, p, Forward(m, p, 0));
      && r.m.panic.None? && r.m.closed == m.closed
      && (r.m.idle != [] || (r.p.Some? && r.p.value.Has? && Promising(m.closed, r.p.value) && Rank(r.p.value) < Rank(p)))
  {
    hide RoleOk, Guarded, Counted;
  }

  lemma NextReady(s: State, x: Tid)
    requires Inv(s) && s.m.panic.None? && x in s.pc && HasToken(s.pc[x]) && !MayBlock(s.m, s.pc[x])
    ensures Ready(s.m, s.pc[x], Forward(s.m, s.pc[x], 0))
  {
    RoomToSend(s, x);
    if |s.m.idle| > 0 {
      assert HolderOk(s.m, s.m.idle[0]);
    }
    var unused := FreshId(s.m.heap.Keys, 0);
    hide HolderOk, RoleOk, Guarded, Counted, Carries;
    ForwardReady(s.m, x, s.pc[x], unused);
  }

  lemma UnlockOnly(m: Mem, p: Pc)
    requires p.Unlocking? && p.h in m.heap
    ensures var r := Region(m, p, Unlock);
      && r.m == m.(heap := m.heap[p.h := m.heap[p.h].(locked := false)]) && r.p.None?
  {
  }

  /** x goes on with its holder until it has sent it to idle; t takes what is there. */
  lemma {:induction false} ServeByHolder(s: State, t: Tid, x: Tid)
    requires Reachable(s) && s.m.panic.None? && t in s.pc && s.pc[t].Waiting?
    requires x in s.pc && s.pc[x].Has? && Promising(s.m.closed, s.pc[x])
    ensures CanServe(s, t)
    decreases Rank(s.pc[x]), MayBlock(s.m, s.pc[x])
  {
    ReachableInv(s);
    PoolIsOut(s, t);
    assert Local(s.m, x, s.pc[x]);
    if s.m.idle != [] {
      ServeNow(s, t);
    } else if MayBlock(s.m, s.pc[x]) {
      var z := LockOwner(s, x);
      var e := Go(z, Unlock);
      hide Inv, Region, Local;
      UnlockOnly(s.m, s.pc[z]);
      ReachableStep(s, e);
      ServeByHolder(Do(s, e), t, x);
      ServeAfter(s, e, t);
    } else {
      NextReady(s, x);
      var e := Go(x, Forward(s.m, s.pc[x], 0));
      hide Inv, Region, Forward, Local;
      Approach(s.m, x, s.pc[x]);
      ReachableStep(s, e);
      if Do(s, e).m.idle != [] {
        ServeNow(Do(s, e), t);
      } else {
        ServeByHolder(Do(s, e), t, x);
      }
      ServeAfter(s, e, t);
    }
  }

  /** A Run that has not come to its wait makes a holder, once there is a free slot; or some holder is in use. */
  lemma {:induction false} ServeByRun(s: State, t: Tid, x: Tid)
    requires Reachable(s) && s.m.panic.None? && !s.m.closed && t in s.pc && s.pc[t].Waiting?
    requires x in s.pc && (s.pc[x].TryingIdle? || s.pc[x].Reserving?)
    ensures CanServe(s, t)
    decreases s.pc[x].TryingIdle?, |s.m.all|
  {
    ReachableInv(s);
    if s.m.idle != [] {
      ServeNow(s, t);
    } else if s.pc[x].TryingIdle? {
      var e := Go(x, TryIdle);
      ReachableStep(s, e);
      ServeByRun(Do(s, e), t, x);
      ServeAfter(s, e, t);
    } else if |s.m.all| < s.m.cfg.max {
      var h := FreshId(s.m.heap.Keys, 0);
      var e := Go(x, ReserveSlot(h));
      ReachableStep(s, e);
      ServeByHolder(Do(s, e), t, x);
      ServeAfter(s, e, t);
    } else {
      var y := Keeper(s, t);
      if Promising(s.m.closed, s.pc[y]) {
        ServeByHolder(s, t, y);
      } else {
        var e := Go(y, DropLocked);
        ReachableStep(s, e);
        ServeByRun(Do(s, e), t, x);
        ServeAfter(s, e, t);
      }
    }
  }

  /** At Max with nothing idle, somebody has a holder: it may send it, or is about to drop it. */
  lemma Keeper(s: State, t: Tid) returns (y: Tid)
    requires Reachable(s) && s.m.panic.None? && !s.m.closed && s.m.idle == [] && |s.m.all| >= s.m.cfg.max
    requires t in s.pc && s.pc[t].Waiting?
    ensures y in s.pc && y != t && s.pc[y].Has?
    ensures !Promising(s.m.closed, s.pc[y]) ==>
      && Enabled(s, Go(y, DropLocked))
      && var u := Do(s, Go(y, DropLocked));
         u.m.panic.None? && !u.m.closed && |u.m.all| < |s.m.all| && forall x :: x in s.pc && x != y ==> x in u.pc && u.pc[x] == s.pc[x]
  {
    ReachableInv(s);
    var h := Pick(s.m.all);
    assert Due(s.m, Hold(h));
    y :| y in s.pc && Bears(s.pc[y], Hold(h));
    assert |s.m.all - {h}| < |s.m.all|;
  }

  // ----- Without hope

  ghost predicate Hopeless(s: State, t: Tid) {
    s.m.published && !Hope(s) && (t in s.pc ==> s.pc[t].Waiting? || OfClose(s.pc[t]))
  }

  lemma HopelessRegion(m: Mem, t: Tid, p: Pc, a: Action)
    requires Before(m, t, p, a) && m.published && m.idle == [] && !Promising(m.closed, p)
    ensures var r := Region(m, p, a);
      && r.m.published && r.m.idle == [] && (m.closed ==> r.m.closed)
      && (r.p.Some? ==> !Promising(r.m.closed, r.p.value))
      && (r.p.Some? && (p.Waiting? || OfClose(p)) ==> OfClose(r.p.value))
  {
    hide Guarded, Counted, Unknown, Floor, IdleOk, Carries, Shared;
    match a
    case TryIdle | ReserveSlot(_) | Build(_) | WaitIdle | Cancel | Begin | Finish | Check(_) | Unlock | Stamp | ReleaseLocked
      | Push | DropLocked | CloseImpl | ReapTick | ReapStop | ReapCount | ReapTake | ReapPutBack | ReapExit | MarkClosed
      | StopReaper | AwaitReaper | Snapshot | Drain | TearDown(_) | CloseReturn | Create(_, _) | Enqueue | Publish =>
  }

  lemma HopelessStep(s: State, e: Step, t: Tid)
    requires Inv(s) && Enabled(s, e) && !e.CallRun? && Hopeless(s, t)
    ensures Hopeless(Do(s, e), t)
  {
    if e.Go? {
      StepBefore(s, e.t, e.a);
      hide Region, Inv;
      HopelessRegion(s.m, e.t, s.pc[e.t], e.a);
    }
  }

  lemma {:induction false} HopelessForever(s: State, es: seq<Step>, u: State, t: Tid)
    requires Inv(s) && Hopeless(s, t) && Steps(s, es, u) && NoNewRuns(es)
    ensures Hopeless(u, t)
    decreases |es|
  {
    if es != [] {
      InvStep(s, es[0]);
      HopelessStep(s, es[0], t);
      hide Inv, Do, Hopeless;
      HopelessForever(Do(s, es[0]), es[1..], u, t);
    }
  }

  /**
    A waiting Run can be given a holder by the calls under way exactly if one is idle; or, in an open pool, another Run
    has not come to its wait or somebody has a holder that is not being dropped; or, in a closed one, somebody is
    about to send a holder to idle.
   */
  lemma WaiterServedIff(s: State, t: Tid)
    requires Reachable(s) && s.m.panic.None? && t in s.pc && s.pc[t].Waiting?
    ensures CanServe(s, t) <==> Hope(s)
  {
    if s.m.idle != [] {
      ServeNow(s, t);
    } else if x :| x in s.pc && Promising(s.m.closed, s.pc[x]) {
      if s.pc[x].Has? {
        ServeByHolder(s, t, x);
      } else {
        ServeByRun(s, t, x);
      }
    } else {
      ReachableInv(s);
      PoolIsOut(s, t);
      forall es, u | Steps(s, es, u) && NoNewRuns(es) ensures !Served(u, t) {
        HopelessForever(s, es, u, t);
      }
    }
  }

  /** In an open pool one more call of Run is enough. */
  lemma NewRunServes(s: State, t: Tid) returns (x: Tid)
    requires Reachable(s) && s.m.panic.None? && !s.m.closed && t in s.pc && s.pc[t].Waiting?
    ensures Enabled(s, CallRun(x)) && CanServe(Do(s, CallRun(x)), t)
  {
    ReachableInv(s);
    PoolIsOut(s, t);
    x := FreshTid(s.pc);
    ReachableStep(s, CallRun(x));
    ServeByRun(Do(s, CallRun(x)), t, x);
  }
}
