/** What the counts of deaths and of failed scale-ups count. */
module Tallies {
  import opened Wrappers
  import opened Protocol
  import opened Invariants

  /** The thread at p is about to drop h. */
  predicate Drops(p: Pc, h: Id) {
    p.Has? && p.h == h && p.w.Dropping?
  }

  predicate Builds(p: Pc, h: Id) {
    IsBuilding(p) && p.h == h
  }

  predicate IsDead(m: Mem, h: Id) {
    h in m.heap && m.heap[h].dead
  }

  predicate IsUnbuilt(m: Mem, h: Id) {
    h in m.heap && !m.heap[h].built
  }

  /** Dead holders that no thread is about to drop any more. */
  ghost function Fallen(s: State): set<Id> {
    set h | h in s.m.heap && IsDead(s.m, h) && NoneDrops(s.pc, h)
  }

  /** Reservations that no thread is building any more. */
  ghost function Abandoned(s: State): set<Id> {
    set h | h in s.m.heap && IsUnbuilt(s.m, h) && NoneBuilds(s.pc, h)
  }

  predicate Buries(p: Pc, a: Action) {
    a.DropLocked? && p.Has? && p.w.Dropping? && p.w.from.ByRun?
  }

  lemma CountsMove(m: Mem, p: Pc, a: Action)
    requires Ready(m, p, a)
    ensures var u := Region(m, p, a).m;
      && u.log.deaths == m.log.deaths + (if Buries(p, a) then 1 else 0)
      && u.log.failed == m.log.failed + (if a == Build(false) then 1 else 0)
  {
    match a
    case TryIdle | ReserveSlot(_) | Build(_) | WaitIdle | Cancel | Begin | Finish | Check(_) | Unlock | Stamp | ReleaseLocked
      | Push | DropLocked | CloseImpl | ReapTick | ReapStop | ReapCount | ReapTake | ReapPutBack | ReapExit | MarkClosed
      | StopReaper | AwaitReaper | Snapshot | Drain | TearDown(_) | CloseReturn | Create(_, _) | Enqueue | Publish =>
  }

  /** Of the dead holders out of its hands a region changes only the one it drops; of the reservations, the one that fails. */
  predicate Moves(m: Mem, p: Pc, a: Action, r: Outcome, h: Id) {
    && (if Buries(p, a) && p.h == h then IsDead(m, h) && Drops(p, h) && IsDead(r.m, h) && !(r.p.Some? && Drops(r.p.value, h))
        else (IsDead(r.m, h) && !(r.p.Some? && Drops(r.p.value, h)) <==> IsDead(m, h) && !Drops(p, h)))
    && (if a == Build(false) && p.Has? && p.h == h
        then IsUnbuilt(m, h) && Builds(p, h) && IsUnbuilt(r.m, h) && !(r.p.Some? && Builds(r.p.value, h))
        else (IsUnbuilt(r.m, h) && !(r.p.Some? && Builds(r.p.value, h)) <==> IsUnbuilt(m, h) && !Builds(p, h)))
  }

  lemma MovesInTake(m: Mem, t: Tid, p: Pc, a: Action, h: Id)
    requires Before(m, t, p, a) && (h in m.heap ==> HolderOk(m, h))
    requires InTake(a)
    ensures Moves(m, p, a, Region(m, p, a), h)
  {
    hide Region, RoleOk, Guarded, Counted, Unknown, Floor, Shared;
    DispatchAcquire(m, p, a);
  }

  lemma MovesInReserve(m: Mem, t: Tid, p: Pc, a: Action, h: Id)
    requires Before(m, t, p, a) && (h in m.heap ==> HolderOk(m, h))
    requires InReserve(a)
    ensures Moves(m, p, a, Region(m, p, a), h)
  {
    hide Region, RoleOk, Guarded, Counted, Unknown, Floor, Shared;
    DispatchAcquire(m, p, a);
  }

  lemma MovesInBuild(m: Mem, t: Tid, p: Pc, a: Action, h: Id)
    requires Before(m, t, p, a) && (h in m.heap ==> HolderOk(m, h))
    requires InBuild(a)
    ensures Moves(m, p, a, Region(m, p, a), h)
  {
    hide Region, RoleOk, Guarded, Counted, Unknown, Floor, Shared;
    DispatchAcquire(m, p, a);
  }

  lemma MovesInRun(m: Mem, t: Tid, p: Pc, a: Action, h: Id)
    requires Before(m, t, p, a) && (h in m.heap ==> HolderOk(m, h))
    requires a.Begin? || a.Finish? || a.Check? || a.Unlock?
    ensures Moves(m, p, a, Region(m, p, a), h)
  {
    hide Region, RoleOk, Guarded, Counted, Unknown, Floor, Shared;
    DispatchRun(m, p, a);
  }

  lemma MovesInRelease(m: Mem, t: Tid, p: Pc, a: Action, h: Id)
    requires Before(m, t, p, a) && (h in m.heap ==> HolderOk(m, h))
    requires a.Stamp? || a.ReleaseLocked? || a.Push? || a.DropLocked? || a.CloseImpl?
    ensures Moves(m, p, a, Region(m, p, a), h)
  {
    hide Region, RoleOk, Guarded, Counted, Unknown, Floor, Shared;
    DispatchRelease(m, p, a);
  }

  lemma MovesInReaper(m: Mem, t: Tid, p: Pc, a: Action, h: Id)
    requires Before(m, t, p, a) && (h in m.heap ==> HolderOk(m, h))
    requires a.ReapTick? || a.ReapStop? || a.ReapCount? || a.ReapTake? || a.ReapPutBack? || a.ReapExit?
    ensures Moves(m, p, a, Region(m, p, a), h)
  {
    hide Region, RoleOk, Guarded, Counted, Unknown, Floor, Shared;
    DispatchReaper(m, p, a);
  }

  lemma MovesInClose(m: Mem, t: Tid, p: Pc, a: Action, h: Id)
    requires Before(m, t, p, a) && (h in m.heap ==> HolderOk(m, h))
    requires a.MarkClosed? || a.StopReaper? || a.AwaitReaper? || a.Snapshot? || a.Drain? || a.TearDown? || a.CloseReturn?
    ensures Moves(m, p, a, Region(m, p, a), h)
  {
    hide Region, RoleOk, Guarded, Counted, Unknown, Floor, Shared, HolderOk, Carries, IdleOk;
    DispatchClose(m, p, a);
  }

  lemma MovesInNew(m: Mem, t: Tid, p: Pc, a: Action, h: Id)
    requires Before(m, t, p, a) && (h in m.heap ==> HolderOk(m, h))
    requires a.Create? || a.Enqueue? || a.Publish?
    ensures Moves(m, p, a, Region(m, p, a), h)
  {
    hide Region, RoleOk, Guarded, Counted, Unknown, Floor, Shared;
    DispatchNew(m, p, a);
  }

  lemma RegionMoves(m: Mem, t: Tid, p: Pc, a: Action, h: Id)
    requires Before(m, t, p, a) && (h in m.heap ==> HolderOk(m, h))
    ensures Moves(m, p, a, Region(m, p, a), h)
  {
    hide Region, Before, Moves, HolderOk;
    match a
    case TryIdle | WaitIdle | Cancel => MovesInTake(m, t, p, a, h);
    case ReserveSlot(_) => MovesInReserve(m, t, p, a, h);
    case Build(_) => MovesInBuild(m, t, p, a, h);
    case Begin | Finish | Check(_) | Unlock => MovesInRun(m, t, p, a, h);
    case Stamp | ReleaseLocked | Push | DropLocked | CloseImpl => MovesInRelease(m, t, p, a, h);
    case ReapTick | ReapStop | ReapCount | ReapTake | ReapPutBack | ReapExit => MovesInReaper(m, t, p, a, h);
    case MarkClosed | StopReaper | AwaitReaper | Snapshot | Drain | TearDown(_) | CloseReturn => MovesInClose(m, t, p, a, h);
    case Create(_, _) | Enqueue | Publish => MovesInNew(m, t, p, a, h);
  }

  // ----- Over a run

  ghost predicate Tallied(s: State) {
    s.m.log.deaths == |Fallen(s)| && s.m.log.failed == |Abandoned(s)|
  }

  ghost predicate NoneDrops(pc: map<Tid, Pc>, h: Id) {
    forall t :: t in pc ==> !Drops(pc[t], h)
  }

  ghost predicate NoneBuilds(pc: map<Tid, Pc>, h: Id) {
    forall t :: t in pc ==> !Builds(pc[t], h)
  }

  /** The threads of pc with t at q instead, or with t gone. */
  function Moved(pc: map<Tid, Pc>, t: Tid, q: Option<Pc>): map<Tid, Pc> {
    if q.Some? then pc[t := q.value] else pc - {t}
  }

  lemma Others(pc: map<Tid, Pc>, t: Tid, q: Option<Pc>, h: Id)
    ensures NoneDrops(Moved(pc, t, q), h) <==> NoneDrops(pc - {t}, h) && (q.Some? ==> !Drops(q.value, h))
    ensures NoneBuilds(Moved(pc, t, q), h) <==> NoneBuilds(pc - {t}, h) && (q.Some? ==> !Builds(q.value, h))
  {
    var pc1, pc0 := Moved(pc, t, q), pc - {t};
    assert forall x :: x in pc0 ==> x in pc1 && pc1[x] == pc0[x];
    assert forall x :: x in pc1 && x != t ==> x in pc0 && pc1[x] == pc0[x];
    assert q.Some? ==> t in pc1 && pc1[t] == q.value;
  }

  /** Who else has the holder that t has. */
  lemma NobodyElse(s: State, t: Tid, h: Id)
    requires Inv(s) && t in s.pc && s.pc[t].Has? && s.pc[t].h == h
    ensures NoneDrops(s.pc - {t}, h) && NoneBuilds(s.pc - {t}, h)
  {
    forall x | x in s.pc && x != t ensures !Drops(s.pc[x], h) && !Builds(s.pc[x], h) {
      assert Apart(s.pc[t], s.pc[x]);
    }
  }

  lemma Known(s: State, h: Id)
    requires Inv(s)
    ensures HolderOk(s.m, h)
  {
  }

  lemma OneMoves(s: State, t: Tid, a: Action, h: Id)
    requires Inv(s) && Enabled(s, Go(t, a))
    ensures var u, p := Do(s, Go(t, a)), s.pc[t];
      && (h in Fallen(u) <==> h in Fallen(s) || (Buries(p, a) && h == p.h))
      && (h in Abandoned(u) <==> h in Abandoned(s) || (a == Build(false) && p.Has? && h == p.h))
      && (Buries(p, a) && h == p.h ==> h !in Fallen(s))
      && (a == Build(false) && p.Has? && h == p.h ==> h !in Abandoned(s))
  {
    hide Region, Inv, HolderOk, Before, NoneDrops, NoneBuilds, Ready;
    var u, p := Do(s, Go(t, a)), s.pc[t];
    StepBefore(s, t, a);
    Known(s, h);
    if p.Has? && p.h == h {
      NobodyElse(s, t, h);
    }
    var r := Region(s.m, p, a);
    assert u.pc == Moved(s.pc, t, r.p) && s.pc == Moved(s.pc, t, Some(p));
    Others(s.pc, t, r.p, h);
    Others(s.pc, t, Some(p), h);
    RegionMoves(s.m, t, p, a, h);
  }

  lemma SetsMove(s: State, t: Tid, a: Action)
    requires Inv(s) && Enabled(s, Go(t, a))
    ensures var u, p := Do(s, Go(t, a)), s.pc[t];
      && (if Buries(p, a) then p.h !in Fallen(s) && Fallen(u) == Fallen(s) + {p.h} else Fallen(u) == Fallen(s))
      && (if a == Build(false) then p.Has? && p.h !in Abandoned(s) && Abandoned(u) == Abandoned(s) + {p.h}
          else Abandoned(u) == Abandoned(s))
  {
    var u, p := Do(s, Go(t, a)), s.pc[t];
    assert a == Build(false) ==> p.Has?;
    hide Inv, Region, Do, Fallen, Abandoned, Ready;
    forall h ensures
      && (h in Fallen(u) <==> h in Fallen(s) || (Buries(p, a) && h == p.h))
      && (h in Abandoned(u) <==> h in Abandoned(s) || (a == Build(false) && h == p.h))
      && (Buries(p, a) && h == p.h ==> h !in Fallen(s))
      && (a == Build(false) && h == p.h ==> h !in Abandoned(s))
    {
      OneMoves(s, t, a, h);
    }
  }

  lemma CallsMove(s: State, e: Step)
    requires Enabled(s, e) && !e.Go?
    ensures Fallen(Do(s, e)) == Fallen(s) && Abandoned(Do(s, e)) == Abandoned(s)
  {
    if !e.Tick? {
      var u := Do(s, e);
      assert s.pc - {e.t} == s.pc && u.pc == Moved(s.pc, e.t, Some(u.pc[e.t]));
      forall h ensures NoneDrops(u.pc, h) == NoneDrops(s.pc, h) && NoneBuilds(u.pc, h) == NoneBuilds(s.pc, h) {
        Others(s.pc, e.t, Some(u.pc[e.t]), h);
      }
    }
  }

  lemma TalliedStep(s: State, e: Step)
    requires Inv(s) && Tallied(s) && Enabled(s, e)
    ensures Tallied(Do(s, e))
  {
    if e.Go? {
      SetsMove(s, e.t, e.a);
      CountsMove(s.m, s.pc[e.t], e.a);
    } else {
      CallsMove(s, e);
    }
  }

  lemma {:induction false} TalliedSteps(s: State, es: seq<Step>, u: State)
    requires Inv(s) && Tallied(s) && Steps(s, es, u)
    ensures Tallied(u)
    decreases |es|
  {
    if es != [] {
      InvStep(s, es[0]);
      TalliedStep(s, es[0]);
      hide Inv, Do, Tallied;
      TalliedSteps(Do(s, es[0]), es[1..], u);
    }
  }

  /**
    The count of deaths is the number of dead holders that no thread is still about to drop, and the count of failed
    scale-ups the number of holders without impl that nobody is building.
   */
  lemma CountsAreExact(s: State)
    requires Reachable(s)
    ensures s.m.log.deaths == |Fallen(s)| && s.m.log.failed == |Abandoned(s)|
  {
    InitInv(s.m.cfg);
    var es :| Steps(Init(s.m.cfg), es, s);
    assert Fallen(Init(s.m.cfg)) == {} && Abandoned(Init(s.m.cfg)) == {};
    TalliedSteps(Init(s.m.cfg), es, s);
  }
}
