/** reapIdle: what it can still drop never grows, and what it does when nothing else runs. */
module Reaping {
  import opened Protocol
  import opened Invariants
  import opened Ownership

  // ----- Under interference: expired holders only become fewer

  /** Registered holders that a reapIdle which started at now would drop. */
  function Stale(m: Mem, now: nat): set<Id> {
    set h | h in m.all && h in m.heap && Expired(m, h, now)
  }

  /** New holders are stamped with the current time. */
  lemma FreshlyUsed(m: Mem, p: Pc, a: Action, h: Id)
    requires Ready(m, p, a) && h !in m.heap
    ensures var u := Region(m, p, a).m; h in u.heap ==> u.heap[h].lastUsed == m.now
  {
    match a
    case TryIdle | ReserveSlot(_) | Build(_) | WaitIdle | Cancel | Begin | Finish | Check(_) | Unlock | Stamp | ReleaseLocked
      | Push | DropLocked | CloseImpl | ReapTick | ReapStop | ReapCount | ReapTake | ReapPutBack | ReapExit | MarkClosed
      | StopReaper | AwaitReaper | Snapshot | Drain | TearDown(_) | CloseReturn | Create(_, _) | Enqueue | Publish =>
  }

  lemma AllGrowsFresh(m: Mem, p: Pc, a: Action, h: Id)
    requires Ready(m, p, a) && h in m.heap && h !in m.all
    ensures h !in Region(m, p, a).m.all
  {
    match a
    case TryIdle | ReserveSlot(_) | Build(_) | WaitIdle | Cancel | Begin | Finish | Check(_) | Unlock | Stamp | ReleaseLocked
      | Push | DropLocked | CloseImpl | ReapTick | ReapStop | ReapCount | ReapTake | ReapPutBack | ReapExit | MarkClosed
      | StopReaper | AwaitReaper | Snapshot | Drain | TearDown(_) | CloseReturn | Create(_, _) | Enqueue | Publish =>
  }

  lemma ClockKept(m: Mem, p: Pc, a: Action)
    requires Ready(m, p, a)
    ensures Region(m, p, a).m.now == m.now
  {
    match a
    case TryIdle | ReserveSlot(_) | Build(_) | WaitIdle | Cancel | Begin | Finish | Check(_) | Unlock | Stamp | ReleaseLocked
      | Push | DropLocked | CloseImpl | ReapTick | ReapStop | ReapCount | ReapTake | ReapPutBack | ReapExit | MarkClosed
      | StopReaper | AwaitReaper | Snapshot | Drain | TearDown(_) | CloseReturn | Create(_, _) | Enqueue | Publish =>
  }

  /** No step of any thread makes a holder expired with respect to a time that has passed, nor registers an expired one. */
  lemma StaleStep(s: State, e: Step, now: nat)
    requires Inv(s) && Enabled(s, e) && s.m.cfg.Reaps() && now <= s.m.now
    ensures Stale(Do(s, e).m, now) <= Stale(s.m, now) && now <= Do(s, e).m.now
  {
    if e.Go? {
      var p, a := s.pc[e.t], e.a;
      var u := Region(s.m, p, a).m;
      RegionKeepsCfg(s.m, p, a);
      ClockKept(s.m, p, a);
      forall h | h in Stale(u, now) ensures h in Stale(s.m, now) {
        assert HolderOk(s.m, h);
        hide Region, Inv, HolderOk;
        if h in s.m.heap {
          HolderContinues(s.m, p, a, h);
          if h !in s.m.all {
            AllGrowsFresh(s.m, p, a, h);
          }
        } else {
          FreshlyUsed(s.m, p, a, h);
        }
      }
    }
  }

  /** Whatever the other threads do, a reapIdle that read the clock at now never gets more holders to drop. */
  lemma {:induction false} StaleShrinks(s: State, es: seq<Step>, u: State, now: nat)
    requires Inv(s) && Steps(s, es, u) && s.m.cfg.Reaps() && now <= s.m.now
    ensures Stale(u.m, now) <= Stale(s.m, now)
    decreases |es|
  {
    if es != [] {
      InvStep(s, es[0]);
      StaleStep(s, es[0], now);
      CfgKept(s, es[0]);
      hide Inv, Do, Stale;
      StaleShrinks(Do(s, es[0]), es[1..], u, now);
    }
  }

  // ----- Alone: one pass over the queue

  /** idle and the number of registered holders. */
  datatype Shelf = Shelf(idle: seq<Id>, live: int)

  /** One reapIdle that nothing interrupts, where stale are the holders past their timeout. */
  function Pass(q: Shelf, min: int, stale: set<Id>): Shelf
    decreases |q.idle|
  {
    if q.live <= min || q.idle == [] then q
    else if q.idle[0] !in stale then q.(idle := q.idle[1..] + [q.idle[0]])
    else Pass(Shelf(q.idle[1..], q.live - 1), min, stale)
  }

  /** Consecutive calls, each with what is stale by then. */
  function Passes(q: Shelf, min: int, stales: seq<set<Id>>): Shelf
    decreases |stales|
  {
    if stales == [] then q else Passes(Pass(q, min, stales[0]), min, stales[1..])
  }

  /** If every idle holder has expired, one call goes all the way: down to Min, or until idle is empty. */
  lemma {:induction false} PassDropsAllStale(q: Shelf, min: int, stale: set<Id>)
    requires forall h :: h in q.idle ==> h in stale
    ensures var r := Pass(q, min, stale);
      && r.live == (if q.live <= min then q.live else if q.live - |q.idle| < min then min else q.live - |q.idle|)
      && r.idle == q.idle[q.live - r.live..]
    decreases |q.idle|
  {
    if q.live > min && q.idle != [] {
      var h := q.idle[0];
      assert h in q.idle;
      var next := Shelf(q.idle[1..], q.live - 1);
      PassDropsAllStale(next, min, stale);
      assert Pass(q, min, stale) == Pass(next, min, stale);
      var n := next.live - Pass(next, min, stale).live;
      assert next.idle[n..] == q.idle[n + 1..];
    }
  }

  /**
    What one call does to a queue: it drops a stale prefix, one live holder fewer for each, and if it stops at a holder
    that has not expired it moves that one to the back.
   */
  lemma {:induction false} PassShape(q: Shelf, min: int, stale: set<Id>) returns (k: nat)
    ensures k <= |q.idle| && Pass(q, min, stale).live == q.live - k
    ensures forall i :: 0 <= i < k ==> q.idle[i] in stale
    ensures k > 0 ==> Pass(q, min, stale).live >= min
    ensures var r := Pass(q, min, stale);
      if r.live <= min || k == |q.idle| then r.idle == q.idle[k..]
      else q.idle[k] !in stale && r.idle == q.idle[k + 1..] + [q.idle[k]]
    decreases |q.idle|
  {
    if q.live <= min || q.idle == [] || q.idle[0] !in stale {
      k := 0;
    } else {
      var next := Shelf(q.idle[1..], q.live - 1);
      var j := PassShape(next, min, stale);
      k := j + 1;
      assert forall i :: 0 < i < k ==> q.idle[i] == next.idle[i - 1];
      assert next.idle[j..] == q.idle[k..];
    }
  }

  ghost predicate Growing(stales: seq<set<Id>>) {
    forall i, j :: 0 <= i < j < |stales| ==> stales[i] <= stales[j]
  }

  /** No call drops a holder that is not stale by then. */
  lemma {:induction false} PassesKeepFresh(q: Shelf, min: int, stales: seq<set<Id>>, h: Id)
    requires h in q.idle && forall i :: 0 <= i < |stales| ==> h !in stales[i]
    ensures h in Passes(q, min, stales).idle
    decreases |stales|
  {
    if stales != [] {
      var k := PassShape(q, min, stales[0]);
      var r := Pass(q, min, stales[0]);
      var i :| 0 <= i < |q.idle| && q.idle[i] == h;
      assert i >= k;
      if r.live <= min || k == |q.idle| {
        assert r.idle[i - k] == h;
      } else {
        assert if i == k then r.idle[|r.idle| - 1] == h else r.idle[i - k - 1] == h;
      }
      PassesKeepFresh(r, min, stales[1..], h);
    }
  }

  /** The live count only falls, never below Min, and a pass over a pool at Min changes nothing. */
  lemma {:induction false} PassesStayAboveMin(q: Shelf, min: int, stales: seq<set<Id>>)
    ensures Passes(q, min, stales).live <= q.live
    ensures q.live >= min ==> Passes(q, min, stales).live >= min
    ensures q.live <= min ==> Passes(q, min, stales) == q
    decreases |stales|
  {
    if stales != [] {
      var k := PassShape(q, min, stales[0]);
      PassesStayAboveMin(Pass(q, min, stales[0]), min, stales[1..]);
    }
  }

  /**
    Completeness in spite of the rotation: as many calls as there were idle holders drop every holder that had already
    expired at the first call, unless the live count reached Min first. The queue is the not yet visited part of the
    original one, followed by holders that had not expired at the first call.
   */
  lemma {:induction false} PassesComplete(
      unseen: seq<Id>, seen: seq<Id>, live: int, min: int, stales: seq<set<Id>>, first: set<Id>)
    requires |stales| >= |unseen| && forall i :: 0 <= i < |stales| ==> first <= stales[i]
    requires forall h :: h in seen ==> h !in first
    ensures var r := Passes(Shelf(unseen + seen, live), min, stales);
      r.live > min ==> forall h :: h in r.idle ==> h !in first
    decreases |stales|
  {
    var q := Shelf(unseen + seen, live);
    if stales == [] {
      assert unseen + seen == seen;
    } else {
      var k := PassShape(q, min, stales[0]);
      var r := Pass(q, min, stales[0]);
      PassesStayAboveMin(r, min, stales[1..]);
      if r.live > min {
        if k == |q.idle| {
          assert r.idle == [] + [];
          PassesComplete([], [], r.live, min, stales[1..], first);
        } else if k < |unseen| {
          assert q.idle[k] == unseen[k];
          assert r.idle == unseen[k + 1..] + (seen + [unseen[k]]);
          PassesComplete(unseen[k + 1..], seen + [unseen[k]], r.live, min, stales[1..], first);
        } else {
          var j := k - |unseen|;
          assert q.idle[k] == seen[j];
          assert r.idle == [] + (seen[j + 1..] + [seen[j]]);
          PassesComplete([], seen[j + 1..] + [seen[j]], r.live, min, stales[1..], first);
        }
      }
    }
  }

  lemma ReaperComplete(q: Shelf, min: int, stales: seq<set<Id>>)
    requires |stales| >= |q.idle| && |stales| > 0 && Growing(stales)
    ensures Passes(q, min, stales).live > min ==> forall h :: h in Passes(q, min, stales).idle ==> h !in stales[0]
  {
    assert q == Shelf(q.idle + [], q.live);
    PassesComplete(q.idle, [], q.live, min, stales, stales[0]);
  }

  /** What has expired of m's holders at each of a sequence of ticks, the first gaps[0] after now. */
  function Rounds(m: Mem, now: nat, gaps: seq<nat>): seq<set<Id>>
    decreases |gaps|
  {
    if gaps == [] then [] else [Stale(m, now + gaps[0])] + Rounds(m, now + gaps[0], gaps[1..])
  }

  /** The time after all these gaps. */
  function TimeAfter(now: nat, gaps: seq<nat>): nat
    decreases |gaps|
  {
    if gaps == [] then now else TimeAfter(now + gaps[0], gaps[1..])
  }

  lemma {:induction false} RoundsSnoc(m: Mem, now: nat, gaps: seq<nat>, g: nat)
    ensures TimeAfter(now, gaps + [g]) == TimeAfter(now, gaps) + g
    ensures Rounds(m, now, gaps + [g]) == Rounds(m, now, gaps) + [Stale(m, TimeAfter(now, gaps) + g)]
    decreases |gaps|
  {
    if gaps == [] {
      assert gaps + [g] == [g] && [g][1..] == [];
      assert Rounds(m, now + g, [g][1..]) == [];
    } else {
      RoundsSnoc(m, now + gaps[0], gaps[1..], g);
      assert (gaps + [g])[1..] == gaps[1..] + [g];
    }
  }

  lemma {:induction false} PassesSnoc(q: Shelf, min: int, stales: seq<set<Id>>, stale: set<Id>)
    ensures Passes(q, min, stales + [stale]) == Pass(Passes(q, min, stales), min, stale)
    decreases |stales|
  {
    if stales == [] {
      assert stales + [stale] == [stale] && [stale][1..] == [];
      assert Passes(Pass(q, min, stale), min, [stale][1..]) == Pass(q, min, stale);
    } else {
      PassesSnoc(Pass(q, min, stales[0]), min, stales[1..], stale);
      assert (stales + [stale])[1..] == stales[1..] + [stale];
    }
  }

  lemma {:induction false} RoundsGrow(m: Mem, now: nat, gaps: seq<nat>)
    ensures |Rounds(m, now, gaps)| == |gaps| && Growing(Rounds(m, now, gaps))
    ensures forall i :: 0 <= i < |gaps| ==> Stale(m, now) <= Rounds(m, now, gaps)[i]
    decreases |gaps|
  {
    if gaps != [] {
      var r := Rounds(m, now + gaps[0], gaps[1..]);
      RoundsGrow(m, now + gaps[0], gaps[1..]);
      assert forall i :: 0 < i < |gaps| ==> Rounds(m, now, gaps)[i] == r[i - 1];
    }
  }

  /** A pass depends only on which of the idle holders are stale. */
  lemma {:induction false} PassAgrees(q: Shelf, min: int, stale: set<Id>, other: set<Id>)
    requires forall h :: h in q.idle ==> (h in stale <==> h in other)
    ensures Pass(q, min, stale) == Pass(q, min, other)
    decreases |q.idle|
  {
    if q.live > min && q.idle != [] {
      var h := q.idle[0];
      assert h in q.idle;
      if q.idle[0] in stale {
        PassAgrees(Shelf(q.idle[1..], q.live - 1), min, stale, other);
      }
    }
  }

  /** How many holders at the head of the queue are stale. */
  function Leading(q: seq<Id>, stale: set<Id>): (n: nat)
    ensures n <= |q| && (forall i :: 0 <= i < n ==> q[i] in stale) && (n < |q| ==> q[n] !in stale)
  {
    if q == [] || q[0] !in stale then 0 else 1 + Leading(q[1..], stale)
  }

  /** Nothing stale is behind a holder that is not. */
  predicate StaleFirst(q: seq<Id>, stale: set<Id>) {
    forall i, j :: 0 <= i < j < |q| && q[j] in stale ==> q[i] in stale
  }

  /** A call has done all it is for: everything stale is gone, or Min is reached. */
  predicate Complete(q: Shelf, min: int, stale: set<Id>) {
    Pass(q, min, stale).live <= min || forall h :: h in Pass(q, min, stale).idle ==> h !in stale
  }

  lemma {:induction false} PassLive(q: Shelf, min: int, stale: set<Id>)
    ensures Pass(q, min, stale).live <= min <==> q.live - Leading(q.idle, stale) <= min
    decreases |q.idle|
  {
    if q.live > min && q.idle != [] && q.idle[0] in stale {
      PassLive(Shelf(q.idle[1..], q.live - 1), min, stale);
    }
  }

  /**
    One call is complete exactly if the stale holders stand together at the head of the queue, or enough of them do to
    come down to Min.
   */
  lemma PassCompleteIff(q: Shelf, min: int, stale: set<Id>)
    ensures Complete(q, min, stale) <==> StaleFirst(q.idle, stale) || q.live - Leading(q.idle, stale) <= min
  {
    PassLive(q, min, stale);
    var k := PassShape(q, min, stale);
    var r := Pass(q, min, stale);
    if r.live > min {
      if k < |q.idle| {
        assert r.idle[|r.idle| - 1] == q.idle[k];
        if StaleFirst(q.idle, stale) {
          forall h | h in r.idle ensures h !in stale {
            var j :| 0 <= j < |r.idle| && r.idle[j] == h;
            assert h == q.idle[if j < |r.idle| - 1 then k + 1 + j else k];
          }
        } else {
          var i, j :| 0 <= i < j < |q.idle| && q.idle[j] in stale && q.idle[i] !in stale;
          assert r.idle[j - k - 1] == q.idle[j];
        }
      }
    }
  }
}
