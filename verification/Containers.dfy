/** How many backend containers are up: Max counts registered holders, and drop and release unregister before they close. */
module Containers {
  import opened Protocol
  import opened Invariants
  import opened Ownership

  /** The holders whose impl exists and has not been closed. */
  function Up(m: Mem): set<Id> {
    set h | h in m.heap && m.heap[h].built && Closes(m, h) == 0
  }

  /** t has unregistered its holder and is about to close it. */
  predicate IsClosing(p: Pc) {
    p.Has? && p.w.Closing?
  }

  function Closing(s: State): set<Tid> {
    set t | t in s.pc && IsClosing(s.pc[t])
  }

  function Building(s: State): set<Tid> {
    set t | t in s.pc && IsBuilding(s.pc[t])
  }

  function HoldersOf(s: State, ts: set<Tid>): set<Id>
    requires forall t :: t in ts ==> t in s.pc && s.pc[t].Has?
  {
    set t | t in ts :: s.pc[t].h
  }

  /** As many holders as threads, if different threads have different ones. */
  lemma {:induction false} OneEach(s: State, ts: set<Tid>)
    requires forall t :: t in ts ==> t in s.pc && s.pc[t].Has?
    requires forall t, u :: t in ts && u in ts && t != u ==> s.pc[t].h != s.pc[u].h
    ensures |HoldersOf(s, ts)| == |ts|
    decreases |ts|
  {
    if ts == {} {
      assert HoldersOf(s, ts) == {};
    } else {
      var t := Pick(ts);
      var rest := ts - {t};
      OneEach(s, rest);
      assert HoldersOf(s, ts) == HoldersOf(s, rest) + {s.pc[t].h};
    }
  }

  lemma TheirOwn(s: State, ts: set<Tid>)
    requires Inv(s) && forall t :: t in ts ==> t in s.pc && s.pc[t].Has?
    ensures |HoldersOf(s, ts)| == |ts|
  {
    forall t, u | t in ts && u in ts && t != u ensures s.pc[t].h != s.pc[u].h {
      assert Apart(s.pc[t], s.pc[u]);
    }
    OneEach(s, ts);
  }

  // ----- Until Close takes its snapshot

  /** An impl that exists is unclosed exactly if its holder is registered or somebody is about to close it. */
  lemma UpIff(s: State, h: Id)
    requires Reachable(s) && s.m.log.snap.None? && h in s.m.heap && s.m.heap[h].built
    ensures Closes(s.m, h) == 0 <==> h in s.m.all || exists t :: t in s.pc && IsClosing(s.pc[t]) && s.pc[t].h == h
  {
    ReachableInv(s);
    assert HolderOk(s.m, h);
    if h in s.m.all {
      if h !in s.m.idle {
        assert Due(s.m, Hold(h));
        var t :| t in s.pc && Bears(s.pc[t], Hold(h));
        assert Carries(s.m, s.pc[t]);
      }
    } else if Closes(s.m, h) == 0 {
      assert Due(s.m, CloseOnce(h));
      var t :| t in s.pc && Bears(s.pc[t], CloseOnce(h));
      assert IsClosing(s.pc[t]);
    }
    forall t | t in s.pc && IsClosing(s.pc[t]) && s.pc[t].h == h ensures Closes(s.m, h) == 0 {
      assert Carries(s.m, s.pc[t]);
    }
  }

  /** A registered holder without impl is exactly one that some acquire is building. */
  lemma UnbuiltIff(s: State, h: Id)
    requires Reachable(s) && s.m.log.snap.None?
    ensures h in s.m.all && h in s.m.heap && !s.m.heap[h].built <==> h in HoldersOf(s, Building(s))
    ensures h in s.m.all ==> h in s.m.heap
  {
    ReachableInv(s);
    assert HolderOk(s.m, h);
    if h in s.m.all && !s.m.heap[h].built {
      assert Due(s.m, Hold(h));
      var t :| t in s.pc && Bears(s.pc[t], Hold(h));
      assert Carries(s.m, s.pc[t]);
      assert t in Building(s);
    }
    if h in HoldersOf(s, Building(s)) {
      var t :| t in Building(s) && s.pc[t].h == h;
      assert Carries(s.m, s.pc[t]);
    }
  }

  lemma ClosingUnregistered(s: State)
    requires Reachable(s)
    ensures HoldersOf(s, Closing(s)) !! s.m.all
    ensures forall h :: h in HoldersOf(s, Closing(s)) ==> h in s.m.heap && s.m.heap[h].built
  {
    ReachableInv(s);
    forall t | t in Closing(s) ensures s.pc[t].h !in s.m.all && s.pc[t].h in s.m.heap && s.m.heap[s.pc[t].h].built {
      assert Carries(s.m, s.pc[t]);
    }
  }

  lemma UpSets(s: State)
    requires Reachable(s) && s.m.log.snap.None?
    ensures Up(s.m) + HoldersOf(s, Building(s)) == s.m.all + HoldersOf(s, Closing(s))
    ensures Up(s.m) !! HoldersOf(s, Building(s))
  {
    ClosingUnregistered(s);
    forall h ensures h in Up(s.m) + HoldersOf(s, Building(s)) <==> h in s.m.all + HoldersOf(s, Closing(s)) {
      UnbuiltIff(s, h);
      if h in s.m.heap && s.m.heap[h].built {
        UpIff(s, h);
        assert forall t :: t in Closing(s) <==> t in s.pc && IsClosing(s.pc[t]);
      }
    }
    forall h | h in HoldersOf(s, Building(s)) ensures h !in Up(s.m) {
      UnbuiltIff(s, h);
    }
  }

  /**
    The containers that are up are the registered ones without the reservations being built, and those about to be
    closed. So they outnumber Max exactly if more closes are under way than there are free slots and reservations.
   */
  lemma UpCounted(s: State)
    requires Reachable(s) && s.m.log.snap.None?
    ensures |Up(s.m)| + |Building(s)| == |s.m.all| + |Closing(s)|
    ensures |s.m.all| <= s.m.cfg.max
    ensures |Up(s.m)| > s.m.cfg.max <==> |Closing(s)| > s.m.cfg.max - |s.m.all| + |Building(s)|
  {
    ReachableInv(s);
    RegistryBounded(s);
    var up, closing, building := Up(s.m), HoldersOf(s, Closing(s)), HoldersOf(s, Building(s));
    TheirOwn(s, Closing(s));
    TheirOwn(s, Building(s));
    ClosingUnregistered(s);
    UpSets(s);
    assert |up + building| == |up| + |building| && |s.m.all + closing| == |s.m.all| + |closing|;
  }

  lemma RegistryBounded(s: State)
    requires Inv(s)
    ensures |s.m.all| <= s.m.cfg.max
  {
    if s.m.closed {
      forall h | h in s.m.all ensures h in s.m.log.atClose {
        assert HolderOk(s.m, h);
      }
      SubsetSize(s.m.all, s.m.log.atClose);
    }
  }

  // ----- After the snapshot

  /** Those who are about to close a holder that Close did not snapshot. */
  function ClosingOther(s: State): set<Tid> {
    set t | t in s.pc && IsClosing(s.pc[t]) && !Registered(s.m, s.pc[t].h)
  }

  /** Why the impl of a snapshotted holder that Close has not reached is still up. */
  ghost predicate NotReleased(s: State, h: Id) {
    || h in s.m.idle || h in s.m.log.drained || (h in s.m.heap && s.m.heap[h].dead)
    || exists t :: t in s.pc && s.pc[t].Has? && s.pc[t].h == h
  }

  /**
    A holder that Close did not snapshot is up exactly if somebody is about to close it. One that it did is up exactly
    if Close has not reached it and it is idle, was drained, has died, or some thread has it: release has not closed it.
   */
  lemma UpAfter(s: State, h: Id)
    requires Reachable(s) && s.m.log.snap.Some? && h in s.m.heap && s.m.heap[h].built
    ensures h !in s.m.log.snap.value ==>
      (Closes(s.m, h) == 0 <==> exists t :: t in s.pc && IsClosing(s.pc[t]) && s.pc[t].h == h)
    ensures h in s.m.log.snap.value ==> (Closes(s.m, h) == 0 <==> h !in s.m.log.torn && NotReleased(s, h))
  {
    ReachableInv(s);
    assert HolderOk(s.m, h);
    if Closes(s.m, h) == 0 {
      if h !in s.m.log.snap.value {
        assert Due(s.m, CloseOnce(h));
        var t :| t in s.pc && Bears(s.pc[t], CloseOnce(h));
        assert IsClosing(s.pc[t]);
      } else if h !in s.m.idle && h !in s.m.log.drained && !s.m.heap[h].dead {
        assert Due(s.m, Keep(h));
        var t :| t in s.pc && Bears(s.pc[t], Keep(h));
      }
    }
    forall t | t in s.pc && s.pc[t].Has? && s.pc[t].h == h ensures s.m.heap[h].ownerCloses == 0 {
      assert Carries(s.m, s.pc[t]);
    }
  }

  /** The containers still up are at most those Close has yet to reach, and those about to be closed by someone else. */
  lemma UpBoundedAfter(s: State)
    requires Reachable(s) && s.m.log.snap.Some?
    ensures |Up(s.m)| <= |s.m.log.snap.value - s.m.log.torn| + |ClosingOther(s)|
    ensures |s.m.log.snap.value| <= s.m.cfg.max
    ensures |Up(s.m)| <= s.m.cfg.max + |ClosingOther(s)|
  {
    ReachableInv(s);
    var left, others := s.m.log.snap.value - s.m.log.torn, HoldersOf(s, ClosingOther(s));
    forall h | h in s.m.log.snap.value ensures h in s.m.log.atClose {
      assert HolderOk(s.m, h);
    }
    SubsetSize(s.m.log.snap.value, s.m.log.atClose);
    SubsetSize(left, s.m.log.snap.value);
    forall h | h in Up(s.m) ensures h in left + others {
      UpAfter(s, h);
      if h !in s.m.log.snap.value {
        var t :| t in s.pc && IsClosing(s.pc[t]) && s.pc[t].h == h;
        assert t in ClosingOther(s);
      }
    }
    TheirOwn(s, ClosingOther(s));
    SubsetSize(Up(s.m), left + others);
  }
}
