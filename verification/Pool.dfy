/**
  The Pool object: pool.go's methods as code over its fields, with the other goroutines running in between.

  Between two atomic regions of a method, Interfere lets the other goroutines take whatever steps the schedule field
  says; the schedule is arbitrary, so what the methods promise holds for every interleaving. An empty schedule means
  that nothing else runs. Methods are about executions in which the process survives: Interfere skips a step of another
  goroutine that would panic, and Close reports its own panic.
 */
module PoolObject {
  import opened Wrappers
  import opened Configs
  import opened Protocol
  import opened Invariants
  import opened Ownership
  import opened Shutdown
  import opened Reaping
  import opened Interference
  import opened Construction
  import opened Deeds

  datatype Reservation = Rejected | Slot | Full

  datatype CloseResult = AlreadyClosed | Done | Crashed(h: Id)

  datatype RunResult = NoHolder | Died(h: Id) | Finished(h: Id)

  datatype NewPoolError = UserNotSet | BadConfig(error: ConfigError) | CreateFailed

  class Pool {
    const cfg: Config
    // the struct's fields
    var all: set<Id>
    var idle: seq<Id>
    var closed: bool
    var reaperStop: bool
    var reaperDone: bool
    // the rest of the process: holders by address, the clock, where every goroutine stands, whether NewPool has
    // returned the pool, and the history
    var heap: map<Id, Holder>
    var clock: nat
    var threads: map<Tid, Pc>
    var published: bool
    var log: Log
    // what the other goroutines do before this one's next atomic regions
    var sched: seq<seq<Step>>
    // every step so far, of all goroutines
    ghost var trace: seq<Step>

    function View(): State
      reads this
    {
      State(Mem(cfg, clock, all, idle, closed, reaperStop, reaperDone, heap, published, None, log), threads)
    }

    ghost predicate Valid()
      reads this
    {
      Reachable(View()) && Steps(Init(cfg), trace, View())
    }

    /** What t has done so far. */
    ghost function Acts(t: Tid): seq<Deed>
      reads this`trace
    {
      DeedsOf(Init(cfg), trace, t)
    }

    /** pool.go:109-128: an empty pool; the reaper goroutine is started, or reaperDone closed at once. */
    constructor (c: Config, schedule: seq<seq<Step>>)
      requires c.Normal()
      ensures Valid() && View() == Init(c) && sched == schedule
    {
      cfg := c;
      all, idle, closed := {}, [], false;
      reaperStop, reaperDone := false, !c.Reaps();
      heap, clock, published := map[], 0, false;
      threads := if c.Reaps() then map[CTOR := Filling(0), REAPER := Sleeping] else map[CTOR := Filling(0)];
      log := Log(0, 0, {}, None, {}, {}, []);
      sched := schedule;
      trace := [];
      new;
      LeadsRefl(Init(c));
    }

    /** Takes over what a step of another goroutine leaves behind. */
    method Adopt(u: State)
      requires u.m.cfg == cfg && u.m.panic.None?
      modifies this
      ensures View() == u && sched == old(sched) && trace == old(trace)
    {
      all, idle, closed, reaperStop, reaperDone := u.m.all, u.m.idle, u.m.closed, u.m.stop, u.m.done;
      heap, clock, published, log := u.m.heap, u.m.now, u.m.published, u.m.log;
      threads := u.pc;
    }

    /** For every tick so far, whether the reaper had been told to stop by then. */
    ghost function Told(): seq<bool>
      reads this`trace
    {
      ToldOf(Init(cfg), trace)
    }

    /** The run that began in s0 is still under way. */
    ghost predicate RunOf(s0: State)
      reads this
    {
      Valid() && Leads(s0, View())
    }

    lemma Begun()
      requires Valid()
      ensures RunOf(View())
    {
      LeadsRefl(View());
    }

    lemma Ended(s0: State)
      requires RunOf(s0)
      ensures Valid() && Leads(s0, View())
    {
    }

    lemma Joined(s0: State, v: State)
      requires Leads(s0, v) && Valid() && Leads(v, View())
      ensures RunOf(s0)
    {
      LeadsTrans(s0, v, View());
    }

    /** A step has been taken. */
    ghost method Record(s0: State, v: State, e: Step)
      requires Reachable(v) && Leads(s0, v) && v.m.cfg == cfg && Steps(Init(cfg), trace, v)
      requires Enabled(v, e) && View() == Do(v, e)
      modifies this`trace
      ensures RunOf(s0)
      ensures forall t :: Acts(t) == old(Acts(t)) + Share(v, e, t)
      ensures Told() == old(Told()) + TickShare(v, e)
    {
      forall t ensures DeedsOf(Init(cfg), trace + [e], t) == DeedsOf(Init(cfg), trace, t) + Share(v, e, t) {
        DeedsAppend(Init(cfg), trace, v, e, t);
      }
      DeedsAppend(Init(cfg), trace, v, e, 0);
      ToldAppend(Init(cfg), trace, v, e);
      trace := trace + [e];
      Advance(s0, v, e, View());
    }

    /** Lets the other goroutines run. What me has locked stays as it is, apart from Close's count. */
    method Interfere(me: Tid, ghost s0: State)
      requires RunOf(s0) && me in threads
      modifies this
      ensures RunOf(s0) && Meanwhile(old(View()), me, View())
      ensures me in threads && threads[me] == old(threads)[me]
      ensures threads[me].Has? && Locks(threads[me]) ==>
        var h := threads[me].h; h in old(heap) && h in heap && heap[h] == old(heap)[h].(teardowns := heap[h].teardowns)
      ensures sched == (if old(sched) == [] then [] else old(sched)[1..]) && Acts(me) == old(Acts(me))
      ensures old(sched) != [] ==> View() == Play(old(View()), old(sched)[0], me)
      ensures me == REAPER ==> Told() == old(Told())
      ensures old(sched) == [] ==>
        && all == old(all) && idle == old(idle) && closed == old(closed)
        && reaperStop == old(reaperStop) && reaperDone == old(reaperDone)
        && heap == old(heap) && clock == old(clock) && threads == old(threads) && log == old(log)
    {
      ghost var v := View();
      MeanwhileRefl(v, me);
      if sched != [] {
        var steps := sched[0];
        var rest := sched[1..];
        var i := 0;
        while i < |steps|
          invariant 0 <= i <= |steps| && sched == old(sched)
          invariant Valid() && Meanwhile(v, me, View()) && Acts(me) == old(Acts(me))
          invariant me == REAPER ==> Told() == old(Told())
          invariant Play(v, steps, me) == Play(View(), steps[i..], me)
          invariant me in threads && threads[me] == v.pc[me]
        {
          OneOther(me, steps[i], v);
          assert steps[i..][1..] == steps[i + 1..];
          i := i + 1;
        }
        sched := rest;
      }
      Resume(s0, v, me, View());
    }

    /** One step of another goroutine, if it is possible now and does not end the process. */
    method OneOther(me: Tid, e: Step, ghost v: State)
      requires Valid() && me in threads && Meanwhile(v, me, View())
      modifies this
      ensures Valid() && Meanwhile(v, me, View())
      ensures me in threads && threads[me] == old(threads)[me] && sched == old(sched) && Acts(me) == old(Acts(me))
      ensures View() == if Playable(old(View()), e, me) then Do(old(View()), e) else old(View())
      ensures me == REAPER ==> Told() == old(Told())
    {
      if Enabled(View(), e) && Actor(e) != Some(me) {
        var u := Do(View(), e);
        if u.m.panic.None? {
          CfgKept(View(), e);
          StandsStill(View(), e, me);
          ReachableStep(View(), e);
          MeanwhileStep(v, me, View(), e);
          DeedsAppend(Init(cfg), trace, View(), e, me);
          ToldAppend(Init(cfg), trace, View(), e);
          Adopt(u);
          trace := trace + [e];
        }
      }
    }

    // ----- drop

    method Unregister(me: Tid, h: Id, from: Caller, ghost s0: State) returns (present: bool)
      requires RunOf(s0) && me in threads && threads[me] == Has(h, Dropping(from))
      modifies this`all, this`threads, this`log, this`trace
      ensures RunOf(s0)
      ensures present == (h in old(all)) && all == old(all) - {h}
      ensures threads == old(threads)[me := if present then Has(h, Closing(from)) else After(h, from)]
      ensures h !in idle && h in heap && heap[h].ownerCloses == 0
      ensures !present ==> log.snap.Some? && h in log.snap.value
      ensures Acts(me) == old(Acts(me)) + [Deed(old(threads)[me], DropLocked)]
      ensures Told() == old(Told())
    {
      hide Carries, Acts, Told, Leads, Reachable;
      ghost var v := View();
      DropFacts(v, me);
      present := h in all;
      all := all - {h};
      if from.ByRun? {
        log := log.(deaths := log.deaths + 1);
      }
      threads := threads[me := if present then Has(h, Closing(from)) else After(h, from)];
      Record(s0, v, Go(me, DropLocked));
    }

    /** impl.close, called by the thread that unregistered the holder. */
    method CloseImplOf(me: Tid, h: Id, from: Caller, ghost s0: State)
      requires RunOf(s0) && me in threads && threads[me] == Has(h, Closing(from))
      modifies this`heap, this`threads, this`trace
      ensures RunOf(s0)
      ensures h in old(heap) && old(heap)[h].ownerCloses == 0 && h !in idle && h !in all
      ensures heap == old(heap)[h := old(heap)[h].(ownerCloses := 1)]
      ensures threads == old(threads)[me := After(h, from)]
      ensures Acts(me) == old(Acts(me)) + [Deed(old(threads)[me], CloseImpl)]
      ensures Told() == old(Told())
    {
      hide Acts, Told, Leads, Reachable;
      ghost var v := View();
      Mine(v, me);
      heap := heap[h := heap[h].(ownerCloses := heap[h].ownerCloses + 1)];
      threads := threads[me := After(h, from)];
      Record(s0, v, Go(me, CloseImpl));
    }

    /** Pool.drop: unregisters h, and closes it unless Close has taken over that duty. */
    method Drop(me: Tid, h: Id, from: Caller, ghost s0: State) returns (ghost present: bool)
      requires RunOf(s0) && me in threads && threads[me] == Has(h, Dropping(from))
      modifies this
      ensures RunOf(s0)
      ensures me in threads && threads[me] == After(h, from)
      ensures h !in all && h !in idle && h in heap
      ensures heap[h].ownerCloses == 1 || (log.snap.Some? && h in log.snap.value)
      ensures |sched| <= |old(sched)|
      ensures old(sched) == [] ==>
        && sched == [] && reaperStop == old(reaperStop)
        && all == old(all) - {h} && idle == old(idle) && closed == old(closed) && clock == old(clock)
        && threads == old(threads)[me := After(h, from)] && h in old(heap)
        && heap == old(heap)[h := old(heap)[h].(ownerCloses := if h in old(all) then 1 else 0)]
      ensures Acts(me) == old(Acts(me)) + DropDeeds(h, from, present)
      ensures me == REAPER ==> Told() == old(Told())
    {
      hide RunOf, Meanwhile, Acts, Told;
      var here := Unregister(me, h, from, s0);
      present := here;
      if here {
        Interfere(me, s0);
        CloseImplOf(me, h, from, s0);
      }
    }

    // ----- release

    method StampUse(me: Tid, h: Id, ghost s0: State)
      requires RunOf(s0) && me in threads && threads[me] == Has(h, Stamping)
      modifies this`heap, this`threads, this`trace
      ensures RunOf(s0)
      ensures h in old(heap) && heap == old(heap)[h := old(heap)[h].(lastUsed := clock)]
      ensures threads == old(threads)[me := Has(h, Releasing)]
      ensures Acts(me) == old(Acts(me)) + [Deed(old(threads)[me], Stamp)]
    {
      hide Acts, Told, Leads, Reachable;
      ghost var v := View();
      Mine(v, me);
      heap := heap[h := heap[h].(lastUsed := clock)];
      threads := threads[me := Has(h, Releasing)];
      Record(s0, v, Go(me, Stamp));
    }

    method CheckClosed(me: Tid, h: Id, ghost s0: State) returns (wasClosed: bool)
      requires RunOf(s0) && me in threads && threads[me] == Has(h, Releasing)
      modifies this`all, this`threads, this`trace
      ensures RunOf(s0)
      ensures wasClosed == closed && all == (if wasClosed then old(all) - {h} else old(all))
      ensures threads == old(threads)[me := if wasClosed then Has(h, Closing(ByRun)) else Has(h, Pushing)]
      ensures Acts(me) == old(Acts(me)) + [Deed(old(threads)[me], ReleaseLocked)]
    {
      hide Acts, Told, Leads, Reachable;
      ghost var v := View();
      wasClosed := closed;
      if wasClosed {
        all := all - {h};
        threads := threads[me := Has(h, Closing(ByRun))];
      } else {
        threads := threads[me := Has(h, Pushing)];
      }
      Record(s0, v, Go(me, ReleaseLocked));
    }

    method Send(me: Tid, h: Id, ghost s0: State)
      requires RunOf(s0) && me in threads && threads[me] == Has(h, Pushing)
      modifies this`idle, this`threads, this`trace
      ensures RunOf(s0)
      ensures idle == old(idle) + [h] && threads == old(threads)[me := Unlocking(h)]
      ensures Acts(me) == old(Acts(me)) + [Deed(old(threads)[me], Push)]
    {
      hide Acts, Told, Leads, Reachable;
      ghost var v := View();
      Mine(v, me);
      idle := idle + [h];
      threads := threads[me := Unlocking(h)];
      Record(s0, v, Go(me, Push));
    }

    /** The locked test of closed, and the send or the teardown after it. */
    method SendOrClose(me: Tid, h: Id, ghost s0: State) returns (pushed: bool)
      requires RunOf(s0) && me in threads && threads[me] == Has(h, Releasing)
      modifies this
      ensures RunOf(s0) && pushed == !old(closed)
      ensures me in threads && threads[me] == Unlocking(h)
      ensures pushed ==> |idle| > 0 && idle[|idle| - 1] == h
      ensures !pushed ==> h !in all && h !in idle && h in heap && heap[h].ownerCloses == 1
      ensures |sched| <= |old(sched)|
      ensures old(sched) == [] ==>
        && sched == [] && closed == old(closed) && clock == old(clock)
        && threads == old(threads)[me := Unlocking(h)]
        && idle == (if pushed then old(idle) + [h] else old(idle)) && all == (if pushed then old(all) else old(all) - {h})
        && (pushed ==> heap == old(heap))
        && (!pushed ==> h in old(heap) && heap == old(heap)[h := old(heap)[h].(ownerCloses := 1)])
      ensures Acts(me) == old(Acts(me)) + ReleaseDeeds(h, pushed)[1..]
    {
      hide RunOf, Meanwhile, Acts, Told;
      var wasClosed := CheckClosed(me, h, s0);
      Interfere(me, s0);
      if wasClosed {
        CloseImplOf(me, h, ByRun, s0);
      } else {
        Send(me, h, s0);
      }
      pushed := !wasClosed;
    }

    /** Pool.release: back to idle, or closed if Close has begun. */
    method GiveBack(me: Tid, h: Id, ghost s0: State) returns (pushed: bool)
      requires RunOf(s0) && me in threads && threads[me] == Has(h, Stamping)
      modifies this
      ensures RunOf(s0)
      ensures me in threads && threads[me] == Unlocking(h)
      ensures pushed ==> |idle| > 0 && idle[|idle| - 1] == h
      ensures !pushed ==> h !in all && h !in idle && h in heap && heap[h].ownerCloses == 1
      ensures |sched| <= |old(sched)|
      ensures old(sched) == [] ==>
        && sched == [] && closed == old(closed) && pushed == !closed && clock == old(clock)
        && threads == old(threads)[me := Unlocking(h)] && h in old(heap)
        && idle == (if pushed then old(idle) + [h] else old(idle)) && all == (if pushed then old(all) else old(all) - {h})
        && var x := old(heap)[h].(lastUsed := clock);
           heap == old(heap)[h := if pushed then x else x.(ownerCloses := 1)]
      ensures Acts(me) == old(Acts(me)) + ReleaseDeeds(h, pushed)
    {
      hide RunOf, Meanwhile, Acts, Told;
      StampUse(me, h, s0);
      Interfere(me, s0);
      pushed := SendOrClose(me, h, s0);
    }

    // ----- reapIdle

    method ReadClock(ghost s0: State) returns (now: nat)
      requires RunOf(s0) && REAPER in threads && threads[REAPER] == Sleeping
      modifies this`threads, this`trace
      ensures RunOf(s0) && now == clock && threads == old(threads)[REAPER := Counting(now)]
      ensures Acts(REAPER) == old(Acts(REAPER)) + [Deed(old(threads)[REAPER], ReapTick)]
      ensures Told() == old(Told()) + [reaperStop]
    {
      hide Acts, Told, Leads, Reachable;
      ghost var v := View();
      now := clock;
      threads := threads[REAPER := Counting(now)];
      Record(s0, v, Go(REAPER, ReapTick));
    }

    method CountLive(now: nat, ghost s0: State) returns (enough: bool)
      requires RunOf(s0) && REAPER in threads && threads[REAPER] == Counting(now)
      modifies this`threads, this`trace
      ensures RunOf(s0) && enough == (|all| <= cfg.min)
      ensures threads == old(threads)[REAPER := if enough then Sleeping else Taking(now)]
      ensures Acts(REAPER) == old(Acts(REAPER)) + [Deed(old(threads)[REAPER], ReapCount)]
      ensures Told() == old(Told())
    {
      hide Acts, Told, Leads, Reachable;
      ghost var v := View();
      enough := |all| <= cfg.min;
      threads := threads[REAPER := if enough then Sleeping else Taking(now)];
      Record(s0, v, Go(REAPER, ReapCount));
    }

    /** Takes the longest waiting holder, if any, and looks at its age. */
    method TakeOldest(now: nat, ghost s0: State) returns (h: Option<Id>, expired: bool)
      requires RunOf(s0) && REAPER in threads && threads[REAPER] == Taking(now)
      modifies this`idle, this`threads, this`trace
      ensures RunOf(s0) && (h.Some? <==> |old(idle)| > 0)
      ensures h.None? ==> idle == old(idle) && threads == old(threads)[REAPER := Sleeping]
      ensures h.Some? ==>
        && h.value == old(idle)[0] && idle == old(idle)[1..] && h.value in heap && h.value in all
        && (expired <==> now - heap[h.value].lastUsed >= cfg.idleTimeout)
        && threads == old(threads)[REAPER := if expired then Has(h.value, Dropping(ByReaper(now))) else Has(h.value, PuttingBack)]
      ensures Acts(REAPER) == old(Acts(REAPER)) + [Deed(old(threads)[REAPER], ReapTake)]
      ensures Told() == old(Told())
    {
      hide Acts, Told, Leads, Reachable;
      ghost var v := View();
      ReaperAlive(v);
      if |idle| == 0 {
        threads := threads[REAPER := Sleeping];
        h, expired := None, false;
      } else {
        Head(v);
        var x := idle[0];
        idle := idle[1..];
        expired := now - heap[x].lastUsed >= cfg.idleTimeout;
        threads := threads[REAPER := if expired then Has(x, Dropping(ByReaper(now))) else Has(x, PuttingBack)];
        h := Some(x);
      }
      Record(s0, v, Go(REAPER, ReapTake));
    }

    method PutBack(h: Id, ghost s0: State)
      requires RunOf(s0) && REAPER in threads && threads[REAPER] == Has(h, PuttingBack)
      modifies this`idle, this`threads, this`trace
      ensures RunOf(s0) && idle == old(idle) + [h] && threads == old(threads)[REAPER := Sleeping]
      ensures Acts(REAPER) == old(Acts(REAPER)) + [Deed(old(threads)[REAPER], ReapPutBack)]
      ensures Told() == old(Told())
    {
      hide Acts, Told, Leads, Reachable;
      ghost var v := View();
      Mine(v, REAPER);
      idle := idle + [h];
      threads := threads[REAPER := Sleeping];
      Record(s0, v, Go(REAPER, ReapPutBack));
    }

    /** From m0 to m by one iteration of reapIdle's loop without interference. */
    static ghost predicate Turned(m0: Mem, m: Mem, now: nat, more: bool, dropped: Id) {
      if |m0.all| <= m0.cfg.min
      then !more && m.cfg == m0.cfg && m.idle == m0.idle && m.all == m0.all && m.heap == m0.heap
      else Judged(m0, m, now, more, dropped)
    }

    /** The part of an iteration after the look at the live count. */
    static ghost predicate Judged(m0: Mem, m: Mem, now: nat, more: bool, dropped: Id) {
      && m.cfg == m0.cfg
      && if more then
        && |m0.idle| > 0 && dropped == m0.idle[0] && m.idle == m0.idle[1..]
        && dropped in Stale(m0, now) && m.all == m0.all - {dropped}
        && exists closes :: m.heap == m0.heap[dropped := m0.heap[dropped].(ownerCloses := closes)]
      else
        && m.all == m0.all && m.heap == m0.heap
        && if |m0.idle| == 0 then m.idle == m0.idle
           else m0.idle[0] in m0.all && m0.idle[0] !in Stale(m0, now) && m.idle == m0.idle[1..] + [m0.idle[0]]
    }

    static lemma TurnedPass(m0: Mem, m: Mem, now: nat, more: bool, dropped: Id, stale: set<Id>)
      requires Turned(m0, m, now, more, dropped) && Agree(m0, now, stale)
      ensures Agree(m, now, stale) && SameStamps(m0, m)
      ensures var q, r := Shelf(m0.idle, |m0.all|), Shelf(m.idle, |m.all|);
        Pass(q, m0.cfg.min, stale) == if more then Pass(r, m0.cfg.min, stale) else r
    {
      if m0.idle != [] {
        var h := m0.idle[0];
        assert h in m0.idle && (h in m0.all ==> (h in stale <==> h in Stale(m0, now)));
      }
      if more {
        assert |m.all| == |m0.all| - 1;
      }
    }

    /** Receive a holder, if there is one; drop it if it has expired, and otherwise put it back. */
    method Judge(now: nat, ghost s0: State) returns (more: bool, ghost dropped: Id)
      requires RunOf(s0) && REAPER in threads && threads[REAPER] == Taking(now)
      modifies this
      ensures RunOf(s0)
      ensures REAPER in threads && threads[REAPER] == (if more then Counting(now) else Sleeping)
      ensures more ==> dropped !in all && dropped in Stale(old(View()).m, now)
      ensures old(sched) == [] ==>
        sched == [] && clock == old(clock) && reaperStop == old(reaperStop) && Judged(old(View()).m, View().m, now, more, dropped)
      ensures Told() == old(Told())
      ensures Looks(Acts(REAPER)) == old(Looks(Acts(REAPER)))
    {
      hide RunOf, Meanwhile, Acts, Told;
      dropped := 0;
      ghost var was := Acts(REAPER);
      var h, expired := TakeOldest(now, s0);
      NoLooks(0, now, false);
      LooksAppend(was, [Deed(Taking(now), ReapTake)]);
      ghost var taken := Acts(REAPER);
      if h.None? {
        return false, dropped;
      }
      Interfere(REAPER, s0);
      if !expired {
        PutBack(h.value, s0);
        NoLooks(h.value, now, false);
        LooksAppend(taken, [Deed(Has(h.value, PuttingBack), ReapPutBack)]);
        return false, dropped;
      }
      ghost var present := Drop(REAPER, h.value, ByReaper(now), s0);
      NoLooks(h.value, now, present);
      LooksAppend(taken, DropDeeds(h.value, ByReaper(now), present));
      return true, h.value;
    }

    /** One iteration of reapIdle's loop; more: a holder was dropped and the loop goes on. */
    method ReapRound(now: nat, ghost s0: State) returns (more: bool, ghost dropped: Id)
      requires Valid() && RunOf(s0) && s0 == View() && REAPER in threads && threads[REAPER] == Counting(now) && now <= clock
      modifies this
      ensures RunOf(s0)
      ensures REAPER in threads && threads[REAPER] == (if more then Counting(now) else Sleeping)
      ensures more ==> dropped !in all && dropped in Stale(old(View()).m, now)
      ensures old(sched) == [] ==> sched == [] && clock == old(clock) && reaperStop == old(reaperStop)
      ensures old(sched) == [] ==> Turned(old(View()).m, View().m, now, more, dropped)
      ensures Told() == old(Told())
      ensures Looks(Acts(REAPER)) == old(Looks(Acts(REAPER))) + 1
    {
      hide RunOf, Meanwhile, Acts, Told;
      Interfere(REAPER, s0);
      ghost var was := Acts(REAPER);
      var enough := CountLive(now, s0);
      NoLooks(0, now, false);
      LooksAppend(was, [Deed(Counting(now), ReapCount)]);
      if enough {
        return false, 0;
      }
      Interfere(REAPER, s0);
      StillStale(s0, now);
      more, dropped := Judge(now, s0);
    }

    lemma StillStale(s0: State, now: nat)
      requires Reachable(s0) && s0.m.cfg == cfg && RunOf(s0) && REAPER in threads && now <= s0.m.now
      ensures Stale(View().m, now) <= Stale(s0.m, now)
    {
      ReaperAlive(View());
      StaleLeads(s0, View(), now);
    }

    /** A round as part of the whole call: one expired holder fewer, or the last round. */
    method ReapTurn(now: nat, ghost stale: set<Id>, ghost s0: State) returns (more: bool)
      requires RunOf(s0) && REAPER in threads && threads[REAPER] == Counting(now) && now <= clock
      modifies this
      ensures RunOf(s0) && now <= clock
      ensures REAPER in threads && threads[REAPER] == (if more then Counting(now) else Sleeping)
      ensures |Stale(View().m, now)| + (if more then 1 else 0) <= |Stale(old(View()).m, now)|
      ensures old(sched) == [] && Agree(old(View()).m, now, stale) ==>
        && sched == [] && clock == old(clock) && reaperStop == old(reaperStop)
        && Agree(View().m, now, stale) && SameStamps(old(View()).m, View().m)
        && Pass(Shelf(old(idle), |old(all)|), cfg.min, stale)
           == if more then Pass(Shelf(idle, |all|), cfg.min, stale) else Shelf(idle, |all|)
      ensures Told() == old(Told())
      ensures Looks(Acts(REAPER)) == old(Looks(Acts(REAPER))) + 1
    {
      hide Agree, SameStamps, Pass, Turned;
      ghost var v := View();
      ghost var dropped;
      Begun();
      more, dropped := ReapRound(now, v);
      Follow(s0, v, now);
      if old(sched) == [] && Agree(v.m, now, stale) {
        TurnedPass(v.m, View().m, now, more, dropped, stale);
      }
      if more {
        SubsetSize(Stale(View().m, now), Stale(v.m, now) - {dropped});
      } else {
        SubsetSize(Stale(View().m, now), Stale(v.m, now));
      }
    }

    lemma Follow(s0: State, v: State, now: nat)
      requires Valid() && Reachable(v) && Leads(s0, v) && Leads(v, View()) && REAPER in v.pc && now <= v.m.now
      ensures RunOf(s0) && now <= clock && Stale(View().m, now) <= Stale(v.m, now)
    {
      ReaperAlive(v);
      StaleLeads(v, View(), now);
      ClockLeads(v, View());
      LeadsTrans(s0, v, View());
    }

    /**
      Pool.reapIdle on a tick. However busy the other goroutines are it takes at most Max + 1 rounds; alone it is one
      Pass over the queue.
     */
    method ReapIdle() returns (rounds: nat)
      requires Valid() && REAPER in threads && threads[REAPER] == Sleeping
      modifies this
      ensures Valid() && Leads(old(View()), View())
      ensures REAPER in threads && threads[REAPER] == Sleeping
      ensures rounds <= cfg.max + 1
      ensures old(sched) == [] ==>
        && sched == [] && clock == old(clock) && reaperStop == old(reaperStop) && SameStamps(old(View()).m, View().m)
        && Shelf(idle, |all|) == Pass(Shelf(old(idle), |old(all)|), cfg.min, Stale(old(View()).m, old(clock)))
      ensures Told() == old(Told()) + [old(reaperStop)]
      ensures Looks(Acts(REAPER)) == old(Looks(Acts(REAPER))) + rounds
    {
      ghost var s0 := View();
      Begun();
      ghost var was := Acts(REAPER);
      var now := ReadClock(s0);
      NoLooks(0, now, false);
      LooksAppend(was, [Deed(Sleeping, ReapTick)]);
      ghost var stale := Stale(s0.m, now);
      AtMostMax(now);
      rounds := 0;
      var more := true;
      while more
        invariant Looks(Acts(REAPER)) == Looks(was) + rounds
        invariant RunOf(s0) && now <= clock && Told() == old(Told()) + [old(reaperStop)]
        invariant REAPER in threads && threads[REAPER] == if more then Counting(now) else Sleeping
        invariant rounds + |Stale(View().m, now)| <= cfg.max + if more then 0 else 1
        invariant old(sched) == [] ==>
          && sched == [] && clock == now && reaperStop == old(reaperStop)
          && SameStamps(s0.m, View().m) && Agree(View().m, now, stale)
          && Pass(Shelf(s0.m.idle, |s0.m.all|), cfg.min, stale)
             == if more then Pass(Shelf(idle, |all|), cfg.min, stale) else Shelf(idle, |all|)
        decreases more, |Stale(View().m, now)|
      {
        hide RunOf, Stale, Agree, Pass;
        more := ReapTurn(now, stale, s0);
        rounds := rounds + 1;
      }
    }

    lemma AtMostMax(now: nat)
      requires Valid() && REAPER in threads
      ensures |Stale(View().m, now)| <= cfg.max
    {
      ReaperAlive(View());
      SubsetSize(Stale(View().m, now), all);
    }

    /** Idle holders are earlier ones, not used in between. */
    static ghost predicate SameStamps(m0: Mem, m: Mem) {
      forall h :: h in m.idle ==> h in m0.idle && (h in m0.heap ==> h in m.heap && m.heap[h].lastUsed == m0.heap[h].lastUsed)
    }

    /** For idle holders, stale is still what has expired. */
    static ghost predicate Agree(m: Mem, now: nat, stale: set<Id>) {
      forall h :: h in m.idle && h in m.all ==> (h in stale <==> h in Stale(m, now))
    }

    // ----- reaper

    method PassTime(d: nat, ghost s0: State)
      requires RunOf(s0)
      modifies this`clock, this`trace
      ensures RunOf(s0) && clock == old(clock) + d && Told() == old(Told())
    {
      hide Acts, Told, Leads, Reachable;
      var i := 0;
      while i < d
        invariant i <= d && RunOf(s0) && clock == old(clock) + i && Told() == old(Told())
      {
        ghost var v := View();
        clock := clock + 1;
        Record(s0, v, Tick);
        i := i + 1;
      }
    }

    /** turns more ticks, and none of them in a turn that was to stop and could. */
    static ghost predicate Obeyed(was: seq<bool>, told: seq<bool>, turns: nat, stopFirst: set<nat>) {
      && |told| == |was| + turns && was <= told
      && forall i :: 0 <= i < turns && i in stopFirst ==> !told[|was| + i]
    }

    static lemma ObeyedMore(was: seq<bool>, told: seq<bool>, turns: nat, stopFirst: set<nat>, b: bool)
      requires Obeyed(was, told, turns, stopFirst) && (turns in stopFirst ==> !b)
      ensures Obeyed(was, told + [b], turns + 1, stopFirst)
    {
    }

    /** After these gaps q and now are what undisturbed calls have made of the queue and the clock of m. */
    static ghost predicate Passed(m: Mem, gaps: seq<nat>, q: Shelf, now: nat) {
      && q == Passes(Shelf(m.idle, |m.all|), m.cfg.min, Rounds(m, m.now, gaps))
      && now == TimeAfter(m.now, gaps)
    }

    static lemma PassedMore(m: Mem, gaps: seq<nat>, q: Shelf, now: nat, gap: nat, r: Shelf)
      requires Passed(m, gaps, q, now) && r == Pass(q, m.cfg.min, Stale(m, now + gap))
      ensures Passed(m, gaps + [gap], r, now + gap)
    {
      hide Pass, Passes, Rounds, Stale;
      RoundsSnoc(m, m.now, gaps, gap);
      PassesSnoc(Shelf(m.idle, |m.all|), m.cfg.min, Rounds(m, m.now, gaps), Stale(m, now + gap));
    }

    /** One turn of the reaper's loop; stopNow: the stop case is taken if it is ready. told: it was, and yet a tick. */
    method Turn(gap: nat, stopNow: bool, ghost s0: State) returns (stopped: bool, ghost told: bool)
      requires RunOf(s0) && REAPER in threads && threads[REAPER] == Sleeping
      requires Reachable(s0) && REAPER in s0.pc && s0.m.cfg == cfg
      modifies this
      ensures RunOf(s0)
      ensures stopped ==> reaperDone && REAPER !in threads && Told() == old(Told()) && stopNow
      ensures !stopped ==>
        && REAPER in threads && threads[REAPER] == Sleeping && Told() == old(Told()) + [told]
        && (s0.m.stop ==> told) && (stopNow ==> !told)
      ensures old(sched) == [] ==> sched == [] && (stopped ==> old(reaperStop) && idle == old(idle) && all == old(all))
      ensures old(sched) == [] && !stopped && SameStamps(s0.m, old(View()).m) ==>
        && reaperStop == old(reaperStop) && SameStamps(s0.m, View().m) && clock == old(clock) + gap
        && Shelf(idle, |all|) == Pass(Shelf(old(idle), |old(all)|), cfg.min, Stale(s0.m, clock))
    {
      hide RunOf, Meanwhile, Acts, Told, Pass, Stale;
      Interfere(REAPER, s0);
      StillTold(s0);
      told := reaperStop;
      stopped := reaperStop && stopNow;
      if stopped {
        Stop(s0);
      } else {
        OneTick(gap, s0);
      }
    }

    /**
      Pool.reaper, for as many turns of its loop as there are gaps between ticks: each turn takes the stop case, if it
      is ready and stopFirst says so, or the tick; turns is the number of ticks. Alone, the calls of reapIdle are Passes
      over the queue; hence as many of them as there were idle holders drop everything that had expired at the first, or
      reach Min.
     */
    method Reaper(gaps: seq<nat>, stopFirst: set<nat>) returns (stopped: bool, turns: nat)
      requires Valid() && REAPER in threads && threads[REAPER] == Sleeping
      modifies this
      ensures Valid() && Leads(old(View()), View())
      ensures stopped ==> reaperDone && REAPER !in threads && turns < |gaps| && turns in stopFirst
      ensures !stopped ==> REAPER in threads && threads[REAPER] == Sleeping && turns == |gaps|
      ensures Obeyed(old(Told()), Told(), turns, stopFirst)
      ensures old(reaperStop) ==> forall i :: 0 <= i < turns ==> i !in stopFirst
      ensures old(sched) == [] && !old(reaperStop) ==> !stopped
      ensures old(sched) == [] ==>
        && Shelf(idle, |all|)
           == Passes(Shelf(old(idle), |old(all)|), cfg.min, Rounds(old(View()).m, old(clock), gaps[..turns]))
        && (turns > 0 && turns >= |old(idle)| && |all| > cfg.min ==>
              forall h :: h in idle ==> h !in Stale(old(View()).m, old(clock) + gaps[0]))
    {
      ghost var s0 := View();
      ghost var q := Shelf(idle, |all|);
      Begun();
      stopped, turns := false, 0;
      while turns < |gaps|
        invariant turns <= |gaps| && RunOf(s0) && REAPER in threads && threads[REAPER] == Sleeping
        invariant Obeyed(old(Told()), Told(), turns, stopFirst)
        invariant old(reaperStop) ==> forall i :: 0 <= i < turns ==> i !in stopFirst
        invariant old(sched) == [] ==>
          && sched == [] && reaperStop == old(reaperStop) && SameStamps(s0.m, View().m)
          && Passed(s0.m, gaps[..turns], Shelf(idle, |all|), clock)
      {
        hide RunOf, Meanwhile, Acts, Told, Pass, Stale, SameStamps, Passed, Obeyed;
        ghost var was, q1, now := Told(), Shelf(idle, |all|), clock;
        ghost var told;
        stopped, told := Turn(gaps[turns], turns in stopFirst, s0);
        if stopped {
          break;
        }
        ObeyedMore(old(Told()), was, turns, stopFirst, told);
        if old(sched) == [] {
          PassedMore(s0.m, gaps[..turns], q1, now, gaps[turns], Shelf(idle, |all|));
        }
        turns := turns + 1;
        assert gaps[..turns] == gaps[..turns - 1] + [gaps[turns - 1]];
      }
      if turns > 0 && turns >= |q.idle| {
        RoundsGrow(s0.m, s0.m.now, gaps[..turns]);
        ReaperComplete(q, cfg.min, Rounds(s0.m, s0.m.now, gaps[..turns]));
      }
    }

    /** Whether an idle holder has expired can be read off an earlier state. */
    static lemma StampsAgree(s0: State, s: State, now: nat)
      requires Reachable(s0) && Reachable(s) && REAPER in s0.pc && REAPER in s.pc && s0.m.cfg == s.m.cfg
      requires SameStamps(s0.m, s.m)
      ensures forall h :: h in s.m.idle ==> (h in Stale(s.m, now) <==> h in Stale(s0.m, now))
    {
      IdleRegistered(s0);
      IdleRegistered(s);
    }

    method Stop(ghost s0: State)
      requires RunOf(s0) && REAPER in threads && threads[REAPER] == Sleeping && reaperStop
      modifies this
      ensures RunOf(s0) && reaperDone && REAPER !in threads && Told() == old(Told())
      ensures old(sched) == [] ==> sched == [] && idle == old(idle) && all == old(all)
    {
      hide RunOf, Meanwhile, Acts, Told;
      LeaveLoop(s0);
      Interfere(REAPER, s0);
      CloseReaperDone(s0);
    }

    /** The channel reaperStop is never opened again. */
    lemma StillTold(s0: State)
      requires RunOf(s0)
      ensures s0.m.stop ==> reaperStop
    {
      StopLeads(s0, View());
    }

    /** A tick after the gap. */
    method OneTick(gap: nat, ghost s0: State)
      requires RunOf(s0) && REAPER in threads && threads[REAPER] == Sleeping
      requires Reachable(s0) && REAPER in s0.pc && s0.m.cfg == cfg
      modifies this
      ensures RunOf(s0) && REAPER in threads && threads[REAPER] == Sleeping
      ensures old(sched) == [] ==> sched == [] && reaperStop == old(reaperStop)
      ensures Told() == old(Told()) + [old(reaperStop)]
      ensures old(sched) == [] && SameStamps(s0.m, old(View()).m) ==>
        && sched == [] && reaperStop == old(reaperStop) && SameStamps(s0.m, View().m) && clock == old(clock) + gap
        && Shelf(idle, |all|) == Pass(Shelf(old(idle), |old(all)|), cfg.min, Stale(s0.m, clock))
    {
      PassTime(gap, s0);
      ghost var v := View();
      var rounds := ReapIdle();
      LeadsTrans(s0, v, View());
      if old(sched) == [] && SameStamps(s0.m, v.m) {
        IdleRegistered(v);
        StampsAgree(s0, v, clock);
        PassAgrees(Shelf(v.m.idle, |v.m.all|), cfg.min, Stale(v.m, clock), Stale(s0.m, clock));
      }
    }

    // ----- acquire

    /** A place in memory that no holder has. */
    method NewAddress() returns (h: Id)
      ensures h !in heap
    {
      h := 0;
      while h in heap
        decreases |set x | x in heap && x >= h|
      {
        ghost var rest := set x | x in heap && x >= h;
        assert h in rest;
        SubsetSize((set x | x in heap && x >= h + 1), rest - {h});
        h := h + 1;
      }
    }

    method TryReceive(me: Tid, ghost s0: State) returns (h: Option<Id>)
      requires RunOf(s0) && me in threads && threads[me] == TryingIdle
      modifies this`idle, this`threads, this`log, this`trace
      ensures RunOf(s0) && (h.Some? <==> |old(idle)| > 0)
      ensures h.Some? ==> h.value == old(idle)[0] && idle == old(idle)[1..]
      ensures h.None? ==> idle == old(idle)
      ensures threads == old(threads)[me := if h.Some? then Has(h.value, Acquired) else Reserving]
      ensures Acts(me) == old(Acts(me)) + [Deed(old(threads)[me], TryIdle)]
    {
      hide Acts, Told, Leads, Reachable;
      ghost var v := View();
      if |idle| > 0 {
        h := Some(idle[0]);
        idle := idle[1..];
        threads := threads[me := Has(h.value, Acquired)];
        if closed {
          log := log.(handouts := log.handouts + [h.value]);
        }
      } else {
        h := None;
        threads := threads[me := Reserving];
      }
      Record(s0, v, Go(me, TryIdle));
    }

    /** The locked part of acquire: reserve a slot now, before building. */
    method Reserve(me: Tid, h: Id, ghost s0: State) returns (r: Reservation)
      requires RunOf(s0) && me in threads && threads[me] == Reserving && h !in heap
      modifies this`all, this`heap, this`threads, this`trace
      ensures RunOf(s0)
      ensures r == if closed then Rejected else if |old(all)| < cfg.max then Slot else Full
      ensures r.Slot? ==> h !in old(all) && all == old(all) + {h} && heap == old(heap)[h := NewHolder(false, clock)]
      ensures !r.Slot? ==> all == old(all) && heap == old(heap)
      ensures threads == match r
                         case Rejected => old(threads) - {me}
                         case Slot => old(threads)[me := Has(h, Building)]
                         case Full => old(threads)[me := Waiting]
      ensures Acts(me) == old(Acts(me)) + [Deed(old(threads)[me], Protocol.ReserveSlot(h))]
    {
      hide Acts, Told, Leads, Reachable;
      ghost var v := View();
      if closed {
        threads := threads - {me};
        r := Rejected;
      } else if |all| < cfg.max {
        Unregistered(v, h);
        all := all + {h};
        heap := heap[h := NewHolder(false, clock)];
        threads := threads[me := Has(h, Building)];
        r := Slot;
      } else {
        threads := threads[me := Waiting];
        r := Full;
      }
      Record(s0, v, Go(me, Protocol.ReserveSlot(h)));
    }

    method PutImpl(me: Tid, h: Id, ghost s0: State)
      requires RunOf(s0) && me in threads && threads[me] == Has(h, Building)
      modifies this`heap, this`threads, this`log, this`trace
      ensures RunOf(s0) && h in old(heap)
      ensures heap == old(heap)[h := old(heap)[h].(built := true)] && threads == old(threads)[me := Has(h, Acquired)]
      ensures Acts(me) == old(Acts(me)) + [Deed(Has(h, Building), Build(true))]
    {
      hide Acts, Told, Leads, Reachable;
      ghost var v := View();
      Mine(v, me);
      heap := heap[h := heap[h].(built := true)];
      threads := threads[me := Has(h, Acquired)];
      if closed {
        log := log.(handouts := log.handouts + [h]);
      }
      Record(s0, v, Go(me, Build(true)));
    }

    method ReleaseSlot(me: Tid, h: Id, ghost s0: State)
      requires RunOf(s0) && me in threads && threads[me] == Has(h, Building)
      modifies this`all, this`threads, this`log, this`trace
      ensures RunOf(s0) && h in heap && all == old(all) - {h} && threads == old(threads) - {me}
      ensures Acts(me) == old(Acts(me)) + [Deed(Has(h, Building), Build(false))]
    {
      hide Acts, Told, Leads, Reachable;
      ghost var v := View();
      Mine(v, me);
      all := all - {h};
      log := log.(failed := log.failed + 1);
      threads := threads - {me};
      Record(s0, v, Go(me, Build(false)));
    }

    method FinishBuild(me: Tid, h: Id, ok: bool, ghost s0: State)
      requires RunOf(s0) && me in threads && threads[me] == Has(h, Building)
      modifies this`all, this`heap, this`threads, this`log, this`trace
      ensures RunOf(s0) && h in old(heap)
      ensures all == (if ok then old(all) else old(all) - {h})
      ensures heap == (if ok then old(heap)[h := old(heap)[h].(built := true)] else old(heap))
      ensures threads == (if ok then old(threads)[me := Has(h, Acquired)] else old(threads) - {me})
      ensures Acts(me) == old(Acts(me)) + [Deed(old(threads)[me], Build(ok))]
    {
      hide RunOf, Acts, Told;
      if ok {
        PutImpl(me, h, s0);
      } else {
        ReleaseSlot(me, h, s0);
      }
    }

    /** newImpl runs outside the lock, then the result is put in place. */
    method BuildSlot(me: Tid, h: Id, ok: bool, ghost s0: State)
      requires RunOf(s0) && me in threads && threads[me] == Has(h, Building)
      modifies this
      ensures RunOf(s0)
      ensures if ok then me in threads && threads[me] == Has(h, Acquired) else me !in threads
      ensures old(sched) == [] ==>
        && sched == [] && closed == old(closed) && clock == old(clock) && idle == old(idle) && h in old(heap)
        && all == (if ok then old(all) else old(all) - {h})
        && heap == (if ok then old(heap)[h := old(heap)[h].(built := true)] else old(heap))
        && threads == (if ok then old(threads)[me := Has(h, Acquired)] else old(threads) - {me})
      ensures Acts(me) == old(Acts(me)) + [Deed(Has(h, Building), Build(ok))]
    {
      hide RunOf, Meanwhile, Acts, Told;
      Interfere(me, s0);
      FinishBuild(me, h, ok, s0);
    }

    /**
      Blocked at Max: receives a holder, or gives up because the caller's context ends; ends says that it does so after
      the next steps of the others. Once the schedule is used up an empty idle stays empty, and only that end is left.
     */
    method AwaitIdle(me: Tid, ends: bool, ghost s0: State) returns (h: Option<Id>)
      requires RunOf(s0) && me in threads && threads[me] == Waiting
      modifies this
      ensures RunOf(s0)
      ensures h.Some? ==> !ends && me in threads && threads[me] == Has(h.value, Acquired)
      ensures h.None? ==> me !in threads && (ends || (sched == [] && |idle| == 0))
      ensures old(sched) == [] ==>
        && sched == [] && all == old(all) && heap == old(heap) && closed == old(closed) && clock == old(clock)
        && if |old(idle)| > 0 && !ends then h == Some(old(idle)[0]) && idle == old(idle)[1..]
           else h == None && idle == old(idle) && threads == old(threads) - {me}
      ensures Acts(me) == old(Acts(me)) + [Deed(Waiting, if h.Some? then WaitIdle else Cancel)]
    {
      Interfere(me, s0);
      while !ends && |idle| == 0 && sched != []
        invariant RunOf(s0) && me in threads && threads[me] == Waiting && Acts(me) == old(Acts(me))
        invariant old(sched) == [] ==>
          sched == [] && threads == old(threads) && all == old(all)
          && heap == old(heap) && closed == old(closed) && clock == old(clock) && idle == old(idle)
        decreases |sched|
      {
        Interfere(me, s0);
      }
      if ends || |idle| == 0 {
        h := None;
        GiveUp(me, s0);
      } else {
        var x := ReceiveWaiting(me, s0);
        h := Some(x);
      }
    }

    method GiveUp(me: Tid, ghost s0: State)
      requires RunOf(s0) && me in threads && threads[me] == Waiting
      modifies this`threads, this`trace
      ensures RunOf(s0) && threads == old(threads) - {me}
      ensures Acts(me) == old(Acts(me)) + [Deed(old(threads)[me], Cancel)]
    {
      hide Acts, Told, Leads, Reachable;
      ghost var v := View();
      threads := threads - {me};
      Record(s0, v, Go(me, Cancel));
    }

    method ReceiveWaiting(me: Tid, ghost s0: State) returns (h: Id)
      requires RunOf(s0) && me in threads && threads[me] == Waiting && |idle| > 0
      modifies this`idle, this`threads, this`log, this`trace
      ensures RunOf(s0) && h == old(idle)[0] && idle == old(idle)[1..] && threads == old(threads)[me := Has(h, Acquired)]
      ensures Acts(me) == old(Acts(me)) + [Deed(old(threads)[me], WaitIdle)]
    {
      hide Acts, Told, Leads, Reachable;
      ghost var v := View();
      h := idle[0];
      idle := idle[1..];
      threads := threads[me := Has(h, Acquired)];
      if closed {
        log := log.(handouts := log.handouts + [h]);
      }
      Record(s0, v, Go(me, WaitIdle));
    }

    /** The rest of acquire, when nothing was idle: a new holder if there is a free slot, else wait. */
    method GrowOrWait(me: Tid, grow: bool, ends: bool, ghost s0: State) returns (h: Option<Id>, ghost how: Way)
      requires RunOf(s0) && me in threads && threads[me] == Reserving
      modifies this
      ensures RunOf(s0)
      ensures h.Some? ==> me in threads && threads[me] == Has(h.value, Acquired)
      ensures h.None? ==> me !in threads
      ensures old(sched) == [] ==> sched == [] && closed == old(closed) && clock == old(clock)
      ensures old(sched) == [] && !closed && |old(all)| < cfg.max && grow ==>
        && h.Some? && h.value !in old(heap) && h.value !in old(all) && all == old(all) + {h.value} && idle == old(idle)
        && heap == old(heap)[h.value := NewHolder(true, clock)] && !heap[h.value].locked
        && threads == old(threads)[me := Has(h.value, Acquired)]
      ensures old(sched) == [] && |old(idle)| == 0 && (closed || |old(all)| >= cfg.max || !grow) ==>
        h.None? && all == old(all) && idle == old(idle)
      ensures old(sched) == [] && |old(idle)| == 0 && (closed || |old(all)| >= cfg.max || !grow) ==>
        threads == old(threads) - {me} && forall x :: x in old(heap) ==> x in heap && heap[x] == old(heap)[x]
      ensures old(sched) == [] && |old(idle)| == 0 && (closed || |old(all)| >= cfg.max) ==> heap == old(heap)
      ensures !how.Fast? && h == Got(how) && Acts(me) == old(Acts(me)) + GrowDeeds(how)
      ensures (how.TurnedAway? <==> old(closed)) && (how.TurnedAway? ==> closed)
      ensures !old(closed) ==> (how.Grown? || how.Refused? <==> |old(all)| < cfg.max)
      ensures (how.Grown? ==> grow) && (how.Refused? ==> !grow)
      ensures (how.Waited? ==> !ends) && (how.GaveUp? ==> ends || (sched == [] && |idle| == 0))
    {
      hide RunOf, Meanwhile, Acts, Told;
      var addr := NewAddress();
      var slot := Reserve(me, addr, s0);
      match slot
      case Rejected => h, how := None, TurnedAway(addr);
      case Slot =>
        BuildSlot(me, addr, grow, s0);
        assert !grow && old(sched) == [] ==> all == old(all);
        h := if grow then Some(addr) else None;
        how := if grow then Grown(addr) else Refused(addr);
      case Full =>
        h := AwaitIdle(me, ends, s0);
        how := if h.Some? then Waited(addr, h.value) else GaveUp(addr);
    }

    /** acquire comes back without a holder only if closed, refused one, cancelled, or with nobody left to wait for. */
    ghost predicate Explains(how: Way, grow: bool, ends: bool)
      reads this
    {
      match how
      case Fast(_) => true
      case TurnedAway(_) => closed
      case Grown(_) => grow
      case Refused(_) => !grow
      case Waited(_, _) => !ends
      case GaveUp(_) => ends || (sched == [] && |idle| == 0)
    }

    /** Pool.acquire; grow: the backend can start another holder; ends: the caller's context ends if it has to wait. */
    method Acquire(me: Tid, grow: bool, ends: bool, ghost s0: State) returns (h: Option<Id>, ghost how: Way)
      requires RunOf(s0) && me in threads && threads[me] == TryingIdle
      modifies this
      ensures RunOf(s0)
      ensures h.Some? ==> me in threads && threads[me] == Has(h.value, Acquired)
      ensures h.None? ==> me !in threads
      ensures old(sched) == [] ==> sched == [] && closed == old(closed) && clock == old(clock)
      ensures old(sched) == [] && |old(idle)| > 0 ==>
        h == Some(old(idle)[0]) && idle == old(idle)[1..] && all == old(all) && heap == old(heap)
        && threads == old(threads)[me := Has(old(idle)[0], Acquired)]
      ensures old(sched) == [] && |old(idle)| == 0 && !closed && |old(all)| < cfg.max && grow ==>
        && h.Some? && h.value !in old(heap) && h.value !in old(all) && all == old(all) + {h.value} && idle == []
        && heap == old(heap)[h.value := NewHolder(true, clock)] && !heap[h.value].locked
        && threads == old(threads)[me := Has(h.value, Acquired)]
      ensures old(sched) == [] && |old(idle)| == 0 && (closed || |old(all)| >= cfg.max || !grow) ==>
        h.None? && all == old(all) && idle == []
      ensures old(sched) == [] && |old(idle)| == 0 && (closed || |old(all)| >= cfg.max || !grow) ==>
        threads == old(threads) - {me} && forall x :: x in old(heap) ==> x in heap && heap[x] == old(heap)[x]
      ensures old(sched) == [] && |old(idle)| == 0 && (closed || |old(all)| >= cfg.max) ==> heap == old(heap)
      ensures h == Got(how) && Acts(me) == old(Acts(me)) + AcquireDeeds(how)
      ensures Explains(how, grow, ends)
    {
      hide RunOf, Meanwhile, Acts, Told;
      Interfere(me, s0);
      h := TryReceive(me, s0);
      if h.None? {
        Interfere(me, s0);
        h, how := GrowOrWait(me, grow, ends, s0);
      } else {
        how := Fast(h.value);
      }
    }

    // ----- Run

    method Enter(me: Tid, ghost s0: State)
      requires RunOf(s0) && published && me !in threads && me > REAPER
      modifies this`threads, this`trace
      ensures RunOf(s0) && threads == old(threads)[me := TryingIdle]
      ensures Acts(me) == old(Acts(me))
    {
      hide Acts, Told, Leads, Reachable;
      ghost var v := View();
      threads := threads[me := TryingIdle];
      Record(s0, v, CallRun(me));
    }

    /** The deferred h.mu.Unlock() at the end of Run. */
    method UnlockHolder(me: Tid, h: Id, ghost s0: State)
      requires RunOf(s0) && me in threads && threads[me] == Unlocking(h)
      modifies this`heap, this`threads, this`trace
      ensures RunOf(s0) && h in old(heap)
      ensures heap == old(heap)[h := old(heap)[h].(locked := false)] && threads == old(threads) - {me}
      ensures Acts(me) == old(Acts(me)) + [Deed(old(threads)[me], Unlock)]
      ensures forall x :: x != me ==> Acts(x) == old(Acts(x))
    {
      hide Acts, Told, Leads, Reachable;
      ghost var v := View();
      Mine(v, me);
      heap := heap[h := heap[h].(locked := false)];
      threads := threads - {me};
      Record(s0, v, Go(me, Unlock));
    }

    /** h.mu.Lock(): waits for the previous user's unlock, which nothing else can hold up. */
    method AwaitMutex(me: Tid, h: Id, ghost s0: State)
      requires RunOf(s0) && me in threads && threads[me] == Has(h, Acquired)
      modifies this
      ensures RunOf(s0) && me in threads && threads[me] == Has(h, Acquired)
      ensures h in heap && !heap[h].locked
      ensures old(sched) == [] && h in old(heap) && !old(heap)[h].locked ==>
        && sched == [] && all == old(all) && idle == old(idle) && closed == old(closed) && clock == old(clock)
        && heap == old(heap) && threads == old(threads)
      ensures Acts(me) == old(Acts(me))
    {
      Interfere(me, s0);
      Mine(View(), me);
      while heap[h].locked
        invariant RunOf(s0) && me in threads && threads[me] == Has(h, Acquired) && h in heap && Acts(me) == old(Acts(me))
        invariant old(sched) == [] && h in old(heap) && !old(heap)[h].locked ==>
          && sched == [] && all == old(all) && idle == old(idle) && closed == old(closed) && clock == old(clock)
          && heap == old(heap) && threads == old(threads)
        decreases |sched|, heap[h].locked
      {
        if sched != [] {
          Interfere(me, s0);
          Mine(View(), me);
        } else {
          ghost var owner := LockOwner(View(), me);
          assert owner in threads && threads[owner] == Unlocking(h);
          var u :| u in threads && threads[u] == Unlocking(h);
          UnlockHolder(u, h, s0);
        }
      }
    }

    /** Starts the workload; the guard for a dead holder is never taken. */
    method StartWorkload(me: Tid, h: Id, ghost s0: State)
      requires RunOf(s0) && me in threads && threads[me] == Has(h, Acquired) && h in heap && !heap[h].locked
      modifies this`heap, this`threads, this`trace
      ensures RunOf(s0) && !old(heap)[h].dead
      ensures heap == old(heap)[h := Called(old(heap)[h], RunCall).(locked := true)]
      ensures threads == old(threads)[me := Has(h, Running)]
      ensures Acts(me) == old(Acts(me)) + [Deed(old(threads)[me], Begin)]
    {
      hide Acts, Told, Leads, Reachable;
      ghost var v := View();
      if heap[h].dead {
        DeadNeverAcquired(v, me);
        assert false;
      }
      Mine(v, me);
      heap := heap[h := Called(heap[h], RunCall).(locked := true)];
      threads := threads[me := Has(h, Running)];
      Record(s0, v, Go(me, Begin));
    }

    method CleanUp(me: Tid, h: Id, ghost s0: State)
      requires RunOf(s0) && me in threads && threads[me] == Has(h, Running)
      modifies this`heap, this`threads, this`trace
      ensures RunOf(s0) && h in old(heap)
      ensures heap == old(heap)[h := Called(old(heap)[h], CleanupCall)] && threads == old(threads)[me := Has(h, Cleaned)]
      ensures Acts(me) == old(Acts(me)) + [Deed(old(threads)[me], Finish)]
    {
      hide Acts, Told, Leads, Reachable;
      ghost var v := View();
      Mine(v, me);
      heap := heap[h := Called(heap[h], CleanupCall)];
      threads := threads[me := Has(h, Cleaned)];
      Record(s0, v, Go(me, Finish));
    }

    method CheckHolder(me: Tid, h: Id, healthy: bool, ghost s0: State)
      requires RunOf(s0) && me in threads && threads[me] == Has(h, Cleaned)
      modifies this`heap, this`threads, this`trace
      ensures RunOf(s0) && h in old(heap)
      ensures heap == old(heap)[h := if healthy then Called(old(heap)[h], CheckOk)
                                     else Called(old(heap)[h], CheckFailed).(dead := true)]
      ensures threads == old(threads)[me := if healthy then Has(h, Stamping) else Has(h, Dropping(ByRun))]
      ensures Acts(me) == old(Acts(me)) + [Deed(old(threads)[me], Check(healthy))]
    {
      hide Acts, Told, Leads, Reachable;
      ghost var v := View();
      Mine(v, me);
      if healthy {
        heap := heap[h := Called(heap[h], CheckOk)];
        threads := threads[me := Has(h, Stamping)];
      } else {
        heap := heap[h := Called(heap[h], CheckFailed).(dead := true)];
        threads := threads[me := Has(h, Dropping(ByRun))];
      }
      Record(s0, v, Go(me, Check(healthy)));
    }

    /** cleanup and checkHolder. */
    method Hygiene(me: Tid, h: Id, healthy: bool, ghost s0: State)
      requires RunOf(s0) && me in threads && threads[me] == Has(h, Running)
      modifies this
      ensures RunOf(s0) && me in threads && h in old(heap) && h in heap
      ensures threads[me] == Has(h, if healthy then Stamping else Dropping(ByRun))
      ensures heap[h] == old(heap)[h].(
                calls := old(heap)[h].calls + [CleanupCall, if healthy then CheckOk else CheckFailed],
                dead := !healthy || old(heap)[h].dead, teardowns := heap[h].teardowns)
      ensures old(sched) == [] ==>
        && sched == [] && all == old(all) && idle == old(idle) && closed == old(closed) && clock == old(clock)
        && threads == old(threads)[me := threads[me]]
        && heap == old(heap)[h := heap[h].(teardowns := old(heap)[h].teardowns)]
      ensures Acts(me) == old(Acts(me)) + WorkDeeds(h, healthy)[1..]
    {
      hide RunOf, Meanwhile, Acts, Told;
      CleanUp(me, h, s0);
      Interfere(me, s0);
      CheckHolder(me, h, healthy, s0);
    }

    /** run, cleanup and checkHolder as one unit, under the holder's mutex. */
    method Workload(me: Tid, h: Id, healthy: bool, ghost s0: State)
      requires RunOf(s0) && me in threads && threads[me] == Has(h, Acquired)
      modifies this
      ensures RunOf(s0) && me in threads && h in heap
      ensures threads[me] == Has(h, if healthy then Stamping else Dropping(ByRun))
      ensures heap[h].dead == !healthy && heap[h].locked
      ensures |heap[h].calls| >= 3
      ensures heap[h].calls[|heap[h].calls| - 3..] == [RunCall, CleanupCall, if healthy then CheckOk else CheckFailed]
      ensures old(sched) == [] && h in old(heap) && !old(heap)[h].locked ==>
        && sched == [] && all == old(all) && idle == old(idle) && closed == old(closed) && clock == old(clock)
        && threads == old(threads)[me := Has(h, if healthy then Stamping else Dropping(ByRun))]
        && heap == old(heap)[h := old(heap)[h].(
             calls := old(heap)[h].calls + [RunCall, CleanupCall, if healthy then CheckOk else CheckFailed],
             dead := !healthy, locked := true)]
      ensures Acts(me) == old(Acts(me)) + WorkDeeds(h, healthy)
    {
      hide RunOf, Meanwhile, Acts, Told;
      AwaitMutex(me, h, s0);
      ghost var calls := heap[h].calls;
      StartWorkload(me, h, s0);
      Interfere(me, s0);
      Hygiene(me, h, healthy, s0);
      assert heap[h].calls == calls + [RunCall, CleanupCall, if healthy then CheckOk else CheckFailed];
    }

    /** A holder after release in an open or closed pool, or after drop where it was still registered or not. */
    static function Settled(x: Holder, healthy: bool, now: nat, closed: bool, registered: bool): Holder {
      if !healthy then x.(ownerCloses := if registered then 1 else 0)
      else if closed then x.(lastUsed := now, ownerCloses := 1)
      else x.(lastUsed := now)
    }

    /** A holder after it has run a workload on its own. */
    static function Used(x: Holder, healthy: bool, now: nat, closed: bool, registered: bool): Holder {
      Settled(x, healthy, now, closed, registered).(
        calls := x.calls + [RunCall, CleanupCall, if healthy then CheckOk else CheckFailed], dead := !healthy)
    }

    /** Somewhere in a holder's history is one whole use of it. */
    static ghost predicate Served(calls: seq<Call>, healthy: bool) {
      exists k :: 0 <= k <= |calls| - 3
        && calls[k] == RunCall && calls[k + 1] == CleanupCall && calls[k + 2] == if healthy then CheckOk else CheckFailed
    }

    static lemma ServedStays(calls: seq<Call>, more: seq<Call>, healthy: bool)
      requires |calls| >= 3 && calls <= more
      requires calls[|calls| - 3..] == [RunCall, CleanupCall, if healthy then CheckOk else CheckFailed]
      ensures Served(more, healthy)
    {
      var k := |calls| - 3;
      assert more[k] == calls[k..][0] && more[k + 1] == calls[k..][1] && more[k + 2] == calls[k..][2];
    }

    method ReleaseOrDrop(me: Tid, h: Id, healthy: bool, ghost s0: State) returns (ghost flag: bool)
      requires RunOf(s0) && me in threads && threads[me] == Has(h, if healthy then Stamping else Dropping(ByRun))
      modifies this
      ensures RunOf(s0) && me in threads && threads[me] == Unlocking(h) && |sched| <= |old(sched)|
      ensures old(sched) == [] ==>
        && sched == [] && threads == old(threads)[me := Unlocking(h)] && h in old(heap)
        && closed == old(closed) && clock == old(clock)
        && all == (if healthy && !old(closed) then old(all) else old(all) - {h})
        && idle == (if healthy && !old(closed) then old(idle) + [h] else old(idle))
        && heap == old(heap)[h := Settled(old(heap)[h], healthy, old(clock), old(closed), h in old(all))]
      ensures Acts(me) == old(Acts(me)) + ReturnDeeds(h, healthy, flag)
    {
      hide ReleaseDeeds, DropDeeds, RunOf, Meanwhile, Acts, Told;
      if healthy {
        var pushed := GiveBack(me, h, s0);
        flag := pushed;
      } else {
        flag := Drop(me, h, ByRun, s0);
      }
    }

    /** release or drop, then the deferred unlock. */
    method Settle(me: Tid, h: Id, healthy: bool) returns (ghost flag: bool)
      requires Valid() && me in threads && h in heap && heap[h].dead == !healthy
      requires threads[me] == Has(h, if healthy then Stamping else Dropping(ByRun))
      modifies this
      ensures Valid() && Leads(old(View()), View()) && me !in threads && h in heap
      ensures old(heap)[h].calls <= heap[h].calls
      ensures !healthy ==> heap[h].dead && h !in idle
      ensures old(sched) == [] ==>
        && sched == [] && threads == old(threads) - {me}
        && all == (if healthy && !old(closed) then old(all) else old(all) - {h})
        && idle == (if healthy && !old(closed) then old(idle) + [h] else old(idle))
        && heap == old(heap)[h := Settled(old(heap)[h], healthy, old(clock), old(closed), h in old(all)).(locked := false)]
      ensures Acts(me) == old(Acts(me)) + SettleDeeds(h, healthy, flag)
    {
      hide ReturnDeeds, RunOf, Meanwhile, Acts, Told;
      ghost var s0 := View();
      Begun();
      Interfere(me, s0);
      flag := ReleaseOrDrop(me, h, healthy, s0);
      Interfere(me, s0);
      UnlockHolder(me, h, s0);
      Ended(s0);
      Remembered(s0, h);
      if !healthy {
        DeadLeads(s0, View(), h);
      }
    }

    lemma Remembered(s0: State, h: Id)
      requires Leads(s0, View()) && h in s0.m.heap
      ensures h in heap && s0.m.heap[h].calls <= heap[h].calls
    {
      var es :| Steps(s0, es, View());
      CallsLead(s0, es, View(), h);
    }

    /** Run from the moment it has a holder to its return. */
    method UseHolder(me: Tid, h: Id, healthy: bool, ghost s0: State) returns (ghost flag: bool)
      requires RunOf(s0) && me in threads && threads[me] == Has(h, Acquired)
      modifies this
      ensures RunOf(s0) && me !in threads && h in heap
      ensures Served(heap[h].calls, healthy)
      ensures !healthy ==> heap[h].dead && h !in idle
      ensures old(sched) == [] && h in old(heap) && !old(heap)[h].locked ==>
        && sched == [] && threads == old(threads) - {me}
        && all == (if healthy && !old(closed) then old(all) else old(all) - {h})
        && idle == (if healthy && !old(closed) then old(idle) + [h] else old(idle))
        && heap == old(heap)[h := Used(old(heap)[h], healthy, old(clock), old(closed), h in old(all))]
      ensures Acts(me) == old(Acts(me)) + UseDeeds(h, healthy, flag)
    {
      hide Served, Acts, Told, WorkDeeds, SettleDeeds, RunOf, Meanwhile;
      Workload(me, h, healthy, s0);
      Ended(s0);
      ghost var v := View();
      flag := Settle(me, h, healthy);
      Joined(s0, v);
      ServedStays(v.m.heap[h].calls, heap[h].calls, healthy);
    }

    /** Run by a thread that stands at its beginning. */
    method RunFrom(me: Tid, grow: bool, ends: bool, healthy: bool, ghost s0: State) returns (r: RunResult, ghost how: Way, ghost flag: bool)
      requires RunOf(s0) && me in threads && threads[me] == TryingIdle
      modifies this
      ensures RunOf(s0) && me !in threads
      ensures r.Died? ==> r.h in heap && heap[r.h].dead && r.h !in idle
      ensures !r.NoHolder? ==> r.Finished? == healthy && r.h in heap && Served(heap[r.h].calls, healthy)
      ensures old(sched) == [] && |old(idle)| > 0 ==>
        var h, kept := old(idle)[0], healthy && !old(closed);
        h in old(heap) && !old(heap)[h].locked ==>
          && r == (if healthy then Finished(h) else Died(h)) && sched == [] && threads == old(threads) - {me}
          && all == (if kept then old(all) else old(all) - {h})
          && idle == (if kept then old(idle)[1..] + [h] else old(idle)[1..])
          && heap == old(heap)[h := Used(old(heap)[h], healthy, old(clock), old(closed), h in old(all))]
      ensures old(sched) == [] && !old(closed) && |old(idle)| == 0 && |old(all)| < cfg.max && grow ==>
        && (r.Finished? || r.Died?) && r.h !in old(heap) && sched == [] && threads == old(threads) - {me}
        && all == (if healthy then old(all) + {r.h} else old(all)) && idle == (if healthy then [r.h] else [])
        && heap == old(heap)[r.h := Used(NewHolder(true, old(clock)), healthy, old(clock), false, true)]
      ensures old(sched) == [] && |old(idle)| == 0 && (old(closed) || |old(all)| >= cfg.max || !grow) ==>
        && r.NoHolder? && all == old(all) && idle == [] && threads == old(threads) - {me}
        && forall x :: x in old(heap) ==> x in heap && heap[x] == old(heap)[x]
      ensures Got(how) == (if r.NoHolder? then None else Some(r.h)) && (r.NoHolder? ==> Explains(how, grow, ends))
      ensures Acts(me) == old(Acts(me)) + AcquireDeeds(how)
        + if r.NoHolder? then [] else UseDeeds(r.h, healthy, flag)
    {
      hide RunOf, Meanwhile, Acts, Told, AcquireDeeds, UseDeeds, Served, Used, NewHolder, Explains, Got;
      var h;
      h, how := Acquire(me, grow, ends, s0);
      if h.None? {
        r, flag := NoHolder, false;
      } else {
        flag := UseHolder(me, h.value, healthy, s0);
        assert h.value !in old(all) ==> old(all) + {h.value} - {h.value} == old(all);
        r := if healthy then Finished(h.value) else Died(h.value);
      }
    }

    /**
      Pool.Run; grow: the backend can start another holder; ends: the caller's context ends if it has to wait; healthy:
      the holder passes the check afterwards. Alone, it takes the longest idle holder and leaves it at the other end of
      the queue, cleaned and checked.
     */
    method Run(me: Tid, grow: bool, ends: bool, healthy: bool) returns (r: RunResult, ghost how: Way, ghost flag: bool)
      requires Valid() && published && me !in threads && me > REAPER
      modifies this
      ensures Valid() && Leads(old(View()), View()) && me !in threads
      ensures r.Died? ==> r.h in heap && heap[r.h].dead && r.h !in idle
      ensures !r.NoHolder? ==> r.Finished? == healthy && r.h in heap && Served(heap[r.h].calls, healthy)
      ensures old(sched) == [] && |old(idle)| > 0 ==>
        var h, kept := old(idle)[0], healthy && !old(closed);
        h in old(heap) && !old(heap)[h].locked ==>
          && r == (if healthy then Finished(h) else Died(h)) && sched == [] && threads == old(threads)
          && all == (if kept then old(all) else old(all) - {h})
          && idle == (if kept then old(idle)[1..] + [h] else old(idle)[1..])
          && heap == old(heap)[h := Used(old(heap)[h], healthy, old(clock), old(closed), h in old(all))]
      ensures old(sched) == [] && !old(closed) && |old(idle)| == 0 && |old(all)| < cfg.max && grow ==>
        && (r.Finished? || r.Died?) && r.h !in old(heap) && sched == [] && threads == old(threads)
        && all == (if healthy then old(all) + {r.h} else old(all)) && idle == (if healthy then [r.h] else [])
        && heap == old(heap)[r.h := Used(NewHolder(true, old(clock)), healthy, old(clock), false, true)]
      ensures old(sched) == [] && |old(idle)| == 0 && (old(closed) || |old(all)| >= cfg.max || !grow) ==>
        && r.NoHolder? && all == old(all) && idle == [] && threads == old(threads)
        && forall x :: x in old(heap) ==> x in heap && heap[x] == old(heap)[x]
      ensures Got(how) == (if r.NoHolder? then None else Some(r.h)) && (r.NoHolder? ==> Explains(how, grow, ends))
      ensures Acts(me) == old(Acts(me)) + AcquireDeeds(how)
        + if r.NoHolder? then [] else UseDeeds(r.h, healthy, flag)
    {
      hide RunOf, Meanwhile, Acts, Told, AcquireDeeds, UseDeeds, Served, Used, NewHolder, Explains, Got;
      ghost var s0 := View();
      Begun();
      Enter(me, s0);
      r, how, flag := RunFrom(me, grow, ends, healthy, s0);
      Ended(s0);
    }

    // ----- Close

    method EnterClose(me: Tid, ghost s0: State)
      requires RunOf(s0) && published && me !in threads && me > REAPER
      modifies this`threads, this`trace
      ensures RunOf(s0) && threads == old(threads)[me := Marking]
      ensures Acts(me) == old(Acts(me))
    {
      hide Acts, Told, Leads, Reachable;
      ghost var v := View();
      threads := threads[me := Marking];
      Record(s0, v, CallClose(me));
    }

    method SetClosed(me: Tid, ghost s0: State) returns (first: bool)
      requires RunOf(s0) && me in threads && threads[me] == Marking
      modifies this`closed, this`threads, this`log, this`trace
      ensures RunOf(s0) && first == !old(closed) && closed
      ensures first ==> threads == old(threads)[me := In(if cfg.Reaps() then StoppingReaper else AwaitingReaper)]
      ensures !first ==> threads == old(threads) - {me} && log == old(log)
      ensures me == CTOR ==> !published
      ensures Acts(me) == old(Acts(me)) + [Deed(old(threads)[me], MarkClosed)]
    {
      hide Acts, Told, Leads, Reachable;
      ghost var v := View();
      if me == CTOR {
        CtorUnpublished(v);
      }
      first := !closed;
      if closed {
        threads := threads - {me};
      } else {
        closed := true;
        log := log.(atClose := all);
        threads := threads[me := In(if cfg.Reaps() then StoppingReaper else AwaitingReaper)];
      }
      Record(s0, v, Go(me, MarkClosed));
    }

    method CloseReaperStop(me: Tid, ghost s0: State)
      requires RunOf(s0) && me in threads && threads[me] == In(StoppingReaper)
      modifies this`reaperStop, this`threads, this`trace
      ensures RunOf(s0) && !old(reaperStop) && reaperStop && threads == old(threads)[me := In(AwaitingReaper)]
      ensures Acts(me) == old(Acts(me)) + [Deed(old(threads)[me], StopReaper)]
    {
      hide Acts, Told, Leads, Reachable;
      ghost var v := View();
      CloserFacts(v, me);
      reaperStop := true;
      threads := threads[me := In(AwaitingReaper)];
      Record(s0, v, Go(me, StopReaper));
    }

    /** The reaper's select takes the stop case. */
    method LeaveLoop(ghost s0: State)
      requires RunOf(s0) && REAPER in threads && threads[REAPER] == Sleeping && reaperStop
      modifies this`threads, this`trace
      ensures RunOf(s0) && threads == old(threads)[REAPER := Exiting]
      ensures Acts(REAPER) == old(Acts(REAPER)) + [Deed(old(threads)[REAPER], ReapStop)]
      ensures Told() == old(Told())
    {
      hide Acts, Told, Leads, Reachable;
      ghost var v := View();
      threads := threads[REAPER := Exiting];
      Record(s0, v, Go(REAPER, ReapStop));
    }

    /** The reaper's deferred close of reaperDone. */
    method CloseReaperDone(ghost s0: State)
      requires RunOf(s0) && REAPER in threads && threads[REAPER] == Exiting
      modifies this`reaperDone, this`threads, this`trace
      ensures RunOf(s0) && !old(reaperDone) && reaperDone && threads == old(threads) - {REAPER}
      ensures Acts(REAPER) == old(Acts(REAPER)) + [Deed(old(threads)[REAPER], ReapExit)]
      ensures Told() == old(Told())
    {
      hide Acts, Told, Leads, Reachable;
      ghost var v := View();
      ReaperAlive(v);
      reaperDone := true;
      threads := threads - {REAPER};
      Record(s0, v, Go(REAPER, ReapExit));
    }

    /** Lets the reaper perform its next region, leaving its loop when it can. */
    method ReaperMove(ghost s0: State)
      requires RunOf(s0) && REAPER in threads && OfReaper(threads[REAPER]) && !reaperDone && reaperStop
      modifies this`all, this`idle, this`heap, this`threads, this`log, this`reaperDone, this`trace
      ensures RunOf(s0)
      ensures reaperDone ==> threads == old(threads) - {REAPER} && |all| <= |old(all)|
      ensures !reaperDone ==>
        && REAPER in threads && threads == old(threads)[REAPER := threads[REAPER]] && OfReaper(threads[REAPER])
        && (|all| < |old(all)| || (|all| == |old(all)| && ToGo(threads[REAPER]) < ToGo(old(threads)[REAPER])))
      ensures log.snap == old(log).snap
    {
      hide RunOf;
      match threads[REAPER]
      case Sleeping => LeaveLoop(s0);
      case Exiting => CloseReaperDone(s0);
      case Counting(now) =>
        var enough := CountLive(now, s0);
      case Taking(now) =>
        var h, expired := TakeOldest(now, s0);
      case Has(h, w) => ReaperHolds(h, w, s0);
    }

    /** The part of reapIdle that deals with the holder it has received. */
    method ReaperHolds(h: Id, w: Work, ghost s0: State)
      requires RunOf(s0) && REAPER in threads && threads[REAPER] == Has(h, w) && OfReaper(threads[REAPER])
      modifies this`all, this`idle, this`heap, this`threads, this`log, this`trace
      ensures RunOf(s0) && REAPER in threads && OfReaper(threads[REAPER])
      ensures threads == old(threads)[REAPER := threads[REAPER]] && log.snap == old(log).snap
      ensures |all| < |old(all)| || (|all| == |old(all)| && ToGo(threads[REAPER]) < ToGo(old(threads)[REAPER]))
    {
      hide RunOf;
      match w {
        case PuttingBack => PutBack(h, s0);
        case Dropping(from) => DropFromReaper(h, from, s0);
        case Closing(from) => CloseImplOf(REAPER, h, from, s0);
      }
    }

    method DropFromReaper(h: Id, from: Caller, ghost s0: State)
      requires RunOf(s0) && REAPER in threads && threads[REAPER] == Has(h, Dropping(from)) && from.ByReaper?
      modifies this`all, this`threads, this`log, this`trace
      ensures RunOf(s0) && h in old(all) && all == old(all) - {h} && log.snap == old(log).snap
      ensures threads == old(threads)[REAPER := Has(h, Closing(from))]
    {
      ReaperAlive(View());
      var present := Unregister(REAPER, h, from, s0);
      ReaperAlive(View());
    }

    /**
      <-p.reaperDone: the other goroutines run until the channel is closed. Once the schedule is used up only the reaper
      needs to move, and it gets there.
     */
    method AwaitReaperDone(me: Tid, ghost s0: State)
      requires RunOf(s0) && me in threads && threads[me] == In(AwaitingReaper)
      modifies this
      ensures RunOf(s0) && me in threads && threads[me] == In(Snapshotting) && reaperDone
      ensures old(sched) == [] ==> sched == [] && forall x :: x in threads && x != me ==> x in old(threads) && threads[x] == old(threads)[x]
    {
      hide Meanwhile;
      CloserFacts(View(), me);
      while !reaperDone
        invariant RunOf(s0) && me in threads && threads[me] == In(AwaitingReaper) && me != REAPER
        invariant !reaperDone ==> reaperStop && REAPER in threads && OfReaper(threads[REAPER])
        invariant old(sched) == [] ==> sched == []
        invariant old(sched) == [] ==>
          forall x :: x in threads && x != me && x != REAPER ==> x in old(threads) && threads[x] == old(threads)[x]
        invariant reaperDone && old(sched) == [] && REAPER in threads ==>
          REAPER in old(threads) && threads[REAPER] == old(threads)[REAPER]
        decreases |sched|, |all|, if REAPER in threads then ToGo(threads[REAPER]) else 0, !reaperDone
      {
        if sched != [] {
          Interfere(me, s0);
        } else {
          ReaperMove(s0);
        }
        CloserFacts(View(), me);
      }
      LeaveBarrier(me, s0);
    }

    method LeaveBarrier(me: Tid, ghost s0: State)
      requires RunOf(s0) && me in threads && threads[me] == In(AwaitingReaper) && reaperDone
      modifies this`threads, this`trace
      ensures RunOf(s0) && threads == old(threads)[me := In(Snapshotting)]
      ensures Acts(me) == old(Acts(me)) + [Deed(old(threads)[me], AwaitReaper)]
    {
      hide Acts, Told, Leads, Reachable;
      ghost var v := View();
      threads := threads[me := In(Snapshotting)];
      Record(s0, v, Go(me, AwaitReaper));
    }

    method TakeSnapshot(me: Tid, ghost s0: State)
      requires RunOf(s0) && me in threads && threads[me] == In(Snapshotting)
      modifies this`all, this`threads, this`log, this`trace
      ensures RunOf(s0) && all == {} && log.snap == Some(old(all)) && log.drained == {}
      ensures threads == old(threads)[me := In(Draining(old(all)))]
      ensures Acts(me) == old(Acts(me)) + [Deed(old(threads)[me], Snapshot)]
    {
      hide Acts, Told, Leads, Reachable;
      ghost var v := View();
      CloserFacts(v, me);
      assert forall h :: h !in log.drained;
      threads := threads[me := In(Draining(all))];
      log := log.(snap := Some(all));
      all := {};
      Record(s0, v, Go(me, Snapshot));
    }

    /** One turn of the drain loop. */
    method DrainOne(me: Tid, ghost s0: State) returns (more: bool)
      requires RunOf(s0) && me in threads && threads[me].In? && threads[me].c.Draining?
      modifies this`idle, this`threads, this`log, this`trace
      ensures RunOf(s0) && log.snap == old(log).snap && (more <==> |old(idle)| > 0)
      ensures more ==> idle == old(idle)[1..] && threads == old(threads) && |log.drained| == |old(log).drained| + 1
      ensures !more ==> idle == old(idle) && log == old(log)
      ensures !more ==> threads == old(threads)[me := In(TearingDown(old(threads)[me].c.rest))]
      ensures Acts(me) == old(Acts(me)) + [Deed(old(threads)[me], Protocol.Drain)]
    {
      hide Acts, Told, Leads, Reachable;
      ghost var v := View();
      if |idle| == 0 {
        more := false;
        threads := threads[me := In(TearingDown(threads[me].c.rest))];
      } else {
        more := true;
        Head(v);
        log := log.(drained := log.drained + {idle[0]});
        idle := idle[1..];
      }
      Record(s0, v, Go(me, Protocol.Drain));
    }

    /** Empties idle. Late releases may refill it meanwhile, but at most Max holders are ever drained. */
    method DrainIdle(me: Tid, ghost s0: State) returns (drains: nat)
      requires RunOf(s0) && me in threads && threads[me].In? && threads[me].c.Draining? && log.drained == {}
      modifies this
      ensures RunOf(s0) && me in threads && threads[me] == In(TearingDown(old(threads)[me].c.rest))
      ensures log.snap == old(log).snap && drains <= cfg.max
      ensures old(sched) == [] ==> sched == [] && idle == [] && all == old(all) && heap == old(heap)
      ensures drains == |log.drained|
    {
      drains := 0;
      var more := true;
      while more
        invariant RunOf(s0) && me in threads && log.snap == old(log).snap && drains == |log.drained|
        invariant threads[me] == if more then old(threads)[me] else In(TearingDown(old(threads)[me].c.rest))
        invariant old(sched) == [] ==> sched == [] && all == old(all) && heap == old(heap) && (!more ==> idle == [])
        decreases more, |sched|, |idle|
      {
        ghost var v := View();
        Interfere(me, s0);
        CloserAlone(v, me, View());
        more := DrainOne(me, s0);
        if more {
          drains := drains + 1;
        }
      }
      CloserFacts(View(), me);
      assert forall h :: h in log.drained ==> h in log.atClose;
      SubsetSize(log.drained, log.atClose);
    }

    /** me stands in the teardown loop, and its next turn calls close on the nil impl of h. */
    ghost predicate CrashesAt(me: Tid, h: Id)
      reads this
    {
      && me in threads && threads[me].In? && threads[me].c.TearingDown? && h in threads[me].c.rest
      && Enabled(View(), Go(me, TearDown(h))) && Do(View(), Go(me, TearDown(h))).m.panic == Some(NilImpl(h))
    }

    /** One turn of the teardown loop; not ok: the impl is nil, and the process panics. */
    method TearOne(me: Tid, h: Id, ghost s0: State) returns (ok: bool)
      requires RunOf(s0) && me in threads && threads[me].In? && threads[me].c.TearingDown? && h in threads[me].c.rest
      modifies this`heap, this`threads, this`log, this`trace
      ensures h in old(heap) && ok == old(heap)[h].built
      ensures !ok ==> heap == old(heap) && threads == old(threads) && log == old(log)
      ensures ok ==>
        && RunOf(s0) && log.snap == old(log).snap
        && heap == old(heap)[h := old(heap)[h].(teardowns := old(heap)[h].teardowns + 1)]
        && threads == old(threads)[me := In(TearingDown(old(threads)[me].c.rest - {h}))]
      ensures !ok ==> RunOf(s0) && CrashesAt(me, h)
    {
      hide Acts, Told, Leads, Reachable;
      ghost var v := View();
      CloserFacts(v, me);
      ok := heap[h].built;
      if ok {
        heap := heap[h := heap[h].(teardowns := heap[h].teardowns + 1)];
        log := log.(torn := log.torn + {h});
        threads := threads[me := In(TearingDown(threads[me].c.rest - {h}))];
        Record(s0, v, Go(me, TearDown(h)));
      }
    }

    /** Whichever key the map iteration comes to next; Ownership.Pick does this in proofs, and cannot be called here. */
    static method SomeOf<T>(a: set<T>) returns (h: T)
      requires |a| > 0
      ensures h in a
    {
      h :| h in a;
    }

    /** The next turn of the teardown loop, whichever holder it comes to; not ok: its impl is nil. */
    method TearNext(me: Tid, ghost s0: State) returns (ok: bool, h: Id)
      requires RunOf(s0) && me in threads && threads[me].In? && threads[me].c.TearingDown? && |threads[me].c.rest| > 0
      modifies this
      ensures log.snap == old(log).snap && h in old(threads)[me].c.rest
      ensures ok ==>
        && RunOf(s0) && me in threads && threads[me] == In(TearingDown(old(threads)[me].c.rest - {h}))
        && (old(sched) == [] ==> forall x :: x in old(heap) && old(heap)[x].built ==> x in heap && heap[x].built)
      ensures !ok ==> me != CTOR && h in heap && !heap[h].built && log.snap.Some? && h in log.snap.value
      ensures old(sched) == [] ==> sched == [] && idle == old(idle) && all == old(all)
      ensures old(sched) == [] && h in old(heap) && old(heap)[h].built ==> ok
      ensures !ok ==> RunOf(s0) && CrashesAt(me, h)
    {
      ghost var v := View();
      Interfere(me, s0);
      CloserAlone(v, me, View());
      CloserFacts(View(), me);
      h := SomeOf(threads[me].c.rest);
      if CTOR == me {
        CtorBuilt(View(), h);
      }
      hide RunOf, Meanwhile;
      ok := TearOne(me, h, s0);
    }

    /** The teardown loop, in whatever order the map iteration gave. */
    method TearAll(me: Tid, ghost s0: State) returns (r: CloseResult)
      requires RunOf(s0) && me in threads && threads[me].In? && threads[me].c.TearingDown?
      modifies this
      ensures r.Done? ==> RunOf(s0) && me in threads && threads[me] == In(TearingDown({})) && log.snap == old(log).snap
      ensures r.Crashed? ==> me != CTOR && log.snap == old(log).snap && log.snap.Some? && r.h in log.snap.value
      ensures r.Done? || (r.Crashed? && r.h in heap && !heap[r.h].built)
      ensures old(sched) == [] ==> sched == [] && idle == old(idle) && all == old(all)
      ensures old(sched) == [] && (forall h :: h in old(threads)[me].c.rest ==> h in old(heap) && old(heap)[h].built) ==>
        r.Done?
      ensures r.Crashed? ==> RunOf(s0) && CrashesAt(me, r.h)
    {
      ghost var built := forall h :: h in threads[me].c.rest ==> h in heap && heap[h].built;
      while |threads[me].c.rest| > 0
        invariant RunOf(s0) && me in threads && threads[me].In? && threads[me].c.TearingDown?
        invariant log.snap == old(log).snap
        invariant old(sched) == [] ==> sched == [] && idle == old(idle) && all == old(all)
        invariant old(sched) == [] && built ==> forall h :: h in threads[me].c.rest ==> h in heap && heap[h].built
        decreases |threads[me].c.rest|
      {
        hide RunOf;
        var ok, h := TearNext(me, s0);
        if !ok {
          return Crashed(h);
        }
      }
      return Done;
    }

    /** The last thing me did was to return from the end of Close. */
    ghost predicate CameBack(me: Tid)
      reads this
    {
      var n := |Acts(me)|; n > 0 && Acts(me)[n - 1] == Deed(In(TearingDown({})), CloseReturn)
    }

    method ReturnFromClose(me: Tid, ghost s0: State)
      requires RunOf(s0) && me in threads && threads[me] == In(TearingDown({}))
      modifies this`threads, this`trace
      ensures RunOf(s0) && threads == old(threads) - {me}
      ensures closed && reaperDone && log.snap.Some? && forall h :: h in log.snap.value ==> Torn(View().m, h)
      ensures me == CTOR ==> !published
      ensures Acts(me) == old(Acts(me)) + [Deed(old(threads)[me], CloseReturn)]
    {
      hide Acts, Told, Leads, Reachable;
      ghost var v := View();
      CloserFacts(v, me);
      if me == CTOR {
        CtorUnpublished(v);
      }
      forall h | h in log.snap.value ensures Torn(v.m, h) {
        assert h !in log.snap.value - log.torn;
      }
      threads := threads - {me};
      Record(s0, v, Go(me, CloseReturn));
    }

    /** Waits for the reaper and takes the definitive holder set. */
    method StopAndSnapshot(me: Tid, ghost s0: State)
      requires RunOf(s0) && me in threads && threads[me] == In(AwaitingReaper)
      modifies this
      ensures RunOf(s0) && me in threads && threads[me].In? && threads[me].c.Draining? && log.drained == {}
      ensures log.snap == Some(threads[me].c.rest)
      ensures old(sched) == [] ==> sched == [] && all == {}
      ensures old(sched) == [] && (forall x :: x in old(threads) ==> !IsBuilding(old(threads)[x])) ==>
        forall h :: h in threads[me].c.rest ==> h in heap && heap[h].built
    {
      hide RunOf, Meanwhile, Acts, Told;
      AwaitReaperDone(me, s0);
      Interfere(me, s0);
      ghost var v := View();
      if old(sched) == [] && forall x :: x in old(threads) ==> !IsBuilding(old(threads)[x]) {
        forall x | x in v.pc ensures !IsBuilding(v.pc[x]) {
          assert x != me ==> !IsBuilding(old(threads)[x]);
        }
        NothingUnbuilt(s0);
      }
      TakeSnapshot(me, s0);
    }

    lemma NothingUnbuilt(s0: State)
      requires RunOf(s0) && forall x :: x in threads ==> !IsBuilding(threads[x])
      ensures forall h :: h in all ==> h in heap && heap[h].built
    {
      RegisteredBuilt(View());
    }

    /** The rest of Close after the closed flag is set and the reaper told to stop. */
    method Teardown(me: Tid, ghost s0: State) returns (r: CloseResult, drains: nat)
      requires RunOf(s0) && me in threads && threads[me] == In(AwaitingReaper)
      modifies this
      ensures r.Done? || (r.Crashed? && me != CTOR)
      ensures me == CTOR ==> !published
      ensures r.Done? ==>
        && RunOf(s0) && me !in threads && drains <= cfg.max && closed && reaperDone
        && log.snap.Some? && forall h :: h in log.snap.value ==> Torn(View().m, h)
      ensures r.Crashed? ==> r.h in heap && !heap[r.h].built && log.snap.Some? && r.h in log.snap.value
      ensures old(sched) == [] && (forall x :: x in old(threads) ==> !IsBuilding(old(threads)[x])) ==>
        r.Done? && sched == [] && all == {} && idle == []
      ensures r.Crashed? ==> RunOf(s0) && CrashesAt(me, r.h)
      ensures r.Done? ==> CameBack(me)
    {
      hide RunOf, Meanwhile, Acts, Told;
      StopAndSnapshot(me, s0);
      drains := DrainIdle(me, s0);
      r := TearAll(me, s0);
      if r.Done? {
        Interfere(me, s0);
        ReturnFromClose(me, s0);
      }
    }

    /** Pool.Close by a thread that stands at its beginning. */
    method CloseFrom(me: Tid, ghost s0: State) returns (r: CloseResult)
      requires RunOf(s0) && me in threads && threads[me] == Marking
      modifies this
      ensures r.Crashed? || (RunOf(s0) && me !in threads)
      ensures me == CTOR ==> !r.Crashed? && !published
      ensures r.Done? ==>
        closed && reaperDone && log.snap.Some? && forall h :: h in log.snap.value ==> Torn(View().m, h)
      ensures r.Crashed? ==> r.h in heap && !heap[r.h].built && log.snap.Some? && r.h in log.snap.value
      ensures old(sched) == [] && old(closed) ==> r == AlreadyClosed && all == old(all) && idle == old(idle) && heap == old(heap)
      ensures old(sched) == [] && !old(closed) && (forall x :: x in old(threads) ==> !IsBuilding(old(threads)[x])) ==>
        r == Done && all == {} && idle == []
      ensures r.Crashed? ==> RunOf(s0) && CrashesAt(me, r.h)
      ensures r.Done? ==> CameBack(me)
      ensures r.AlreadyClosed? ==> closed && Acts(me) == old(Acts(me)) + [Deed(Marking, MarkClosed)]
    {
      hide RunOf, Meanwhile, Acts, Told;
      Interfere(me, s0);
      var first := SetClosed(me, s0);
      if !first {
        return AlreadyClosed;
      }
      Interfere(me, s0);
      if cfg.Reaps() {
        CloseReaperStop(me, s0);
      }
      var drains;
      r, drains := Teardown(me, s0);
    }

    /** Pool.Close called from outside, any number of times and from any number of threads. */
    method Close(me: Tid) returns (r: CloseResult)
      requires Valid() && published && me !in threads && me > REAPER
      modifies this
      ensures r.Crashed? || (Valid() && Leads(old(View()), View()) && me !in threads)
      ensures r.Done? ==>
        closed && reaperDone && log.snap.Some? && forall h :: h in log.snap.value ==> Torn(View().m, h)
      ensures r.Crashed? ==> r.h in heap && !heap[r.h].built && log.snap.Some? && r.h in log.snap.value
      ensures old(sched) == [] && old(closed) ==> r == AlreadyClosed && all == old(all) && idle == old(idle) && heap == old(heap)
      ensures old(sched) == [] && !old(closed) && (forall x :: x in old(threads) ==> !IsBuilding(old(threads)[x])) ==>
        r == Done && all == {} && idle == []
      ensures r.Crashed? ==> Valid() && Leads(old(View()), View()) && CrashesAt(me, r.h)
      ensures r.Done? ==> CameBack(me)
      ensures r.AlreadyClosed? ==> closed && Acts(me) == old(Acts(me)) + [Deed(Marking, MarkClosed)]
    {
      ghost var s0 := View();
      LeadsRefl(s0);
      EnterClose(me, s0);
      r := CloseFrom(me, s0);
    }

    // ----- NewPool

    /** createHolder: builds one holder and registers it. */
    method CreateHolder(i: nat, ok: bool, ghost s0: State) returns (h: Option<Id>)
      requires RunOf(s0) && CTOR in threads && threads[CTOR] == Filling(i) && i < cfg.min
      modifies this`all, this`heap, this`threads, this`trace
      ensures RunOf(s0) && h.Some? == ok
      ensures ok ==> h.value !in old(heap) && all == old(all) + {h.value} && heap == old(heap)[h.value := NewHolder(true, clock)]
      ensures !ok ==> all == old(all) && heap == old(heap)
      ensures threads == old(threads)[CTOR := if ok then Has(h.value, Enqueuing(i)) else Marking]
    {
      hide Acts, Told, Leads, Reachable;
      ghost var v := View();
      var x := NewAddress();
      if ok {
        all := all + {x};
        heap := heap[x := NewHolder(true, clock)];
        threads := threads[CTOR := Has(x, Enqueuing(i))];
        h := Some(x);
      } else {
        threads := threads[CTOR := Marking];
        h := None;
      }
      Record(s0, v, Go(CTOR, Create(x, ok)));
    }

    method EnqueueHolder(i: nat, h: Id, ghost s0: State)
      requires RunOf(s0) && CTOR in threads && threads[CTOR] == Has(h, Enqueuing(i))
      modifies this`idle, this`threads, this`trace
      ensures RunOf(s0) && idle == old(idle) + [h] && threads == old(threads)[CTOR := Filling(i + 1)]
      ensures Acts(CTOR) == old(Acts(CTOR)) + [Deed(old(threads)[CTOR], Enqueue)]
    {
      hide Acts, Told, Leads, Reachable;
      ghost var v := View();
      Mine(v, CTOR);
      idle := idle + [h];
      threads := threads[CTOR := Filling(i + 1)];
      Record(s0, v, Go(CTOR, Enqueue));
    }

    /** NewPool returns the pool. */
    method Hand(ghost s0: State)
      requires RunOf(s0) && CTOR in threads && threads[CTOR].Filling? && threads[CTOR].i >= cfg.min
      modifies this`published, this`threads, this`trace
      ensures RunOf(s0) && published && Complete()
      ensures Acts(CTOR) == old(Acts(CTOR)) + [Deed(old(threads)[CTOR], Publish)]
    {
      hide Acts, Told, Leads, Reachable;
      ghost var v := View();
      NewPoolSucceeds(v);
      published := true;
      threads := threads - {CTOR};
      Record(s0, v, Go(CTOR, Publish));
    }

    /** Exactly Min holders, distinct, live and unused, all registered and all idle. */
    ghost predicate Complete()
      reads this
    {
      && |all| == |idle| == cfg.min && Distinct(idle) && !closed
      && (forall h :: h in all <==> h in idle)
      && (forall h :: h in heap <==> h in all)
      && (forall h :: h in all ==> h in heap && heap[h].built && !heap[h].dead && Closes(View().m, h) == 0)
    }

    /** One turn of the loop: a holder is made and put into idle; not ok: the create failed, and Close has cleaned up. */
    method FillOne(i: nat, ok: bool, ghost s0: State)
      requires RunOf(s0) && CTOR in threads && threads[CTOR] == Filling(i) && i < cfg.min
      modifies this
      ensures RunOf(s0)
      ensures ok ==> CTOR in threads && threads[CTOR] == Filling(i + 1)
      ensures !ok ==> CTOR !in threads && !published
    {
      hide RunOf, Meanwhile, Acts, Told;
      Interfere(CTOR, s0);
      var h := CreateHolder(i, ok, s0);
      Interfere(CTOR, s0);
      if h.None? {
        var r := CloseFrom(CTOR, s0);
      } else {
        EnqueueHolder(i, h.value, s0);
      }
    }

    lemma NothingLeft(s0: State)
      requires RunOf(s0) && CTOR !in threads && !published
      ensures closed && all == {} && idle == [] && forall h :: h in heap ==> heap[h].built && Closes(View().m, h) == 1
    {
      NewPoolFails(View());
    }

    /** NewPool after the reaper is set up; the i-th backend create fails if i is in fails. */
    method Fill(fails: set<nat>) returns (ok: bool)
      requires Valid() && CTOR in threads && threads[CTOR] == Filling(0) && !published
      modifies this
      ensures Valid() && Leads(old(View()), View())
      ensures ok <==> forall i :: 0 <= i < cfg.min ==> i !in fails
      ensures ok ==> published && Complete()
      ensures !ok ==>
        && !published && closed && all == {} && idle == []
        && forall h :: h in heap ==> heap[h].built && Closes(View().m, h) == 1
    {
      hide RunOf, Meanwhile, Acts, Told, Complete;
      ghost var s0 := View();
      Begun();
      ok := true;
      var i := 0;
      while ok && i < cfg.min
        invariant 0 <= i && (i <= cfg.min || i == 0) && RunOf(s0)
        invariant if ok then CTOR in threads && threads[CTOR] == Filling(i) else CTOR !in threads && !published
        invariant forall k :: 0 <= k < i ==> k !in fails
        invariant !ok ==> i < cfg.min && i in fails
        decreases ok, cfg.min - i
      {
        ok := i !in fails;
        FillOne(i, ok, s0);
        if ok {
          i := i + 1;
        }
      }
      if ok {
        Interfere(CTOR, s0);
        Hand(s0);
      } else {
        NothingLeft(s0);
      }
      Ended(s0);
    }
  }

  /**
    NewPool. userSet: Opts.User is not empty; fails: the backend creates that fail. p is the Pool that was allocated, if
    any, which the caller only gets when there is no error.
   */
  method NewPool(userSet: bool, c: Config, fails: set<nat>, schedule: seq<seq<Step>>) returns (e: Option<NewPoolError>, p: Pool?)
    ensures e == Some(UserNotSet) <==> !userSet
    ensures e.Some? && e.value.BadConfig? <==> userSet && !(0 <= c.min && (c.min <= c.max || c.min <= 1))
    ensures p == null <==> e.Some? && !e.value.CreateFailed?
    ensures e.Some? && e.value.BadConfig? ==> (e.value.error == NegativeMin <==> c.min < 0)
    ensures p != null ==> fresh(p) && p.Valid() && p.cfg == c.(max := if c.max < 1 then 1 else c.max)
    ensures p != null ==> (e.Some? <==> exists i :: 0 <= i < c.min && i in fails)
    ensures e.None? ==> p.published && p.Complete()
    ensures p != null && e.Some? ==>
      p.closed && p.all == {} && p.idle == [] && forall h :: h in p.heap ==> p.heap[h].built && Closes(p.View().m, h) == 1
  {
    if !userSet {
      return Some(UserNotSet), null;
    }
    var cfg := Normalize(c);
    if cfg.Failure? {
      return Some(BadConfig(cfg.error)), null;
    }
    p := new Pool(cfg.value, schedule);
    var ok := p.Fill(fails);
    e := if ok then None else Some(CreateFailed);
  }
}
