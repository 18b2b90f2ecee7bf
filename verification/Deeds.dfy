/** What one goroutine has done in a run: the regions it performed, and where it stood before each. */
module Deeds {
  import opened Wrappers
  import opened Protocol

  datatype Deed = Deed(at: Pc, a: Action)

  /** The deeds of t in the run es from s; the rest of a run that is not possible counts for nothing. */
  ghost function DeedsOf(s: State, es: seq<Step>, t: Tid): seq<Deed>
    decreases |es|
  {
    if es == [] || !Enabled(s, es[0]) then []
    else Share(s, es[0], t) + DeedsOf(Do(s, es[0]), es[1..], t)
  }

  /** What a step adds to the deeds of t. */
  function Share(s: State, e: Step, t: Tid): seq<Deed> {
    if e.Go? && e.t == t && t in s.pc then [Deed(s.pc[t], e.a)] else []
  }

  lemma {:induction false} DeedsAppend(s: State, es: seq<Step>, u: State, e: Step, t: Tid)
    requires Steps(s, es, u) && Enabled(u, e)
    ensures Steps(s, es + [e], Do(u, e))
    ensures DeedsOf(s, es + [e], t) == DeedsOf(s, es, t) + Share(u, e, t)
    decreases |es|
  {
    if es == [] {
      assert es + [e] == [e] && [e][1..] == [];
      assert Steps(Do(u, e), [e][1..], Do(u, e));
    } else {
      hide Do, Enabled;
      DeedsAppend(Do(s, es[0]), es[1..], u, e, t);
      assert (es + [e])[0] == es[0] && (es + [e])[1..] == es[1..] + [e];
    }
  }

  /** For every tick of the reaper in the run es from s, whether it had been told to stop by then. */
  ghost function ToldOf(s: State, es: seq<Step>): seq<bool>
    decreases |es|
  {
    if es == [] || !Enabled(s, es[0]) then []
    else TickShare(s, es[0]) + ToldOf(Do(s, es[0]), es[1..])
  }

  function TickShare(s: State, e: Step): seq<bool> {
    if e == Go(REAPER, ReapTick) then [s.m.stop] else []
  }

  lemma {:induction false} ToldAppend(s: State, es: seq<Step>, u: State, e: Step)
    requires Steps(s, es, u) && Enabled(u, e)
    ensures ToldOf(s, es + [e]) == ToldOf(s, es) + TickShare(u, e)
    decreases |es|
  {
    if es == [] {
      assert es + [e] == [e] && [e][1..] == [];
    } else {
      hide Do, Enabled;
      ToldAppend(Do(s, es[0]), es[1..], u, e);
      assert (es + [e])[0] == es[0] && (es + [e])[1..] == es[1..] + [e];
    }
  }

  /** How often a goroutine has looked at the live count, as reapIdle does once in every round. */
  function Looks(deeds: seq<Deed>): nat {
    if deeds == [] then 0 else Looks(deeds[..|deeds| - 1]) + if deeds[|deeds| - 1].a.ReapCount? then 1 else 0
  }

  lemma {:induction false} LooksAppend(deeds: seq<Deed>, more: seq<Deed>)
    ensures Looks(deeds + more) == Looks(deeds) + Looks(more)
    decreases |more|
  {
    if more == [] {
      assert deeds + more == deeds;
    } else {
      var n := |more| - 1;
      LooksAppend(deeds, more[..n]);
      assert (deeds + more)[..|deeds + more| - 1] == deeds + more[..n];
    }
  }

  /** What the reaper does in a round after the look at the count. */
  lemma NoLooks(h: Id, now: nat, present: bool)
    ensures Looks([Deed(Taking(now), ReapTake)]) == 0 && Looks([Deed(Has(h, PuttingBack), ReapPutBack)]) == 0
    ensures Looks(DropDeeds(h, ByReaper(now), present)) == 0
    ensures Looks([Deed(Counting(now), ReapCount)]) == 1 && Looks([Deed(Sleeping, ReapTick)]) == 0
  {
    var drop := Deed(Has(h, Dropping(ByReaper(now))), DropLocked);
    LooksAppend([drop], [Deed(Has(h, Closing(ByReaper(now))), CloseImpl)]);
    assert [drop] + [] == [drop];
  }

  // ----- The ways through Run

  /** How a call of acquire can go; slot is the reservation it would have made. */
  datatype Way =
    | Fast(h: Id)
    | TurnedAway(slot: Id)
    | Grown(h: Id)
    | Refused(h: Id)
    | Waited(slot: Id, h: Id)
    | GaveUp(slot: Id)

  /** The holder that acquire returns. */
  function Got(how: Way): Option<Id> {
    match how
    case Fast(h) => Some(h)
    case Grown(h) => Some(h)
    case Waited(_, h) => Some(h)
    case _ => None
  }

  function GrowDeeds(how: Way): seq<Deed>
    requires !how.Fast?
  {
    match how
    case TurnedAway(x) => [Deed(Reserving, ReserveSlot(x))]
    case Grown(h) => [Deed(Reserving, ReserveSlot(h)), Deed(Has(h, Building), Build(true))]
    case Refused(h) => [Deed(Reserving, ReserveSlot(h)), Deed(Has(h, Building), Build(false))]
    case Waited(x, _) => [Deed(Reserving, ReserveSlot(x)), Deed(Waiting, WaitIdle)]
    case GaveUp(x) => [Deed(Reserving, ReserveSlot(x)), Deed(Waiting, Cancel)]
  }

  function AcquireDeeds(how: Way): seq<Deed> {
    [Deed(TryingIdle, TryIdle)] + if how.Fast? then [] else GrowDeeds(how)
  }

  function WorkDeeds(h: Id, healthy: bool): seq<Deed> {
    [Deed(Has(h, Acquired), Begin), Deed(Has(h, Running), Finish), Deed(Has(h, Cleaned), Check(healthy))]
  }

  function ReleaseDeeds(h: Id, pushed: bool): seq<Deed> {
    [Deed(Has(h, Stamping), Stamp), Deed(Has(h, Releasing), ReleaseLocked),
     if pushed then Deed(Has(h, Pushing), Push) else Deed(Has(h, Closing(ByRun)), CloseImpl)]
  }

  function DropDeeds(h: Id, from: Caller, present: bool): seq<Deed> {
    [Deed(Has(h, Dropping(from)), DropLocked)] + if present then [Deed(Has(h, Closing(from)), CloseImpl)] else []
  }

  /** release or drop; flag is what pushed or present was. */
  function ReturnDeeds(h: Id, healthy: bool, flag: bool): seq<Deed> {
    if healthy then ReleaseDeeds(h, flag) else DropDeeds(h, ByRun, flag)
  }

  function SettleDeeds(h: Id, healthy: bool, flag: bool): seq<Deed> {
    ReturnDeeds(h, healthy, flag) + [Deed(Unlocking(h), Unlock)]
  }

  /** A Run from the moment it has its holder to its return. */
  function UseDeeds(h: Id, healthy: bool, flag: bool): seq<Deed> {
    WorkDeeds(h, healthy) + SettleDeeds(h, healthy, flag)
  }
}
