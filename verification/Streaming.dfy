/**
  exec and its SyncWriters, one step per lock operation and per byte that reaches the caller's writers.

  Any number of Write and Close calls are under way at once, before and after exec returns. Even the underlying Write is
  not atomic here: bytes arrive one by one, so what keeps a write in one piece, and what makes Close wait for a write
  under way, is the mutex. The caller's two writers may be one and the same.
 */
module Streaming {
  import opened Wrappers
  import opened SyncWriters
  import opened K8sExec

  /** Identifies a call; exec's own thread is a fixed one. */
  type Caller = int

  const EXEC: Caller := 0

  datatype Pc =
    // exec: before and after NewSPDYExecutor
    | Creating
    | NoExecutor
    | Streams
    // a call on a SyncWriter: at s.mu.Lock, inside, inside w.Write with k bytes written, at s.mu.Unlock, returned
    | Blocked(port: Port, op: Op)
    | Locked(port: Port, op: Op)
    | Copying(port: Port, op: Op, k: nat)
    | Unlocking(port: Port, op: Op, reply: Reply)
    | Returned(port: Port, op: Op, reply: Reply)

  /** A SyncWriter: its mutex, its flag, and the calls that have been through the lock. */
  datatype Pipe = Pipe(mu: Option<Caller>, closed: bool, log: seq<Entry>)

  datatype Pair<T> = Pair(out: T, err: T) {
    function Get(port: Port): T {
      if port.Out? then out else err
    }

    function Set(port: Port, x: T): Pair<T> {
      if port.Out? then this.(out := x) else this.(err := x)
    }
  }

  datatype State = State(same: bool, pipes: Pair<Pipe>, data: Pair<Bytes>, pc: map<Caller, Pc>)

  datatype Action = Create(ok: bool) | StreamReturns | Lock | Test | Copy | Done(failed: bool) | Unlock

  datatype Step = Call(t: Caller, port: Port, op: Op) | Go(t: Caller, a: Action)

  /** The caller's writer behind a port. */
  function Target(same: bool, port: Port): Port {
    if same then Out else port
  }

  function Init(same: bool, data: Pair<Bytes>): State {
    State(same, Pair(Pipe(None, false, []), Pipe(None, false, [])), data, map[EXEC := Creating])
  }

  predicate Ready(s: State, p: Pc, a: Action) {
    match a
    case Create(_) => p.Creating?
    case StreamReturns => p.Streams?
    case Lock => p.Blocked? && s.pipes.Get(p.port).mu.None?
    case Test => p.Locked?
    case Copy => p.Copying? && p.op.WriteOp? && p.k < |p.op.p|
    case Done(_) => p.Copying? && p.op.WriteOp?
    case Unlock => p.Unlocking?
  }

  predicate Enabled(s: State, e: Step) {
    match e
    case Call(t, port, op) => t !in s.pc && EXEC in s.pc && !s.pc[EXEC].Creating? && !s.pc[EXEC].NoExecutor?
    case Go(t, a) => t in s.pc && Ready(s, s.pc[t], a)
  }

  function Record(s: State, t: Caller, port: Port, op: Op, r: Reply): State {
    var pipe := s.pipes.Get(port);
    s.(pipes := s.pipes.Set(port, pipe.(log := pipe.log + [Entry(t, op, r)])), pc := s.pc[t := Unlocking(port, op, r)])
  }

  function Act(s: State, t: Caller, a: Action): State
    requires t in s.pc && Ready(s, s.pc[t], a)
  {
    var p := s.pc[t];
    match a
    // exec, poolk8s.go:148-163
    case Create(ok) => s.(pc := s.pc[t := if ok then Streams else NoExecutor])
    case StreamReturns => s.(pc := s.pc[t := Blocked(Out, CloseOp)])
    // Write and Close, syncwriter.go:30-43
    case Lock => s.(pipes := s.pipes.Set(p.port, s.pipes.Get(p.port).(mu := Some(t))), pc := s.pc[t := Locked(p.port, p.op)])
    case Test =>
      var pipe := s.pipes.Get(p.port);
      (match p.op
       case WriteOp(bytes) =>
         if pipe.closed then Record(s, t, p.port, p.op, Reply(|bytes|, false)) else s.(pc := s.pc[t := Copying(p.port, p.op, 0)])
       case CloseOp =>
         Record(s.(pipes := s.pipes.Set(p.port, pipe.(closed := true))), t, p.port, p.op, Reply(0, false)))
    case Copy =>
      var to := Target(s.same, p.port);
      s.(data := s.data.Set(to, s.data.Get(to) + [p.op.p[p.k]]), pc := s.pc[t := p.(k := p.k + 1)])
    case Done(failed) => Record(s, t, p.port, p.op, Reply(p.k, failed || p.k < |p.op.p|))
    case Unlock =>
      s.(pipes := s.pipes.Set(p.port, s.pipes.Get(p.port).(mu := None)),
         pc := s.pc[t := if t == EXEC && p.port.Out? then Blocked(Err, CloseOp) else Returned(p.port, p.op, p.reply)])
  }

  function Do(s: State, e: Step): State
    requires Enabled(s, e)
  {
    match e
    case Call(t, port, op) => s.(pc := s.pc[t := Blocked(port, op)])
    case Go(t, a) => Act(s, t, a)
  }

  ghost predicate Steps(s: State, es: seq<Step>, u: State)
    decreases |es|
  {
    if es == [] then u == s else Enabled(s, es[0]) && Steps(Do(s, es[0]), es[1..], u)
  }

  /** s occurs in a run whose caller's writers hold data at the beginning. */
  ghost predicate Reachable(s: State, data: Pair<Bytes>) {
    exists es :: Steps(Init(s.same, data), es, s)
  }

  // ----- What every step keeps

  predicate Inside(p: Pc) {
    p.Locked? || p.Copying? || p.Unlocking?
  }

  /** The mutex of the port belongs to exactly the call that is inside. */
  predicate LockOk(s: State, port: Port) {
    s.pipes.Get(port).mu.Some? ==>
      var t := s.pipes.Get(port).mu.value; t in s.pc && Inside(s.pc[t]) && s.pc[t].port == port
  }

  predicate ThreadOk(s: State, t: Caller)
    requires t in s.pc
  {
    var p := s.pc[t];
    && (Inside(p) ==> s.pipes.Get(p.port).mu == Some(t))
    && (p.Copying? ==> !s.pipes.Get(p.port).closed && p.op.WriteOp? && p.k <= |p.op.p|)
    && ((p.Unlocking? || p.Returned?) ==> Entry(t, p.op, p.reply) in s.pipes.Get(p.port).log)
    && (t != EXEC ==> !p.Creating? && !p.NoExecutor? && !p.Streams?)
  }

  /** exec shuts stdout's SyncWriter, then stderr's. */
  predicate ExecOk(s: State) {
    && EXEC in s.pc
    && var p := s.pc[EXEC];
       && (p.Blocked? || Inside(p) || p.Returned? ==> p.op == CloseOp && (p.port.Err? ==> s.pipes.out.closed))
       && (p.Unlocking? || p.Returned? ==> s.pipes.Get(p.port).closed)
       && (p.Returned? ==> p.port.Err?)
  }

  /** What the call inside the port's lock has already written of its bytes. */
  function InFlight(s: State, port: Port): Bytes {
    var mu := s.pipes.Get(port).mu;
    if mu.Some? && mu.value in s.pc && s.pc[mu.value].Copying? && s.pc[mu.value].op.WriteOp? && s.pc[mu.value].k <= |s.pc[mu.value].op.p|
    then s.pc[mu.value].op.p[..s.pc[mu.value].k] else []
  }

  predicate LogOk(s: State, port: Port) {
    var pipe := s.pipes.Get(port);
    Lawful(pipe.log) && (pipe.closed <==> FirstClose(pipe.log) < |pipe.log|)
  }

  predicate DataOk(s: State, data: Pair<Bytes>, port: Port) {
    !s.same ==> s.data.Get(port) == data.Get(port) + Taken(Kept(s.pipes.Get(port).log)) + InFlight(s, port)
  }

  ghost predicate Inv(s: State, data: Pair<Bytes>) {
    && ExecOk(s)
    && (forall port: Port :: LockOk(s, port) && LogOk(s, port) && DataOk(s, data, port))
    && (forall t :: t in s.pc ==> ThreadOk(s, t))
  }

  lemma InitInv(same: bool, data: Pair<Bytes>)
    ensures Inv(Init(same, data), data)
  {
  }

  /** A thread's step keeps what is known about its own call. */
  lemma MineKept(s: State, t: Caller, a: Action)
    requires t in s.pc && Ready(s, s.pc[t], a) && ThreadOk(s, t) && (a.Create? || a.StreamReturns? ==> t == EXEC)
    ensures ThreadOk(Act(s, t, a), t)
  {
  }

  /** Another call is only affected through its mutex, which it has if it is inside. */
  lemma OthersKept(s: State, t: Caller, a: Action, x: Caller)
    requires t in s.pc && Ready(s, s.pc[t], a) && ThreadOk(s, t) && x in s.pc && x != t && ThreadOk(s, x)
    ensures ThreadOk(Act(s, t, a), x)
  {
  }

  lemma LockKept(s: State, t: Caller, a: Action, port: Port)
    requires t in s.pc && Ready(s, s.pc[t], a) && ThreadOk(s, t) && LockOk(s, port)
    ensures LockOk(Act(s, t, a), port)
  {
  }

  lemma ExecKept(s: State, t: Caller, a: Action)
    requires t in s.pc && Ready(s, s.pc[t], a) && ThreadOk(s, t) && ExecOk(s)
    ensures ExecOk(Act(s, t, a))
  {
  }

  /** A call gets its place in the history at the moment it is decided, with the reply that Lawful asks for. */
  lemma LogKept(s: State, t: Caller, a: Action, port: Port)
    requires t in s.pc && Ready(s, s.pc[t], a) && ThreadOk(s, t) && LogOk(s, port)
    ensures LogOk(Act(s, t, a), port)
  {
    var p, u := s.pc[t], Act(s, t, a);
    if (a.Test? || a.Done?) && p.port == port {
      var log := s.pipes.Get(port).log;
      if u.pipes.Get(port).log != log {
        var e := u.pipes.Get(port).log[|log|];
        assert u.pipes.Get(port).log == log + [e];
        FirstCloseAppend(log, e);
        LawfulAppend(log, e);
      }
    }
  }

  /** One more byte is under way, and written. */
  lemma ByteKept(s: State, data: Pair<Bytes>, t: Caller, port: Port)
    requires t in s.pc && Ready(s, s.pc[t], Copy) && ThreadOk(s, t) && LockOk(s, port) && DataOk(s, data, port)
    ensures DataOk(Act(s, t, Copy), data, port)
  {
    hide Taken, Kept;
    var p := s.pc[t];
    if p.port == port {
      assert p.op.p[..p.k + 1] == p.op.p[..p.k] + [p.op.p[p.k]];
    }
  }

  /** A call is decided: what it has written is no longer under way, but in the history. */
  lemma DecisionKept(s: State, data: Pair<Bytes>, t: Caller, a: Action, port: Port)
    requires t in s.pc && Ready(s, s.pc[t], a) && (a.Test? || a.Done?) && s.pc[t].port == port
    requires ThreadOk(s, t) && LockOk(s, port) && LogOk(s, port) && DataOk(s, data, port)
    ensures DataOk(Act(s, t, a), data, port)
  {
    hide Taken, Kept, Lawful, FirstClose;
    var u, log := Act(s, t, a), s.pipes.Get(port).log;
    if u.pipes.Get(port).log != log {
      var e := u.pipes.Get(port).log[|log|];
      assert u.pipes.Get(port).log == log + [e];
      KeptAppend(log, e);
    }
  }

  lemma DataKept(s: State, data: Pair<Bytes>, t: Caller, a: Action, port: Port)
    requires t in s.pc && Ready(s, s.pc[t], a) && ThreadOk(s, t) && LockOk(s, port) && LogOk(s, port) && DataOk(s, data, port)
    ensures DataOk(Act(s, t, a), data, port)
  {
    hide Taken, Kept, Lawful, FirstClose;
    if a.Copy? {
      ByteKept(s, data, t, port);
    } else if (a.Test? || a.Done?) && s.pc[t].port == port {
      DecisionKept(s, data, t, a, port);
    }
  }

  lemma CallKept(s: State, data: Pair<Bytes>, e: Step)
    requires Inv(s, data) && Enabled(s, e) && e.Call?
    ensures Inv(Do(s, e), data)
  {
    hide Taken, Kept, Lawful, FirstClose;
    forall port: Port ensures LockOk(Do(s, e), port) && LogOk(Do(s, e), port) && DataOk(Do(s, e), data, port) {
      assert LockOk(s, port) && LogOk(s, port) && DataOk(s, data, port);
    }
    forall x | x in Do(s, e).pc ensures ThreadOk(Do(s, e), x) {
      assert x != e.t ==> ThreadOk(s, x);
    }
  }

  lemma GoKept(s: State, data: Pair<Bytes>, t: Caller, a: Action)
    requires Inv(s, data) && Enabled(s, Go(t, a))
    ensures Inv(Act(s, t, a), data)
  {
    var u := Act(s, t, a);
    assert ThreadOk(s, t) && (a.Create? || a.StreamReturns? ==> t == EXEC);
    ThreadsStay(s, t, a);
    hide Act, ThreadOk, LockOk, LogOk, DataOk, ExecOk;
    forall port: Port ensures LockOk(u, port) && LogOk(u, port) && DataOk(u, data, port) {
      LockKept(s, t, a, port);
      LogKept(s, t, a, port);
      DataKept(s, data, t, a, port);
    }
    forall x | x in u.pc ensures ThreadOk(u, x) {
      if x == t {
        MineKept(s, t, a);
      } else {
        OthersKept(s, t, a, x);
      }
    }
    ExecKept(s, t, a);
  }

  lemma ThreadsStay(s: State, t: Caller, a: Action)
    requires t in s.pc && Ready(s, s.pc[t], a)
    ensures Act(s, t, a).pc.Keys == s.pc.Keys && Act(s, t, a).same == s.same
  {
  }

  lemma InvStep(s: State, data: Pair<Bytes>, e: Step)
    requires Inv(s, data) && Enabled(s, e)
    ensures Inv(Do(s, e), data)
  {
    if e.Call? {
      CallKept(s, data, e);
    } else {
      hide Inv, Act;
      GoKept(s, data, e.t, e.a);
    }
  }

  lemma {:induction false} InvSteps(s: State, data: Pair<Bytes>, es: seq<Step>, u: State)
    requires Inv(s, data) && Steps(s, es, u)
    ensures Inv(u, data) && u.same == s.same
    decreases |es|
  {
    if es != [] {
      InvStep(s, data, es[0]);
      if es[0].Go? {
        ThreadsStay(s, es[0].t, es[0].a);
      }
      hide Inv, Do;
      InvSteps(Do(s, es[0]), data, es[1..], u);
    }
  }

  lemma ReachableInv(s: State, data: Pair<Bytes>)
    requires Reachable(s, data)
    ensures Inv(s, data)
  {
    InitInv(s.same, data);
    var es :| Steps(Init(s.same, data), es, s);
    InvSteps(Init(s.same, data), data, es, s);
  }

  // ----- What follows

  /** At most one call at a time is inside a SyncWriter. */
  lemma OneInside(s: State, data: Pair<Bytes>, t: Caller, x: Caller)
    requires Reachable(s, data) && t in s.pc && x in s.pc && Inside(s.pc[t]) && Inside(s.pc[x])
    ensures s.pc[t].port == s.pc[x].port ==> t == x
  {
    ReachableInv(s, data);
    assert ThreadOk(s, t) && ThreadOk(s, x);
  }

  /**
    Linearization: what each of the caller's writers has received is, in lock order, what the writes before the first
    Close report as written, plus the beginning of the one write under way, if any. Later writes add nothing and
    report their full length. The caller's two writers are taken to be different here.
   */
  lemma WritesLinearize(s: State, data: Pair<Bytes>, port: Port)
    requires Reachable(s, data) && !s.same
    ensures var log := s.pipes.Get(port).log;
      && s.data.Get(port) == data.Get(port) + Taken(Kept(log)) + InFlight(s, port)
      && Lawful(log)
      && (s.pipes.Get(port).closed <==> exists i :: 0 <= i < |log| && log[i].op.CloseOp?)
      && (s.pipes.Get(port).closed ==> InFlight(s, port) == [])
  {
    ReachableInv(s, data);
    assert LogOk(s, port) && DataOk(s, data, port) && LockOk(s, port);
    var mu, log := s.pipes.Get(port).mu, s.pipes.Get(port).log;
    if mu.Some? {
      assert ThreadOk(s, mu.value);
    }
    assert s.pipes.Get(port).closed ==> log[FirstClose(log)].op.CloseOp?;
  }

  /** What a write reports is what the underlying writer answered: the bytes it took, and an error exactly if it gave one. */
  lemma DoneRecorded(s: State, t: Caller, failed: bool)
    requires Enabled(s, Go(t, Done(failed)))
    ensures var p, u := s.pc[t], Do(s, Go(t, Done(failed)));
      var r := Reply(p.k, failed || p.k < |p.op.p|);
      && u.pc[t] == Unlocking(p.port, p.op, r)
      && u.pipes.Get(p.port).log == s.pipes.Get(p.port).log + [Entry(t, p.op, r)]
  {
  }

  /** In this run the underlying writers take every write whole and report no error. */
  ghost predicate NeverFails(s: State, es: seq<Step>)
    decreases |es|
  {
    es != [] && Enabled(s, es[0]) ==>
      && (es[0].Go? && es[0].a.Done? ==> es[0].a == Done(false) && s.pc[es[0].t].k == |s.pc[es[0].t].op.p|)
      && NeverFails(Do(s, es[0]), es[1..])
  }

  predicate NoErrors(s: State) {
    && (forall e :: e in s.pipes.out.log ==> !e.reply.failed)
    && (forall e :: e in s.pipes.err.log ==> !e.reply.failed)
  }

  lemma {:induction false} NoErrorsSteps(s: State, es: seq<Step>, u: State)
    requires NoErrors(s) && Steps(s, es, u) && NeverFails(s, es)
    ensures NoErrors(u)
    decreases |es|
  {
    if es != [] {
      NoErrorsStep(s, es[0]);
      hide Do, NoErrors;
      NoErrorsSteps(Do(s, es[0]), es[1..], u);
    }
  }

  lemma NoErrorsStep(s: State, e: Step)
    requires NoErrors(s) && Enabled(s, e)
    requires e.Go? && e.a.Done? ==> e.a == Done(false) && s.pc[e.t].k == |s.pc[e.t].op.p|
    ensures NoErrors(Do(s, e))
  {
  }

  /**
    Over writers that never fail, each of two different ones holds exactly the writes ordered before its first Close,
    whole, and the beginning of the one under way; and no call, kept or dropped, reports less than its full length.
   */
  lemma WholeWrites(data: Pair<Bytes>, es: seq<Step>, s: State, port: Port)
    requires Steps(Init(s.same, data), es, s) && NeverFails(Init(s.same, data), es)
    ensures var log := s.pipes.Get(port).log;
      && (!s.same ==> s.data.Get(port) == data.Get(port) + Whole(Kept(log)) + InFlight(s, port))
      && (forall e :: e in log && e.op.WriteOp? ==> e.reply == Reply(|e.op.p|, false))
    ensures forall t :: t in s.pc && s.pc[t].Returned? && s.pc[t].op.WriteOp? ==> s.pc[t].reply == Reply(|s.pc[t].op.p|, false)
  {
    NoErrorsSteps(Init(s.same, data), es, s);
    ReachableInv(s, data);
    assert LogOk(s, Out) && LogOk(s, Err);
    NeverFailing(s.pipes.Get(port).log);
    if !s.same {
      WritesLinearize(s, data, port);
    }
    NeverFailing(s.pipes.out.log);
    NeverFailing(s.pipes.err.log);
    forall t | t in s.pc && s.pc[t].Returned? && s.pc[t].op.WriteOp? ensures s.pc[t].reply == Reply(|s.pc[t].op.p|, false) {
      RepliesRecorded(s, data, t);
    }
  }

  /** A call that has returned has its place in the history, with the reply that its caller got. */
  lemma RepliesRecorded(s: State, data: Pair<Bytes>, t: Caller)
    requires Reachable(s, data) && t in s.pc && s.pc[t].Returned?
    ensures Entry(t, s.pc[t].op, s.pc[t].reply) in s.pipes.Get(s.pc[t].port).log
  {
    ReachableInv(s, data);
    assert ThreadOk(s, t);
  }

  /** The history only grows at its end. */
  lemma LogGrows(s: State, e: Step, port: Port)
    requires Enabled(s, e)
    ensures s.pipes.Get(port).log <= Do(s, e).pipes.Get(port).log
  {
  }

  /** Only a call inside the lock of an open SyncWriter touches the caller's writers. */
  lemma OnlyOpenWrites(s: State, data: Pair<Bytes>, e: Step)
    requires Inv(s, data) && Enabled(s, e) && s.pipes.out.closed && s.pipes.err.closed
    ensures Do(s, e).data == s.data && Do(s, e).pipes.out.closed && Do(s, e).pipes.err.closed
  {
    if e.Go? {
      assert ThreadOk(s, e.t);
    }
  }

  lemma {:induction false} ShutStaysShut(s: State, data: Pair<Bytes>, es: seq<Step>, u: State)
    requires Inv(s, data) && Steps(s, es, u) && s.pipes.out.closed && s.pipes.err.closed
    ensures u.data == s.data && u.pipes.out.closed && u.pipes.err.closed
    decreases |es|
  {
    if es != [] {
      InvStep(s, data, es[0]);
      OnlyOpenWrites(s, data, es[0]);
      hide Inv, Do;
      ShutStaysShut(Do(s, es[0]), data, es[1..], u);
    }
  }

  /**
    Frozen output: once exec has returned from its streaming path, neither of the caller's writers changes again,
    whatever the leaked goroutines do, even if the two are the same writer; and each of two different ones holds
    exactly the writes that came through before its own first Close.
   */
  lemma FrozenAfterExec(s: State, data: Pair<Bytes>, es: seq<Step>, u: State)
    requires Reachable(s, data) && EXEC in s.pc && s.pc[EXEC].Returned? && Steps(s, es, u)
    ensures u.data == s.data
    ensures !s.same ==> forall port: Port ::
      u.data.Get(port) == data.Get(port) + Taken(Kept(s.pipes.Get(port).log)) && Lawful(s.pipes.Get(port).log)
  {
    ReachableInv(s, data);
    assert s.pipes.out.closed && s.pipes.err.closed;
    ShutStaysShut(s, data, es, u);
    if !s.same {
      WritesLinearize(s, data, Out);
      WritesLinearize(s, data, Err);
    }
  }

  /** Until the executor exists nobody has a SyncWriter. */
  predicate NoPipes(s: State, data: Pair<Bytes>) {
    EXEC in s.pc && (s.pc[EXEC].Creating? || s.pc[EXEC].NoExecutor? ==> s.data == data && s.pc.Keys == {EXEC})
  }

  lemma {:induction false} NoPipesSteps(s: State, data: Pair<Bytes>, es: seq<Step>, u: State)
    requires NoPipes(s, data) && Steps(s, es, u)
    ensures NoPipes(u, data)
    decreases |es|
  {
    if es != [] {
      if es[0].Go? {
        ThreadsStay(s, es[0].t, es[0].a);
      }
      assert NoPipes(Do(s, es[0]), data);
      NoPipesSteps(Do(s, es[0]), data, es[1..], u);
    }
  }

  /** If creating the executor fails, the caller's writers are never touched. */
  lemma NoExecutorNoOutput(s: State, data: Pair<Bytes>)
    requires Reachable(s, data) && EXEC in s.pc && s.pc[EXEC].NoExecutor?
    ensures s.data == data
  {
    var es :| Steps(Init(s.same, data), es, s);
    NoPipesSteps(Init(s.same, data), data, es, s);
  }

  // ----- Real-time order

  predicate Decided(s: State, t: Caller) {
    t in s.pc && (s.pc[t].Unlocking? || s.pc[t].Returned?)
  }

  /** Only decided calls are in the history. */
  predicate Recorded(s: State, port: Port) {
    forall e :: e in s.pipes.Get(port).log && e.caller != EXEC ==> Decided(s, e.caller)
  }

  lemma RecordedStep(s: State, e: Step, port: Port)
    requires Enabled(s, e) && Recorded(s, port)
    ensures Recorded(Do(s, e), port)
  {
    LogGrows(s, e, port);
  }

  lemma {:induction false} RecordedSteps(s: State, es: seq<Step>, u: State, port: Port)
    requires Recorded(s, port) && Steps(s, es, u)
    ensures Recorded(u, port) && s.pipes.Get(port).log <= u.pipes.Get(port).log
    decreases |es|
  {
    if es != [] {
      RecordedStep(s, es[0], port);
      LogGrows(s, es[0], port);
      hide Do, Recorded;
      RecordedSteps(Do(s, es[0]), es[1..], u, port);
    }
  }

  /** A call that began after another had returned comes after it in the history. */
  lemma RealTimeOrder(s: State, data: Pair<Bytes>, es: seq<Step>, u: State, t: Caller, x: Caller)
    requires Reachable(s, data) && Steps(s, es, u) && t in s.pc && s.pc[t].Returned?
    requires x !in s.pc && x != EXEC && x in u.pc && u.pc[x].Returned? && u.pc[x].port == s.pc[t].port
    ensures var log := u.pipes.Get(s.pc[t].port).log;
      exists i, j :: 0 <= i < j < |log| && log[i].caller == t && log[j].caller == x
                     && forall k :: 0 <= k < |log| && log[k].caller == x ==> i < k
  {
    var port := s.pc[t].port;
    var before :| Steps(Init(s.same, data), before, s);
    RecordedSteps(Init(s.same, data), before, s, port);
    RecordedSteps(s, es, u, port);
    RepliesRecorded(s, data, t);
    ReachableInv(s, data);
    InvSteps(s, data, es, u);
    assert ThreadOk(u, x);
    var was, log := s.pipes.Get(port).log, u.pipes.Get(port).log;
    var i :| 0 <= i < |was| && was[i].caller == t;
    var j :| 0 <= j < |log| && log[j].caller == x;
    forall k | 0 <= k < |was| ensures log[k].caller != x {
      assert log[k] == was[k] && was[k] in was;
    }
  }

  // ----- Progress

  /** A call that has not returned can go on, or waits for the mutex, whose owner can go on. */
  lemma NoCallStuck(s: State, data: Pair<Bytes>, t: Caller)
    requires Reachable(s, data) && t in s.pc && !s.pc[t].Returned? && !s.pc[t].NoExecutor?
    ensures || (exists a :: Ready(s, s.pc[t], a))
            || (s.pc[t].Blocked? && exists x, a :: x in s.pc && s.pipes.Get(s.pc[t].port).mu == Some(x) && Ready(s, s.pc[x], a))
  {
    ReachableInv(s, data);
    var p := s.pc[t];
    if !p.Blocked? || s.pipes.Get(p.port).mu.None? {
      Moves(s, t);
    } else {
      assert LockOk(s, p.port);
      var x := s.pipes.Get(p.port).mu.value;
      Moves(s, x);
      assert Inside(s.pc[x]);
      var a :| Ready(s, s.pc[x], a);
    }
  }

  lemma Moves(s: State, t: Caller)
    requires t in s.pc && ThreadOk(s, t)
    requires !s.pc[t].Returned? && !s.pc[t].NoExecutor? && (s.pc[t].Blocked? ==> s.pipes.Get(s.pc[t].port).mu.None?)
    ensures exists a :: Ready(s, s.pc[t], a)
  {
    var a := match s.pc[t]
      case Creating => Create(true)
      case Streams => StreamReturns
      case Blocked(_, _) => Lock
      case Locked(_, _) => Test
      case Copying(_, _, _) => Done(false)
      case _ => Unlock;
    assert Ready(s, s.pc[t], a);
  }
}
