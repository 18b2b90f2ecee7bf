/** syncwriter.go: a writer that can be shut, and the order in which its lock let the calls through. */
module SyncWriters {
  type Bytes = seq<bv8>

  // ----- Histories

  /** A call on a SyncWriter. */
  datatype Op = WriteOp(p: Bytes) | CloseOp

  /** What Write reports: the number of bytes, and whether there was an error. */
  datatype Reply = Reply(n: nat, failed: bool)

  /** A call that has been through the lock. */
  datatype Entry = Entry(caller: int, op: Op, reply: Reply)

  /** Position of the first Close in a history, or its length. */
  function FirstClose(log: seq<Entry>): (k: nat)
    ensures k <= |log|
    ensures forall i :: 0 <= i < k ==> !log[i].op.CloseOp?
    ensures k < |log| ==> log[k].op.CloseOp?
  {
    if log == [] || log[0].op.CloseOp? then 0 else 1 + FirstClose(log[1..])
  }

  /** The writes that came through the lock before the first Close. */
  function Kept(log: seq<Entry>): seq<Entry> {
    log[..FirstClose(log)]
  }

  /** Concatenation of the bytes that the writes of a history report as written. */
  function Taken(log: seq<Entry>): Bytes {
    if log == [] then []
    else
      var e := log[|log| - 1];
      Taken(log[..|log| - 1]) + if e.op.WriteOp? && e.reply.n <= |e.op.p| then e.op.p[..e.reply.n] else []
  }

  /** Concatenation of everything that the writes of a history were given. */
  function Whole(log: seq<Entry>): Bytes {
    if log == [] then [] else Whole(log[..|log| - 1]) + if log[|log| - 1].op.WriteOp? then log[|log| - 1].op.p else []
  }

  /** An io.Writer's answer to p: it takes a prefix, and a shorter one only together with an error. */
  predicate Honest(p: Bytes, r: Reply) {
    r.n <= |p| && (r.n < |p| ==> r.failed)
  }

  /** Before the first Close writes get the underlying writer's answer, afterwards they report their full length. */
  predicate Lawful(log: seq<Entry>) {
    forall i :: 0 <= i < |log| && log[i].op.WriteOp? ==>
      if i < FirstClose(log) then Honest(log[i].op.p, log[i].reply) else log[i].reply == Reply(|log[i].op.p|, false)
  }

  lemma {:induction false} FirstCloseAppend(log: seq<Entry>, e: Entry)
    ensures FirstClose(log + [e]) ==
      if FirstClose(log) < |log| then FirstClose(log) else if e.op.CloseOp? then |log| else |log| + 1
  {
    if log == [] {
      assert log + [e] == [e];
      assert FirstClose([e][1..]) == 0;
    } else if !log[0].op.CloseOp? {
      FirstCloseAppend(log[1..], e);
      assert (log + [e])[1..] == log[1..] + [e];
    }
  }

  /** A write before the first Close adds what it reports, and nothing that comes after a Close adds anything. */
  lemma KeptAppend(log: seq<Entry>, e: Entry)
    ensures FirstClose(log) < |log| ==> Kept(log + [e]) == Kept(log)
    ensures FirstClose(log) == |log| && e.op.CloseOp? ==> Kept(log + [e]) == Kept(log)
    ensures FirstClose(log) == |log| && e.op.WriteOp? && Honest(e.op.p, e.reply) ==>
      Taken(Kept(log + [e])) == Taken(Kept(log)) + e.op.p[..e.reply.n]
  {
    FirstCloseAppend(log, e);
    if FirstClose(log) == |log| && e.op.WriteOp? {
      assert Kept(log + [e]) == log + [e] && Kept(log) == log;
      assert (log + [e])[..|log + [e]| - 1] == log;
    } else {
      assert Kept(log + [e]) == Kept(log);
    }
  }

  lemma LawfulAppend(log: seq<Entry>, e: Entry)
    requires Lawful(log)
    requires e.op.WriteOp? ==>
      if FirstClose(log) < |log| then e.reply == Reply(|e.op.p|, false) else Honest(e.op.p, e.reply)
    ensures Lawful(log + [e])
  {
    FirstCloseAppend(log, e);
  }

  /**
    With an underlying writer that never fails, the bytes received are exactly the writes ordered before the first
    Close, each one whole, and every write, kept or dropped, reports its full length.
   */
  lemma NeverFailing(log: seq<Entry>)
    requires Lawful(log) && forall e :: e in log ==> !e.reply.failed
    ensures Taken(Kept(log)) == Whole(Kept(log))
    ensures forall e :: e in log && e.op.WriteOp? ==> e.reply == Reply(|e.op.p|, false)
  {
    AllWhole(Kept(log));
  }

  lemma {:induction false} AllWhole(log: seq<Entry>)
    requires forall e :: e in log ==> e.op.WriteOp? && Honest(e.op.p, e.reply) && !e.reply.failed
    ensures Taken(log) == Whole(log)
    decreases |log|
  {
    if log != [] {
      var e := log[|log| - 1];
      AllWhole(log[..|log| - 1]);
      assert e in log && e.op.p[..e.reply.n] == e.op.p;
    }
  }

  // ----- The code

  /** The caller's io.Writer; answers are what its next writes will say, an empty list meaning that it never fails. */
  class Sink {
    var data: Bytes
    var answers: seq<Reply>

    constructor (answers: seq<Reply>)
      ensures data == [] && this.answers == answers
    {
      data, this.answers := [], answers;
    }

    method Write(p: Bytes) returns (r: Reply)
      modifies this
      ensures r == Answer(old(answers), p)
      ensures data == old(data) + p[..r.n] && answers == Rest(old(answers))
    {
      r := Answer(answers, p);
      data := data + p[..r.n];
      answers := Rest(answers);
    }
  }

  function Answer(answers: seq<Reply>, p: Bytes): (r: Reply)
    ensures Honest(p, r)
  {
    if answers == [] then Reply(|p|, false)
    else if answers[0].n < |p| then Reply(answers[0].n, true)
    else Reply(|p|, answers[0].failed)
  }

  function Rest(answers: seq<Reply>): seq<Reply> {
    if answers == [] then [] else answers[1..]
  }

  /** syncWriter. Write and Close run under its mutex from beginning to end, so each is one event of a history. */
  class SyncWriter {
    const w: Sink
    var closed: bool

    constructor (w: Sink)
      ensures this.w == w && !closed
    {
      this.w, closed := w, false;
    }

    method Write(p: Bytes) returns (r: Reply)
      modifies w
      ensures closed ==> r == Reply(|p|, false) && w.data == old(w.data) && w.answers == old(w.answers)
      ensures !closed ==> r == Answer(old(w.answers), p) && w.data == old(w.data) + p[..r.n] && w.answers == Rest(old(w.answers))
    {
      if closed {
        return Reply(|p|, false);
      }
      r := w.Write(p);
    }

    method Close()
      modifies this
      ensures closed
    {
      closed := true;
    }
  }
}
