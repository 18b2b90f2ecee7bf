/** poolk8s.go, exec: two SyncWriters around the caller's writers, streamed into and shut before exec returns. */
module K8sExec {
  import opened Wrappers
  import opened SyncWriters

  datatype Port = Out | Err

  /** A write by one of client-go's stream-copy goroutines. */
  datatype Chunk = Chunk(port: Port, p: Bytes)

  /** What exec leaves behind: the goroutines that client-go leaked still have the two writers. */
  datatype Pipes = Pipes(out: SyncWriter, err: SyncWriter)

  /** The payloads, in order, of the chunks for the ports that count. */
  function Payloads(ws: seq<Chunk>, out: bool, err: bool): seq<Bytes> {
    if ws == [] then []
    else
      var w := ws[|ws| - 1];
      Payloads(ws[..|ws| - 1], out, err) + if (if w.port.Out? then out else err) then [w.p] else []
  }

  /** What a writer with these answers takes of these payloads. */
  function Fed(answers: seq<Reply>, ps: seq<Bytes>): Bytes {
    if ps == [] then []
    else
      var n := |ps| - 1;
      Fed(answers, ps[..n]) + ps[n][..Answer(Left(answers, ps[..n]), ps[n]).n]
  }

  /** The answers still to come after these payloads. */
  function Left(answers: seq<Reply>, ps: seq<Bytes>): seq<Reply> {
    if ps == [] then answers else Rest(Left(answers, ps[..|ps| - 1]))
  }

  lemma {:induction false} FedTwice(answers: seq<Reply>, ps: seq<Bytes>, qs: seq<Bytes>)
    ensures Fed(answers, ps + qs) == Fed(answers, ps) + Fed(Left(answers, ps), qs)
    ensures Left(answers, ps + qs) == Left(Left(answers, ps), qs)
    decreases |qs|
  {
    if qs == [] {
      assert ps + qs == ps;
    } else {
      var n := |qs| - 1;
      FedTwice(answers, ps, qs[..n]);
      assert (ps + qs)[..|ps + qs| - 1] == ps + qs[..n];
    }
  }

  /** A writer that never fails takes everything. */
  lemma {:induction false} FedAll(ps: seq<Bytes>)
    ensures Fed([], ps) == Joined(ps) && Left([], ps) == []
    decreases |ps|
  {
    if ps != [] {
      FedAll(ps[..|ps| - 1]);
    }
  }

  function Joined(ps: seq<Bytes>): Bytes {
    if ps == [] then [] else Joined(ps[..|ps| - 1]) + ps[|ps| - 1]
  }

  lemma {:induction false} NoPayloads(ws: seq<Chunk>)
    ensures Payloads(ws, false, false) == []
    decreases |ws|
  {
    if ws != [] {
      NoPayloads(ws[..|ws| - 1]);
    }
  }

  /** A writer went from d0 and a0 to d1 and a1 by receiving these payloads. */
  predicate Took(d0: Bytes, a0: seq<Reply>, ps: seq<Bytes>, d1: Bytes, a1: seq<Reply>) {
    d1 == d0 + Fed(a0, ps) && a1 == Left(a0, ps)
  }

  lemma TookAll(d0: Bytes, a0: seq<Reply>, ps: seq<Bytes>, d1: Bytes, a1: seq<Reply>, qs: seq<Bytes>, d2: Bytes, a2: seq<Reply>)
    requires Took(d0, a0, ps, d1, a1) && Took(d1, a1, qs, d2, a2)
    ensures Took(d0, a0, ps + qs, d2, a2)
  {
    FedTwice(a0, ps, qs);
  }

  /** The payload of w if its port counts. */
  function One(w: Chunk, out: bool, err: bool): seq<Bytes> {
    if (if w.port.Out? then out else err) then [w.p] else []
  }

  lemma PayloadsSnoc(ws: seq<Chunk>, w: Chunk, out: bool, err: bool)
    ensures Payloads(ws + [w], out, err) == Payloads(ws, out, err) + One(w, out, err)
  {
    assert (ws + [w])[..|ws|] == ws;
  }

  /** One chunk. */
  method Send(pipes: Pipes, w: Chunk)
    modifies pipes.out.w, pipes.err.w
    ensures var o, e := pipes.out.w, pipes.err.w;
      Took(old(o.data), old(o.answers), One(w, !pipes.out.closed, !pipes.err.closed && o == e), o.data, o.answers)
    ensures var o, e := pipes.out.w, pipes.err.w;
      Took(old(e.data), old(e.answers), One(w, !pipes.out.closed && o == e, !pipes.err.closed), e.data, e.answers)
  {
    FedOne(pipes.out.w.answers, w.p);
    FedOne(pipes.err.w.answers, w.p);
    var r;
    match w.port {
      case Out => r := pipes.out.Write(w.p);
      case Err => r := pipes.err.Write(w.p);
    }
  }

  lemma FedOne(answers: seq<Reply>, p: Bytes)
    ensures Fed(answers, [p]) == p[..Answer(answers, p).n] && Left(answers, [p]) == Rest(answers)
  {
    assert [p][..0] == [];
  }

  /**
    The goroutines write these chunks, in the order in which the locks let them through. Each of the caller's writers
    gets those that come through a SyncWriter which is open and leads to it; stdout and stderr may be one writer.
   */
  method Deliver(pipes: Pipes, ws: seq<Chunk>)
    modifies pipes.out.w, pipes.err.w
    ensures var o, e := pipes.out.w, pipes.err.w;
      Took(old(o.data), old(o.answers), Payloads(ws, !pipes.out.closed, !pipes.err.closed && o == e), o.data, o.answers)
    ensures var o, e := pipes.out.w, pipes.err.w;
      Took(old(e.data), old(e.answers), Payloads(ws, !pipes.out.closed && o == e, !pipes.err.closed), e.data, e.answers)
  {
    hide *;
    var o, e := pipes.out.w, pipes.err.w;
    ghost var o1, o2 := !pipes.out.closed, !pipes.err.closed && o == e;
    ghost var e1, e2 := !pipes.out.closed && o == e, !pipes.err.closed;
    TookNothing(o.data, o.answers, ws, o1, o2);
    TookNothing(e.data, e.answers, ws, e1, e2);
    var i := 0;
    while i < |ws|
      invariant 0 <= i <= |ws|
      invariant Took(old(o.data), old(o.answers), Payloads(ws[..i], o1, o2), o.data, o.answers)
      invariant Took(old(e.data), old(e.answers), Payloads(ws[..i], e1, e2), e.data, e.answers)
    {
      ghost var od, oa, ed, ea := o.data, o.answers, e.data, e.answers;
      Send(pipes, ws[i]);
      TookMore(old(o.data), old(o.answers), ws, i, o1, o2, od, oa, o.data, o.answers);
      TookMore(old(e.data), old(e.answers), ws, i, e1, e2, ed, ea, e.data, e.answers);
      i := i + 1;
    }
    assert ws[..|ws|] == ws;
  }

  lemma TookNothing(d: Bytes, a: seq<Reply>, ws: seq<Chunk>, out: bool, err: bool)
    ensures Took(d, a, Payloads(ws[..0], out, err), d, a)
  {
    assert Payloads(ws[..0], out, err) == [];
  }

  lemma TookMore(d0: Bytes, a0: seq<Reply>, ws: seq<Chunk>, i: nat, out: bool, err: bool,
                 d1: Bytes, a1: seq<Reply>, d2: Bytes, a2: seq<Reply>)
    requires i < |ws| && Took(d0, a0, Payloads(ws[..i], out, err), d1, a1) && Took(d1, a1, One(ws[i], out, err), d2, a2)
    ensures Took(d0, a0, Payloads(ws[..i + 1], out, err), d2, a2)
  {
    hide Took, Payloads, One;
    PayloadsSnoc(ws[..i], ws[i], out, err);
    TookAll(d0, a0, Payloads(ws[..i], out, err), d1, a1, One(ws[i], out, err), d2, a2);
    assert ws[..i + 1] == ws[..i] + [ws[i]];
  }

  /**
    exec: early are the chunks before swOut is shut, late those between the two Close calls. created tells whether
    NewSPDYExecutor succeeded; if not, the caller's writers are not touched. Afterwards each of them holds exactly the
    chunks that came through before the SyncWriter they came through was shut.
   */
  method Exec(created: bool, stdout: Sink, stderr: Sink, early: seq<Chunk>, late: seq<Chunk>) returns (r: Option<Pipes>)
    modifies stdout, stderr
    ensures r.Some? == created
    ensures !created ==> stdout.data == old(stdout.data) && stderr.data == old(stderr.data)
    ensures created ==>
      && r.value.out.w == stdout && r.value.err.w == stderr && r.value.out.closed && r.value.err.closed
      && var same := stdout == stderr;
         Took(old(stdout.data), old(stdout.answers), Payloads(early, true, same) + Payloads(late, false, same),
              stdout.data, stdout.answers)
         && Took(old(stderr.data), old(stderr.answers), Payloads(early, same, true) + Payloads(late, false, true),
                 stderr.data, stderr.answers)
  {
    hide Took;
    if !created {
      return None;
    }
    ghost var same := stdout == stderr;
    var swOut := new SyncWriter(stdout);
    var swErr := new SyncWriter(stderr);
    var pipes := Pipes(swOut, swErr);
    Deliver(pipes, early);
    ghost var od, oa, ed, ea := stdout.data, stdout.answers, stderr.data, stderr.answers;
    swOut.Close();
    Deliver(pipes, late);
    swErr.Close();
    TookAll(old(stdout.data), old(stdout.answers), Payloads(early, true, same), od, oa, Payloads(late, false, same),
            stdout.data, stdout.answers);
    TookAll(old(stderr.data), old(stderr.answers), Payloads(early, same, true), ed, ea, Payloads(late, false, true),
            stderr.data, stderr.answers);
    return Some(pipes);
  }

  /** After exec has returned, whatever the leaked goroutines write changes neither writer. */
  method Leak(pipes: Pipes, ws: seq<Chunk>)
    requires pipes.out.closed && pipes.err.closed
    modifies pipes.out.w, pipes.err.w
    ensures pipes.out.w.data == old(pipes.out.w.data) && pipes.err.w.data == old(pipes.err.w.data)
  {
    NoPayloads(ws);
    Deliver(pipes, ws);
  }
}
