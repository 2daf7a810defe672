/** The write queue of one web session: sends queue up behind the one write that is outstanding. */
module WriteQueue {

  type Buffer = string

  /** `writes` are the outstanding writes with the buffers they were handed, `issued` the buffers of
      all writes so far. Nothing but the code keeps the writes from overlapping. */
  datatype Writer = Writer(queue: seq<Buffer>, writes: seq<Buffer>, issued: seq<Buffer>, sent: seq<Buffer>)

  /** `open` says whether the socket is open when the send is handled; a completed write may have
      failed, which closes the session but changes nothing for the queue. */
  datatype Event = Send(data: Buffer, open: bool) | Written(ok: bool)

  const FRESH := Writer([], [], [], [])

  /** Starts a write of the front. */
  function Issue(w: Writer): Writer
    requires w.queue != []
  {
    w.(writes := w.writes + [w.queue[0]], issued := w.issued + [w.queue[0]])
  }

  /** One step. A completion arrives only for an outstanding write. */
  function Step(w: Writer, e: Event): Writer {
    match e
    case Send(data, open) =>
      var w1 := w.(queue := w.queue + [data], sent := w.sent + [data]);
      if open && |w1.queue| <= 1 then Issue(w1) else w1
    case Written(_) =>
      if w.writes == [] || w.queue == [] then w
      else
        var w1 := w.(queue := w.queue[1..], writes := w.writes[1..]);
        if w1.queue == [] then w1 else Issue(w1)
  }

  function Run(w: Writer, es: seq<Event>): Writer
    decreases |es|
  {
    if es == [] then w else Run(Step(w, es[0]), es[1..])
  }

  /** Writes never overlap; the outstanding one writes the front of the queue and was issued last; the
      buffers of the completed writes, followed by the queue, are all sends in order. */
  predicate InOrder(w: Writer) {
    && |w.writes| <= 1 && |w.writes| <= |w.issued|
    && (w.writes != [] ==> w.queue != [] && w.writes[0] == w.queue[0])
    && w.issued[|w.issued| - |w.writes|..] == w.writes
    && w.issued[..|w.issued| - |w.writes|] + w.queue == w.sent
  }

  /** Something waits, but no write is outstanding. */
  predicate Stalled(w: Writer) {
    w.queue != [] && w.writes == []
  }

  lemma IssueKeeps(w: Writer)
    requires InOrder(w) && Stalled(w)
    ensures InOrder(Issue(w))
  {
    var v := Issue(w);
    assert v.issued[..|v.issued| - 1] == w.issued == w.issued[..|w.issued|];
  }

  lemma SendKeeps(w: Writer, data: Buffer)
    requires InOrder(w)
    ensures InOrder(w.(queue := w.queue + [data], sent := w.sent + [data]))
  {
    var done := w.issued[..|w.issued| - |w.writes|];
    assert done + (w.queue + [data]) == (done + w.queue) + [data];
  }

  lemma CompletionKeeps(w: Writer)
    requires InOrder(w) && w.writes != []
    ensures InOrder(w.(queue := w.queue[1..], writes := w.writes[1..]))
  {
    var done := w.issued[..|w.issued| - 1];
    assert w.issued == done + w.writes;
    assert w.issued[..|w.issued|] + w.queue[1..] == done + ([w.queue[0]] + w.queue[1..]);
    assert [w.queue[0]] + w.queue[1..] == w.queue;
  }

  lemma StepKeeps(w: Writer, e: Event)
    requires InOrder(w)
    ensures InOrder(Step(w, e))
  {
    match e
    case Send(data, open) =>
      SendKeeps(w, data);
      var w1 := w.(queue := w.queue + [data], sent := w.sent + [data]);
      if open && |w1.queue| <= 1 { IssueKeeps(w1); }
    case Written(_) =>
      if w.writes != [] {
        CompletionKeeps(w);
        var w1 := w.(queue := w.queue[1..], writes := w.writes[1..]);
        if w1.queue != [] { IssueKeeps(w1); }
      }
  }

  /** Over every run, closed sockets and failed writes included. */
  lemma {:induction false} RunInOrder(w: Writer, es: seq<Event>)
    requires InOrder(w)
    ensures InOrder(Run(w, es))
    decreases |es|
  {
    if es != [] {
      StepKeeps(w, es[0]);
      RunInOrder(Step(w, es[0]), es[1..]);
    }
  }

  /** The buffers that a run sends. */
  function SentIn(es: seq<Event>): seq<Buffer> {
    if es == [] then [] else (if es[0].Send? then [es[0].data] else []) + SentIn(es[1..])
  }

  /** What counts as sent are the buffers of the run's own sends, in order. */
  lemma {:induction false} SentAreTheSends(w: Writer, es: seq<Event>)
    ensures Run(w, es).sent == w.sent + SentIn(es)
    decreases |es|
  {
    if es != [] {
      var v := Step(w, es[0]);
      SentAreTheSends(v, es[1..]);
      assert v.sent == w.sent + if es[0].Send? then [es[0].data] else [];
      assert w.sent + SentIn(es) == v.sent + SentIn(es[1..]);
    } else {
      assert w.sent + SentIn(es) == w.sent;
    }
  }

  /** One completion after the other, successful or not, writes everything. */
  lemma {:induction false} CompletionsWriteAll(w: Writer, results: seq<bool>)
    requires InOrder(w) && !Stalled(w) && |results| == |w.queue|
    ensures var v := Run(w, Completions(results));
            v.queue == [] && v.writes == [] && v.issued == v.sent == w.sent
    decreases |results|
  {
    if results == [] {
      assert w.issued[..|w.issued|] + [] == w.issued;
    } else {
      var v := Step(w, Written(results[0]));
      StepKeeps(w, Written(results[0]));
      assert !Stalled(v) && |v.queue| == |w.queue| - 1 && v.sent == w.sent;
      CompletionsWriteAll(v, results[1..]);
      assert Completions(results)[1..] == Completions(results[1..]);
    }
  }

  function Completions(results: seq<bool>): seq<Event> {
    if results == [] then [] else [Written(results[0])] + Completions(results[1..])
  }

  // ----- Stalls -----

  /** Some send of the run finds the queue empty and the socket closed. */
  predicate ClosedOnEmpty(w: Writer, es: seq<Event>)
    decreases |es|
  {
    es != [] && ((w.queue == [] && es[0].Send? && !es[0].open) || ClosedOnEmpty(Step(w, es[0]), es[1..]))
  }

  lemma {:induction false} StallIsForever(w: Writer, es: seq<Event>)
    requires Stalled(w)
    ensures Stalled(Run(w, es)) && Run(w, es).issued == w.issued
    decreases |es|
  {
    if es != [] {
      StallIsForever(Step(w, es[0]), es[1..]);
    }
  }

  /** Waiting data always has its write outstanding, after any run, exactly when no send of the run
      found the queue empty and the socket closed. One such send stops the session's writes for good. */
  lemma {:induction false} StallsExactly(w: Writer, es: seq<Event>)
    requires InOrder(w) && !Stalled(w)
    ensures Stalled(Run(w, es)) <==> ClosedOnEmpty(w, es)
    decreases |es|
  {
    if es != [] {
      StepKeeps(w, es[0]);
      if Stalled(Step(w, es[0])) {
        StallIsForever(Step(w, es[0]), es[1..]);
      } else {
        StallsExactly(Step(w, es[0]), es[1..]);
      }
    }
  }

  predicate AlwaysOpen(es: seq<Event>) {
    forall i :: 0 <= i < |es| && es[i].Send? ==> es[i].open
  }

  lemma {:induction false} OpenIsNotClosed(w: Writer, es: seq<Event>)
    requires AlwaysOpen(es)
    ensures !ClosedOnEmpty(w, es)
    decreases |es|
  {
    if es != [] {
      OpenIsNotClosed(Step(w, es[0]), es[1..]);
    }
  }

  /** While the socket is open at every send, data wait exactly while one write, of their front, is
      outstanding. */
  lemma OpenRunsWrite(es: seq<Event>)
    requires AlwaysOpen(es)
    ensures var w := Run(FRESH, es);
            if w.queue == [] then w.writes == [] else w.writes == [w.queue[0]]
  {
    RunInOrder(FRESH, es);
    OpenIsNotClosed(FRESH, es);
    StallsExactly(FRESH, es);
  }

  /** The failing case of one send to a closed socket, after which even an open one does not help. */
  lemma ClosedSendStalls(data: Buffer, es: seq<Event>)
    ensures Stalled(Run(FRESH, [Send(data, false)] + es)) && Run(FRESH, [Send(data, false)] + es).issued == []
  {
    var all := [Send(data, false)] + es;
    assert all[1..] == es;
    StallIsForever(Step(FRESH, all[0]), es);
  }

  // ----- The session -----

  class SessionWriter {
    var wQueue: seq<Buffer>
    ghost var writes: seq<Buffer>
    ghost var issued: seq<Buffer>
    ghost var sent: seq<Buffer>

    ghost function Model(): Writer
      reads this
    {
      Writer(wQueue, writes, issued, sent)
    }

    constructor ()
      ensures Model() == FRESH
    {
      wQueue, writes, issued, sent := [], [], [], [];
    }

    /** Issues the write of the front; nothing else may be outstanding. */
    method AsyncWrite()
      requires wQueue != [] && writes == []
      modifies this`writes, this`issued
      ensures Model() == Issue(old(Model()))
    {
      writes := writes + [wQueue[0]];
      issued := issued + [wQueue[0]];
    }

    method OnSend(data: Buffer, open: bool)
      requires InOrder(Model())
      modifies this
      ensures InOrder(Model()) && Model() == Step(old(Model()), Send(data, open))
    {
      StepKeeps(Model(), Send(data, open));
      wQueue := wQueue + [data];
      sent := sent + [data];
      if !open {
        return;
      }
      if |wQueue| > 1 {
        return;
      }
      AsyncWrite();
    }

    method OnWrite(ok: bool)
      requires InOrder(Model()) && writes != []
      modifies this
      ensures InOrder(Model()) && Model() == Step(old(Model()), Written(ok))
    {
      StepKeeps(Model(), Written(ok));
      writes := writes[1..];
      wQueue := wQueue[1..];
      if wQueue == [] {
        return;
      }
      AsyncWrite();
    }
  }
}
