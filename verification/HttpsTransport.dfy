/** What the HTTPS client makes of failures and successes on the wire, and where its queue and its log of
    submissions come from. */
module HttpsTransport {
  import opened Wrappers
  import opened HttpsModel
  import opened HttpsProofs
  import opened HttpsRuns

  // ----- Failures -----

  /** A completion that reports an error of the outstanding operation. */
  predicate Fails(c: ClientState, e: Event) {
    || (c.pending.Connecting? && e.Handshake? && !e.ok)
    || (c.pending.Writing? && e.WriteDone? && !e.ok)
    || (c.pending.Reading? && e.ReadDone? && e.reply.None?)
  }

  /** Any failure leads to a reconnect with every request due again, and with nothing lost or answered. */
  lemma FailureReconnects(c: ClientState, e: Event)
    requires Wire(c) && Fails(c, e)
    ensures var d := Step(c, e);
            && !d.ready && d.pending == Connecting
            && SameRequests(c.queue, d.queue) && (forall i :: 0 <= i < |d.queue| ==> d.queue[i].sendTime == 0)
            && d.answered == c.answered && d.expired == c.expired
  {
  }

  // ----- Successes -----

  function At(es: seq<Event>, k: nat): ClientState
    requires k <= |es|
  {
    Run(Initial(), es[..k])
  }

  lemma {:induction false} RunSnoc(c: ClientState, es: seq<Event>, e: Event)
    ensures Run(c, es + [e]) == Step(Run(c, es), e)
    decreases |es|
  {
    hide Step;
    if es == [] {
      assert [] + [e] == [e] && [e][1..] == [];
    } else {
      assert (es + [e])[1..] == es[1..] + [e];
      RunSnoc(Step(c, es[0]), es[1..], e);
    }
  }

  lemma AtNext(es: seq<Event>, k: nat)
    requires k < |es|
    ensures At(es, k + 1) == Step(At(es, k), es[k])
  {
    assert es[..k + 1] == es[..k] + [es[k]];
    RunSnoc(Initial(), es[..k], es[k]);
  }

  lemma {:induction false} EnqueueAllGrows(c: ClientState, more: seq<Submission>)
    ensures |EnqueueAll(c, more).queue| == |c.queue| + |more|
    decreases |more|
  {
    if more != [] {
      EnqueueAllGrows(Enqueue(c, more[0].payload, more[0].now), more[1..]);
    }
  }

  lemma EntersReading(c: ClientState, e: Event)
    requires Step(c, e).pending.Reading?
    ensures var t := Step(c, e).pending.ticket;
            c.pending == Reading(t) || (c.pending == Writing(t) && e == WriteDone(true))
  {
    if e.ReadDone? && c.queue != [] && e.reply.Some? {
      var f := c.queue[0];
      EnqueueAllGrows(c.(answered := c.answered + [Answer(f.ticket, f.payload, e.reply.value)]), e.more);
    }
  }

  /** The client reads for a ticket at place `n` of a run only after a write for it has succeeded, and has
      done nothing but read for it since: no failure came in between. */
  lemma {:induction false} ReadsAfterWriting(es: seq<Event>, n: nat) returns (k: nat)
    requires n <= |es| && At(es, n).pending.Reading?
    ensures var t := At(es, n).pending.ticket;
            && k < n && es[k] == WriteDone(true) && At(es, k).pending == Writing(t)
            && forall j :: k < j <= n ==> At(es, j).pending == Reading(t)
    decreases n
  {
    hide Step, Run;
    if n == 0 {
      assert At(es, 0) == Initial() by { NothingRun(es); }
    }
    AtNext(es, n - 1);
    EntersReading(At(es, n - 1), es[n - 1]);
    if At(es, n - 1).pending.Reading? {
      k := ReadsAfterWriting(es, n - 1);
    } else {
      k := n - 1;
    }
  }

  lemma NothingRun(es: seq<Event>)
    ensures At(es, 0) == Initial()
  {
    assert es[..0] == [];
  }

  /** Only a read that succeeds is answered, with its reply and the request it was issued for. */
  lemma AnswersExactly(c: ClientState, e: Event)
    requires Books(c) && Wire(c)
    ensures var d := Step(c, e);
            if d.answered == c.answered then !(c.pending.Reading? && e.ReadDone? && e.reply.Some?)
            else
              && c.pending.Reading? && e.ReadDone? && e.reply.Some?
              && d.answered == c.answered + [Answer(c.pending.ticket, c.queue[0].payload, e.reply.value)]
  {
    hide Completed, Books;
    if c.pending.Reading? && e.ReadDone? && e.reply.Some? {
      CompletedKeeps(c, e.reply.value, e.more, e.sent);
    }
  }

  /** Every answer was read, and its request had been written before, with nothing but the read in
      between. */
  lemma {:induction false} AnsweredAfterWriting(es: seq<Event>, n: nat, i: nat) returns (k: nat, r: nat)
    requires n <= |es| && i < |At(es, n).answered|
    ensures var a := At(es, n).answered[i];
            && k < r < n
            && es[k] == WriteDone(true) && At(es, k).pending == Writing(a.ticket)
            && (forall j :: k < j <= r ==> At(es, j).pending == Reading(a.ticket))
            && es[r].ReadDone? && es[r].reply == Some(a.reply)
    decreases n
  {
    hide Step, Run, Books, Wire;
    if n == 0 {
      NothingRun(es);
    }
    EveryReachableState(es[..n - 1]);
    AtNext(es, n - 1);
    AnswersExactly(At(es, n - 1), es[n - 1]);
    if i < |At(es, n - 1).answered| {
      k, r := AnsweredAfterWriting(es, n - 1, i);
    } else {
      k := ReadsAfterWriting(es, n - 1);
      r := n - 1;
    }
  }

  // ----- Recovery -----

  lemma ConnectStarts(c: ClientState)
    requires !c.ready && c.pending.Nothing?
    ensures Step(c, Connect) == c.(pending := Connecting)
  {
  }

  /** After any trouble one good connect, writes and reads that succeed answer the whole queue, in order. */
  lemma RecoversAndAnswersAll(c: ClientState, replies: seq<Reply>, sent: Seconds)
    requires Books(c) && Wire(c) && c.pending.Connecting? && |replies| == |c.queue|
    ensures var d := Run(c, [Handshake(true, sent)] + Successes(replies, sent));
            d.ready && d.queue == [] && d.answered == c.answered + Answers(c.queue, replies)
  {
    hide Books, Wire, Step;
    var e, rest := Handshake(true, sent), Successes(replies, sent);
    var d := Step(c, e);
    StepKeeps(c, e);
    GoodHandshake(c, sent);
    assert ([e] + rest)[1..] == rest;
    SuccessAnswersAll(d, replies, sent);
    AnswersSame(d.queue, c.queue, replies);
    StaysReady(d, replies, sent);
  }

  lemma GoodHandshake(c: ClientState, sent: Seconds)
    requires Wire(c) && c.pending.Connecting?
    ensures var d := Step(c, Handshake(true, sent));
            && d.ready && SameRequests(d.queue, c.queue) && d.answered == c.answered
            && (d.queue != [] ==> d.pending == Writing(c.queue[0].ticket) && d.queue[0].sendTime == sent)
  {
  }

  lemma {:induction false} StaysReady(c: ClientState, replies: seq<Reply>, sent: Seconds)
    requires c.ready
    ensures Run(c, Successes(replies, sent)).ready
    decreases |replies|
  {
    if replies != [] {
      var e1, e2 := WriteDone(true), ReadDone(Some(replies[0]), [], sent);
      RunTwo(c, e1, e2, Successes(replies[1..], sent));
      StaysReady(Step(Step(c, e1), e2), replies[1..], sent);
    }
  }

  /** A connected client with an empty queue writes a request at once, and stamps it. */
  lemma IdleClientWrites(c: ClientState, p: Payload, now: nat, sent: Seconds)
    requires c.ready && c.queue == []
    ensures var d := Step(c, Request(p, now, sent));
            d.pending == Writing(|c.submitted|) && d.queue == [Entry(|c.submitted|, p, now, sent)]
  {
  }

  // ----- Submissions -----

  /** The requests of one event: a request, or what the response callback submits if it is called. */
  function SubmittedBy(c: ClientState, e: Event): seq<Submission> {
    if e.Request? then [Submission(e.payload, e.now)]
    else if e.ReadDone? && e.reply.Some? && c.pending.Reading? && c.queue != [] then e.more
    else []
  }

  function SubmittedIn(c: ClientState, es: seq<Event>): seq<Submission>
    decreases |es|
  {
    if es == [] then [] else SubmittedBy(c, es[0]) + SubmittedIn(Step(c, es[0]), es[1..])
  }

  function Payloads(subs: seq<Submission>): (ps: seq<Payload>)
    ensures |ps| == |subs| && forall i :: 0 <= i < |ps| ==> ps[i] == subs[i].payload
  {
    seq(|subs|, i requires 0 <= i < |subs| => subs[i].payload)
  }

  /** Every queued request is, with payload and push time, the submission of its ticket. */
  predicate FromSubmissions(c: ClientState, subs: seq<Submission>) {
    && c.submitted == Payloads(subs)
    && forall i :: 0 <= i < |c.queue| ==>
         c.queue[i].ticket < |subs| && subs[c.queue[i].ticket] == Submission(c.queue[i].payload, c.queue[i].pushTime)
  }

  lemma EnqueueSubmits(c: ClientState, subs: seq<Submission>, s: Submission)
    requires FromSubmissions(c, subs)
    ensures FromSubmissions(Enqueue(c, s.payload, s.now), subs + [s])
  {
    assert Payloads(subs + [s]) == Payloads(subs) + [s.payload];
  }

  lemma {:induction false} EnqueueAllSubmits(c: ClientState, subs: seq<Submission>, more: seq<Submission>)
    requires FromSubmissions(c, subs)
    ensures FromSubmissions(EnqueueAll(c, more), subs + more)
    decreases |more|
  {
    hide FromSubmissions;
    if more == [] {
      assert subs + more == subs;
    } else {
      EnqueueSubmits(c, subs, more[0]);
      EnqueueAllSubmits(Enqueue(c, more[0].payload, more[0].now), subs + [more[0]], more[1..]);
      assert subs + [more[0]] + more[1..] == subs + more;
    }
  }

  lemma {:induction false} SweepSubmits(q: seq<Entry>, now: nat, interval: nat, e: Entry)
    requires e in Sweep(q, now, interval)
    ensures e in q
  {
    if q != [] && e != q[0] {
      if q[0].sendTime != 0 || Elapsed(now, q[0].pushTime) >= interval {
        SweepSubmits(q[1..], now, interval, e);
      }
    }
  }

  lemma CompletedSubmits(c: ClientState, subs: seq<Submission>, reply: Reply, more: seq<Submission>, sent: Seconds)
    requires FromSubmissions(c, subs) && c.queue != []
    ensures FromSubmissions(Completed(c, reply, more, sent), subs + more)
  {
    var a := c.answered + [AnswerTo(c.queue[0], reply)];
    EnqueueAllSubmits(c.(answered := a), subs, more);
    var called := EnqueueAll(c.(answered := a), more);
    assert Completed(c, reply, more, sent) ==
           if called.queue == [] then called else Write(called.(queue := called.queue[1..], pending := Nothing), sent);
  }

  lemma CleanupSubmits(c: ClientState, subs: seq<Submission>, interval: nat, now: nat)
    requires FromSubmissions(c, subs)
    ensures FromSubmissions(Step(c, Cleanup(interval, now)), subs)
  {
    var q := Sweep(c.queue, now, interval);
    forall i | 0 <= i < |q|
      ensures q[i].ticket < |subs| && subs[q[i].ticket] == Submission(q[i].payload, q[i].pushTime)
    {
      SweepSubmits(c.queue, now, interval, q[i]);
    }
  }

  lemma StepSubmits(c: ClientState, subs: seq<Submission>, e: Event)
    requires FromSubmissions(c, subs)
    ensures FromSubmissions(Step(c, e), subs + SubmittedBy(c, e))
  {
    hide Completed, Sweep, EnqueueAll;
    assert subs + [] == subs;
    match e
    case Request(p, now, sent) => EnqueueSubmits(c, subs, Submission(p, now));
    case Cleanup(interval, now) => CleanupSubmits(c, subs, interval, now);
    case ReadDone(reply, more, sent) =>
      if c.pending.Reading? && c.queue != [] && reply.Some? {
        CompletedSubmits(c, subs, reply.value, more, sent);
      }
    case _ =>
  }

  lemma {:induction false} RunSubmits(c: ClientState, subs: seq<Submission>, es: seq<Event>)
    requires FromSubmissions(c, subs)
    ensures FromSubmissions(Run(c, es), subs + SubmittedIn(c, es))
    decreases |es|
  {
    hide Step, FromSubmissions, SubmittedBy;
    if es == [] {
      assert subs + SubmittedIn(c, es) == subs;
    } else {
      var now := subs + SubmittedBy(c, es[0]);
      StepSubmits(c, subs, es[0]);
      RunSubmits(Step(c, es[0]), now, es[1..]);
      assert now + SubmittedIn(Step(c, es[0]), es[1..]) == subs + SubmittedIn(c, es);
    }
  }

  /** Over every run, what was submitted are the payloads of the run's own requests, in order, and each
      queued request has the payload and the push time of its own. */
  lemma {:induction false} SubmittedAreTheRequests(es: seq<Event>)
    ensures FromSubmissions(Run(Initial(), es), SubmittedIn(Initial(), es))
  {
    hide Step;
    assert FromSubmissions(Initial(), []);
    RunSubmits(Initial(), [], es);
    assert [] + SubmittedIn(Initial(), es) == SubmittedIn(Initial(), es);
  }
}
