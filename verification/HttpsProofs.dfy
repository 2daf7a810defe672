/** What holds over every run of the HTTPS client: nothing is lost, answers come in order and belong to
    their requests, and at most one operation is on the wire. */
module HttpsProofs {
  import opened HttpsModel

  function Tickets(q: seq<Entry>): (ts: seq<nat>)
    ensures |ts| == |q| && forall i :: 0 <= i < |q| ==> ts[i] == q[i].ticket
  {
    seq(|q|, i requires 0 <= i < |q| => q[i].ticket)
  }

  function AnswerTickets(a: seq<Answer>): (ts: seq<nat>)
    ensures |ts| == |a| && forall i :: 0 <= i < |a| ==> ts[i] == a[i].ticket
  {
    seq(|a|, i requires 0 <= i < |a| => a[i].ticket)
  }

  function UpTo(n: nat): (ts: seq<nat>)
    ensures |ts| == n && forall i :: 0 <= i < n ==> ts[i] == i
  {
    seq(n, i => i)
  }

  predicate Increasing(ts: seq<nat>) {
    forall i, j :: 0 <= i < j < |ts| ==> ts[i] < ts[j]
  }

  /** Every submitted request is answered, expired or queued, exactly once. */
  ghost predicate Balanced(answered: seq<nat>, expired: seq<nat>, queued: seq<nat>, submitted: nat) {
    multiset(answered) + multiset(expired) + multiset(queued) == multiset(UpTo(submitted))
  }

  predicate Unaltered(q: seq<Entry>, a: seq<Answer>, submitted: seq<Payload>) {
    && (forall i :: 0 <= i < |q| ==> q[i].ticket < |submitted| && q[i].payload == submitted[q[i].ticket])
    && (forall i :: 0 <= i < |a| ==> a[i].ticket < |submitted| && a[i].payload == submitted[a[i].ticket])
  }

  /** Nothing is lost or doubled; read along the answers and then the queue, the requests stand in the
      order of submission; none was altered. */
  ghost predicate Books(c: ClientState) {
    && Balanced(AnswerTickets(c.answered), c.expired, Tickets(c.queue), |c.submitted|)
    && Increasing(AnswerTickets(c.answered) + Tickets(c.queue))
    && Unaltered(c.queue, c.answered, c.submitted)
  }

  /** One token: at most the front request is on the wire, exactly while its write or read is
      outstanding; and a connected client with requests always has one outstanding. */
  ghost predicate Wire(c: ClientState) {
    && (forall i :: 0 < i < |c.queue| ==> c.queue[i].sendTime == 0)
    && (c.pending.OnWire() ==> c.ready && c.queue != [] && c.queue[0].ticket == c.pending.ticket)
    && (c.queue != [] ==> (c.queue[0].sendTime != 0 <==> c.pending.OnWire()))
    && (c.pending.Connecting? ==> !c.ready)
    && (c.ready && c.queue != [] ==> c.pending.OnWire())
  }

  // ----- Parts of a step -----

  lemma TicketsAppend(q: seq<Entry>, e: Entry)
    ensures Tickets(q + [e]) == Tickets(q) + [e.ticket]
  {
  }

  lemma TicketsHead(q: seq<Entry>)
    requires q != []
    ensures Tickets(q) == [q[0].ticket] + Tickets(q[1..])
  {
  }

  lemma Regroup(before: seq<nat>, t: nat, after: seq<nat>)
    ensures before + ([t] + after) == before + [t] + after
  {
  }

  lemma SameTickets(q: seq<Entry>, r: seq<Entry>)
    requires |q| == |r| && forall i :: 0 <= i < |q| ==> q[i].ticket == r[i].ticket
    ensures Tickets(q) == Tickets(r)
  {
  }

  /** Changing only send times, flags and the clock does not touch the books. */
  lemma BooksKept(c: ClientState, d: ClientState)
    requires Books(c)
    requires d.submitted == c.submitted && d.answered == c.answered && d.expired == c.expired
    requires |d.queue| == |c.queue|
    requires forall i :: 0 <= i < |c.queue| ==>
               d.queue[i].ticket == c.queue[i].ticket && d.queue[i].payload == c.queue[i].payload
    ensures Books(d)
  {
    SameTickets(c.queue, d.queue);
  }

  lemma IncreasingAppend(ts: seq<nat>, n: nat)
    requires Increasing(ts) && forall i :: 0 <= i < |ts| ==> ts[i] < n
    ensures Increasing(ts + [n])
  {
  }

  lemma IncreasingWithout(before: seq<nat>, t: nat, after: seq<nat>)
    requires Increasing(before + [t] + after)
    ensures Increasing(before + after)
  {
    var all, fewer := before + [t] + after, before + after;
    assert forall i :: 0 <= i < |before| ==> fewer[i] == all[i];
    assert forall i :: |before| <= i < |fewer| ==> fewer[i] == all[i + 1];
  }

  lemma EnqueueKeepsBooks(c: ClientState, p: Payload, now: nat)
    requires Books(c)
    ensures Books(Enqueue(c, p, now))
  {
    var n := |c.submitted|;
    var a, q := AnswerTickets(c.answered), Tickets(c.queue);
    TicketsAppend(c.queue, Entry(n, p, now, 0));
    assert Balanced(a, c.expired, q + [n], n + 1) by {
      assert UpTo(n + 1) == UpTo(n) + [n];
    }
    assert Increasing(a + (q + [n])) by {
      assert forall i :: 0 <= i < |a + q| ==> (a + q)[i] < n;
      IncreasingAppend(a + q, n);
      assert a + (q + [n]) == (a + q) + [n];
    }
  }

  lemma EnqueueKeepsWire(c: ClientState, p: Payload, now: nat, sent: Seconds)
    requires Wire(c)
    ensures var d := Enqueue(c, p, now);
            Wire(if c.ready && c.queue == [] then Write(d, sent) else d)
  {
  }

  lemma {:induction false} EnqueueAllKeeps(c: ClientState, subs: seq<Submission>)
    requires Books(c) && Wire(c) && c.queue != []
    ensures var d := EnqueueAll(c, subs);
            Books(d) && Wire(d) && d.queue != [] && c.queue <= d.queue && d.answered == c.answered &&
            d.expired == c.expired && d.pending == c.pending && d.ready == c.ready && c.submitted <= d.submitted
    decreases |subs|
  {
    if subs != [] {
      EnqueueKeepsBooks(c, subs[0].payload, subs[0].now);
      EnqueueAllKeeps(Enqueue(c, subs[0].payload, subs[0].now), subs[1..]);
    }
  }

  lemma {:induction false} EnqueueAllIgnoresAnswers(c: ClientState, a: seq<Answer>, subs: seq<Submission>)
    ensures EnqueueAll(c.(answered := a), subs) == EnqueueAll(c, subs).(answered := a)
    decreases |subs|
  {
    if subs != [] {
      EnqueueAllIgnoresAnswers(Enqueue(c, subs[0].payload, subs[0].now), a, subs[1..]);
    }
  }

  lemma AnswerKeepsBooks(c: ClientState, reply: Reply)
    requires Books(c) && c.queue != []
    ensures var f := c.queue[0];
            Books(c.(queue := c.queue[1..], answered := c.answered + [Answer(f.ticket, f.payload, reply)]))
  {
    hide Increasing;
    var f := c.queue[0];
    var a, q := AnswerTickets(c.answered), Tickets(c.queue[1..]);
    assert AnswerTickets(c.answered + [Answer(f.ticket, f.payload, reply)]) == a + [f.ticket];
    TicketsHead(c.queue);
    Regroup(a, f.ticket, q);
    assert Balanced(a + [f.ticket], c.expired, q, |c.submitted|) by {
      assert multiset([f.ticket] + q) == multiset{f.ticket} + multiset(q);
      assert multiset(a + [f.ticket]) == multiset(a) + multiset{f.ticket};
    }
  }

  function AnswerTo(e: Entry, reply: Reply): Answer {
    Answer(e.ticket, e.payload, reply)
  }

  /** The callback gets the reply together with the request that was on the wire. */
  lemma CompletedKeeps(c: ClientState, reply: Reply, more: seq<Submission>, sent: Seconds)
    requires Books(c) && Wire(c) && c.pending.Reading?
    ensures var d := Completed(c, reply, more, sent);
            Books(d) && Wire(d) &&
            d.answered == c.answered + [Answer(c.pending.ticket, c.queue[0].payload, reply)]
  {
    var f := c.queue[0];
    var answers := c.answered + [AnswerTo(f, reply)];
    EnqueueAllKeeps(c, more);
    EnqueueAllIgnoresAnswers(c, answers, more);
    var all := EnqueueAll(c, more);
    AnswerKeepsBooks(all, reply);
    CompletedWire(all, answers, sent);
    var popped := all.(queue := all.queue[1..], answered := answers);
    BooksKept(popped, Write(popped.(pending := Nothing), sent));
  }

  lemma CompletedWire(all: ClientState, answers: seq<Answer>, sent: Seconds)
    requires Wire(all) && all.ready && all.queue != []
    ensures Wire(Write(all.(queue := all.queue[1..], answered := answers, pending := Nothing), sent))
  {
  }

  lemma {:induction false} SweepSplits(q: seq<Entry>, now: nat, interval: nat)
    ensures multiset(Tickets(q)) ==
            multiset(Tickets(Sweep(q, now, interval))) + multiset(SweptTickets(q, now, interval))
  {
    if q != [] {
      TicketsHead(q);
      SweepSplits(q[1..], now, interval);
      if q[0].sendTime != 0 {
        assert Sweep(q, now, interval)[1..] == Sweep(q[1..], now, interval);
        TicketsHead(Sweep(q, now, interval));
      }
    }
  }

  lemma {:induction false} SweepKeepsOrder(before: seq<nat>, q: seq<Entry>, now: nat, interval: nat)
    requires Increasing(before + Tickets(q))
    ensures Increasing(before + Tickets(Sweep(q, now, interval)))
    decreases |q|
  {
    hide Increasing;
    if q != [] {
      var t := q[0].ticket;
      TicketsHead(q);
      Regroup(before, t, Tickets(q[1..]));
      if q[0].sendTime != 0 {
        SweepKeepsOrder(before + [t], q[1..], now, interval);
        var rest := Sweep(q[1..], now, interval);
        assert ([q[0]] + rest)[1..] == rest;
        TicketsHead([q[0]] + rest);
        Regroup(before, t, Tickets(rest));
      } else if Elapsed(now, q[0].pushTime) >= interval {
        IncreasingWithout(before, t, Tickets(q[1..]));
        SweepKeepsOrder(before, q[1..], now, interval);
      }
    }
  }

  lemma {:induction false} SweepUnaltered(q: seq<Entry>, now: nat, interval: nat, a: seq<Answer>, s: seq<Payload>)
    requires Unaltered(q, a, s)
    ensures Unaltered(Sweep(q, now, interval), a, s)
  {
    if q != [] {
      SweepUnaltered(q[1..], now, interval, a, s);
    }
  }

  lemma SweepKeepsBooks(c: ClientState, interval: nat, now: nat)
    requires Books(c)
    ensures Books(Step(c, Cleanup(interval, now)))
  {
    SweepSplits(c.queue, now, interval);
    SweepKeepsOrder(AnswerTickets(c.answered), c.queue, now, interval);
    SweepUnaltered(c.queue, now, interval, c.answered, c.submitted);
    assert multiset(c.expired + SweptTickets(c.queue, now, interval)) ==
           multiset(c.expired) + multiset(SweptTickets(c.queue, now, interval));
  }

  /** The request on the wire stays where it is, so the buffers of its operation stay alive. */
  lemma SweepKeepsWire(c: ClientState, interval: nat, now: nat)
    requires Wire(c)
    ensures Wire(Step(c, Cleanup(interval, now)))
    ensures c.pending.OnWire() ==> Step(c, Cleanup(interval, now)).queue[0] == c.queue[0]
  {
    if c.pending.OnWire() {
      SweepWaiting(c.queue[1..], now, interval);
      assert Sweep(c.queue, now, interval)[1..] == Sweep(c.queue[1..], now, interval);
    } else {
      SweepWaiting(c.queue, now, interval);
    }
  }

  lemma {:induction false} SweepWaiting(q: seq<Entry>, now: nat, interval: nat)
    requires forall i :: 0 <= i < |q| ==> q[i].sendTime == 0
    ensures forall i :: 0 <= i < |Sweep(q, now, interval)| ==> Sweep(q, now, interval)[i].sendTime == 0
  {
    if q != [] {
      SweepWaiting(q[1..], now, interval);
    }
  }

  // ----- Runs -----

  lemma RequestKeeps(c: ClientState, p: Payload, now: nat, sent: Seconds)
    requires Books(c) && Wire(c)
    ensures var d := Step(c, Request(p, now, sent)); Books(d) && Wire(d)
  {
    EnqueueKeepsBooks(c, p, now);
    EnqueueKeepsWire(c, p, now, sent);
    BooksKept(Enqueue(c, p, now), Step(c, Request(p, now, sent)));
  }

  lemma StepKeeps(c: ClientState, e: Event)
    requires Books(c) && Wire(c)
    ensures Books(Step(c, e)) && Wire(Step(c, e))
  {
    hide Books, Completed, Sweep;
    match e
    case Request(p, now, sent) => RequestKeeps(c, p, now, sent);
    case Cleanup(interval, now) =>
      SweepKeepsBooks(c, interval, now);
      SweepKeepsWire(c, interval, now);
    case ReadDone(reply, more, sent) =>
      if c.pending.Reading? && reply.Some? {
        CompletedKeeps(c, reply.value, more, sent);
      } else {
        BooksKept(c, Step(c, e));
      }
    case _ => BooksKept(c, Step(c, e));
  }

  /** In every reachable state the books balance and the wire has one token. */
  lemma {:induction false} RunKeeps(c: ClientState, es: seq<Event>)
    requires Books(c) && Wire(c)
    ensures Books(Run(c, es)) && Wire(Run(c, es))
    decreases |es|
  {
    if es != [] {
      StepKeeps(c, es[0]);
      RunKeeps(Step(c, es[0]), es[1..]);
    }
  }

  lemma EveryReachableState(es: seq<Event>)
    ensures Books(Run(Initial(), es)) && Wire(Run(Initial(), es))
  {
    RunKeeps(Initial(), es);
  }
}
