/** More about runs of the HTTPS client: when the early exit of the expiry sweep is harmless, what
    reconnects leave alone, and that successful operations answer everything. */
module HttpsRuns {
  import opened Wrappers
  import opened HttpsModel
  import opened HttpsProofs

  // ----- Expiry -----

  /** Times are unsigned 64-bit numbers, and `now` is not before any push time. */
  predicate NotBefore(q: seq<Entry>, now: nat) {
    now < TWO_TO_64 && forall i :: 0 <= i < |q| ==> q[i].pushTime <= now
  }

  predicate Keep(e: Entry, now: nat, interval: nat) {
    e.sendTime != 0 || Elapsed(now, e.pushTime) < interval
  }

  /** The plain filter: what is on the wire or young enough stays. */
  function Unexpired(q: seq<Entry>, now: nat, interval: nat): seq<Entry> {
    if q == [] then []
    else (if Keep(q[0], now, interval) then [q[0]] else []) + Unexpired(q[1..], now, interval)
  }

  predicate WaitingSorted(q: seq<Entry>) {
    forall i, j :: 0 <= i < j < |q| && q[i].sendTime == 0 && q[j].sendTime == 0 ==> q[i].pushTime <= q[j].pushTime
  }

  lemma ElapsedIsDifference(now: nat, pushTime: nat)
    requires pushTime <= now < TWO_TO_64
    ensures Elapsed(now, pushTime) == now - pushTime
  {
  }

  lemma {:induction false} AllKept(q: seq<Entry>, now: nat, interval: nat)
    requires forall i :: 0 <= i < |q| ==> Keep(q[i], now, interval)
    ensures Unexpired(q, now, interval) == q
  {
    if q != [] {
      AllKept(q[1..], now, interval);
    }
  }

  lemma {:induction false} SortedSweepIsFilter(q: seq<Entry>, now: nat, interval: nat)
    requires WaitingSorted(q) && NotBefore(q, now)
    ensures Sweep(q, now, interval) == Unexpired(q, now, interval)
  {
    if q != [] {
      if q[0].sendTime != 0 || !Keep(q[0], now, interval) {
        SortedSweepIsFilter(q[1..], now, interval);
      } else {
        forall i | 0 <= i < |q| ensures Keep(q[i], now, interval) {
          ElapsedIsDifference(now, q[0].pushTime);
          ElapsedIsDifference(now, q[i].pushTime);
        }
        AllKept(q, now, interval);
      }
    }
  }

  lemma {:induction false} SweepStopsAt(q: seq<Entry>, i: nat, j: nat, now: nat, interval: nat)
    requires i < j < |q| && q[i].sendTime == 0 && Elapsed(now, q[i].pushTime) < interval
    ensures q[j] in Sweep(q, now, interval)
  {
    if i > 0 && (q[0].sendTime != 0 || Elapsed(now, q[0].pushTime) >= interval) {
      SweepStopsAt(q[1..], i - 1, j - 1, now, interval);
    }
  }

  lemma {:induction false} FilterKeepsOnly(q: seq<Entry>, e: Entry, now: nat, interval: nat)
    requires e in Unexpired(q, now, interval)
    ensures Keep(e, now, interval)
  {
    if q != [] && !(Keep(q[0], now, interval) && e == q[0]) {
      FilterKeepsOnly(q[1..], e, now, interval);
    }
  }

  function Latest(q: seq<Entry>): (t: nat)
    ensures forall i :: 0 <= i < |q| ==> q[i].pushTime <= t
    ensures t == 0 || exists i :: 0 <= i < |q| && q[i].pushTime == t
  {
    if q == [] then 0
    else
      var rest := Latest(q[1..]);
      assert forall i :: 1 <= i < |q| ==> q[i] == q[1..][i - 1];
      if q[0].pushTime >= rest then q[0].pushTime else rest
  }

  /** The sweep with its early exit agrees with the filter at every later moment and for every
      interval exactly when the waiting requests stand in the order of their push times. */
  lemma SweepIsFilterExactly(q: seq<Entry>)
    requires forall i :: 0 <= i < |q| ==> q[i].pushTime < TWO_TO_64
    ensures (forall now: nat, interval: nat :: NotBefore(q, now) ==>
               Sweep(q, now, interval) == Unexpired(q, now, interval))
            <==> WaitingSorted(q)
  {
    if WaitingSorted(q) {
      forall now: nat, interval: nat | NotBefore(q, now)
        ensures Sweep(q, now, interval) == Unexpired(q, now, interval)
      {
        SortedSweepIsFilter(q, now, interval);
      }
    } else {
      var i, j :| 0 <= i < j < |q| && q[i].sendTime == 0 && q[j].sendTime == 0 && q[i].pushTime > q[j].pushTime;
      var now := Latest(q);
      assert NotBefore(q, now);
      ElapsedIsDifference(now, q[i].pushTime);
      ElapsedIsDifference(now, q[j].pushTime);
      var interval := now - q[j].pushTime;
      SweepStopsAt(q, i, j, now, interval);
      assert Sweep(q, now, interval) != Unexpired(q, now, interval) by {
        if Sweep(q, now, interval) == Unexpired(q, now, interval) {
          FilterKeepsOnly(q, q[j], now, interval);
        }
      }
    }
  }

  // ----- Clocks that go back -----

  predicate Waiting(e: Entry) {
    e.sendTime == 0
  }

  /** The request was pushed less than `interval` before `now`, or after it. */
  predicate Young(e: Entry, now: nat, interval: nat) {
    now < e.pushTime + interval
  }

  predicate Timed(q: seq<Entry>, now: nat) {
    now < TWO_TO_64 && forall i :: 0 <= i < |q| ==> q[i].pushTime < TWO_TO_64
  }

  /** What the sweep takes for old, in times: with a clock behind its push time a request looks almost
      2^64 milliseconds old. */
  predicate Due(e: Entry, now: nat, interval: nat) {
    if e.pushTime <= now then interval <= now - e.pushTime else interval <= TWO_TO_64 - (e.pushTime - now)
  }

  lemma DueExactly(e: Entry, now: nat, interval: nat)
    requires now < TWO_TO_64 && e.pushTime < TWO_TO_64
    ensures Elapsed(now, e.pushTime) >= interval <==> Due(e, now, interval)
  {
    if e.pushTime > now {
      assert Elapsed(now, e.pushTime) == now - e.pushTime + TWO_TO_64;
    }
  }

  /** A lone waiting request is dropped exactly when it is due, which a request from the future is for
      all but the longest intervals. */
  lemma FutureRequestIsSwept(e: Entry, now: nat, interval: nat)
    requires Waiting(e) && now < TWO_TO_64 && e.pushTime < TWO_TO_64
    ensures Sweep([e], now, interval) == [] <==> Due(e, now, interval)
  {
    DueExactly(e, now, interval);
    hide Due, Elapsed;
  }

  /** The sweep reaches place `i` and takes what is there for old. */
  predicate SweptAt(q: seq<Entry>, i: nat, now: nat, interval: nat) {
    && i < |q| && Waiting(q[i])
    && forall k :: 0 <= k <= i && Waiting(q[k]) ==> Due(q[k], now, interval)
  }

  lemma {:induction false} OnlyQueuedAreSwept(q: seq<Entry>, now: nat, interval: nat, t: nat)
    requires t !in Tickets(q)
    ensures t !in SweptTickets(q, now, interval)
  {
    if q != [] {
      TicketsHead(q);
      OnlyQueuedAreSwept(q[1..], now, interval, t);
    }
  }

  lemma FrontIsAlone(q: seq<Entry>)
    requires q != [] && Increasing(Tickets(q))
    ensures Increasing(Tickets(q[1..])) && q[0].ticket !in Tickets(q[1..])
    ensures forall i :: 0 < i < |q| ==> q[i].ticket != q[0].ticket
  {
    assert forall k :: 0 <= k < |q| - 1 ==> Tickets(q[1..])[k] == Tickets(q)[k + 1];
    forall i | 0 < i < |q| ensures q[i].ticket != q[0].ticket {
      assert Tickets(q)[0] < Tickets(q)[i];
    }
  }

  lemma SweptFirst(q: seq<Entry>, t: nat, now: nat, interval: nat)
    requires q != [] && Timed(q, now) && (t == q[0].ticket ==> t !in SweptTickets(q[1..], now, interval))
    ensures t in SweptTickets(q, now, interval) <==>
            (Waiting(q[0]) ==> Due(q[0], now, interval)) &&
            (t in SweptTickets(q[1..], now, interval) || (t == q[0].ticket && Waiting(q[0])))
  {
    DueExactly(q[0], now, interval);
    hide Due, Elapsed;
  }

  /** The request at place `i` is swept exactly when it and all waiting requests before it are due. */
  lemma {:induction false} SweptExactly(q: seq<Entry>, i: nat, now: nat, interval: nat)
    requires i < |q| && Timed(q, now) && Increasing(Tickets(q))
    ensures q[i].ticket in SweptTickets(q, now, interval) <==> SweptAt(q, i, now, interval)
    decreases |q|
  {
    hide Due, Increasing, SweptTickets;
    var rest := q[1..];
    FrontIsAlone(q);
    OnlyQueuedAreSwept(rest, now, interval, q[0].ticket);
    SweptFirst(q, q[i].ticket, now, interval);
    if i > 0 {
      SweptExactly(rest, i - 1, now, interval);
      SweptAtShift(q, i, now, interval);
    }
  }

  lemma SweptAtShift(q: seq<Entry>, i: nat, now: nat, interval: nat)
    requires 0 < i < |q|
    ensures SweptAt(q, i, now, interval) <==>
            (Waiting(q[0]) ==> Due(q[0], now, interval)) && SweptAt(q[1..], i - 1, now, interval)
  {
    hide Due;
    assert forall k :: 1 <= k < |q| ==> q[k] == q[1..][k - 1];
    if (Waiting(q[0]) ==> Due(q[0], now, interval)) && SweptAt(q[1..], i - 1, now, interval) {
      forall k | 0 <= k <= i && Waiting(q[k]) ensures Due(q[k], now, interval) {
        if k > 0 {
          assert Waiting(q[1..][k - 1]);
        }
      }
    }
    if SweptAt(q, i, now, interval) {
      forall k | 0 <= k <= i - 1 && Waiting(q[1..][k]) ensures Due(q[1..][k], now, interval) {
        assert q[1..][k] == q[k + 1];
      }
    }
  }

  /** Some request that is not old enough is swept. */
  predicate SweepsYoung(q: seq<Entry>, now: nat, interval: nat) {
    exists i :: 0 <= i < |q| && Young(q[i], now, interval) && q[i].ticket in SweptTickets(q, now, interval)
  }

  /** A request that is not old enough is swept exactly when a waiting request was pushed after the
      sweep's reading of the clock and the early exit does not come before it: it and all waiting
      requests before it are due. */
  lemma YoungSweptExactly(q: seq<Entry>, now: nat, interval: nat)
    requires Timed(q, now) && Increasing(Tickets(q))
    ensures SweepsYoung(q, now, interval) <==>
            exists i :: 0 <= i < |q| && q[i].pushTime > now && SweptAt(q, i, now, interval)
  {
    hide SweptTickets, Increasing;
    forall i | 0 <= i < |q|
      ensures q[i].ticket in SweptTickets(q, now, interval) <==> SweptAt(q, i, now, interval)
      ensures SweptAt(q, i, now, interval) ==> (Young(q[i], now, interval) <==> q[i].pushTime > now)
    {
      SweptExactly(q, i, now, interval);
    }
  }

  /** No interval makes the sweep drop a request that is not old enough exactly when no waiting request
      was pushed after the sweep's reading of the clock. */
  lemma YoungSafeExactly(q: seq<Entry>, now: nat)
    requires Timed(q, now) && Increasing(Tickets(q))
    ensures (forall interval: nat :: !SweepsYoung(q, now, interval)) <==>
            forall i :: 0 <= i < |q| && Waiting(q[i]) ==> q[i].pushTime <= now
  {
    hide SweepsYoung, Increasing;
    forall interval: nat
      ensures SweepsYoung(q, now, interval) <==>
              exists i :: 0 <= i < |q| && q[i].pushTime > now && SweptAt(q, i, now, interval)
    {
      YoungSweptExactly(q, now, interval);
    }
    if i :| 0 <= i < |q| && Waiting(q[i]) && q[i].pushTime > now {
      assert SweptAt(q, i, now, 0);
      assert SweepsYoung(q, now, 0);
    }
  }

  /** The same in every reachable state, whatever the clock did. */
  lemma {:induction false} CleanupDropsYoungExactly(es: seq<Event>, now: nat, interval: nat)
    requires Timed(Run(Initial(), es).queue, now)
    ensures var q := Run(Initial(), es).queue;
            && (SweepsYoung(q, now, interval) <==>
                exists i :: 0 <= i < |q| && q[i].pushTime > now && SweptAt(q, i, now, interval))
            && ((forall longer: nat :: !SweepsYoung(q, now, longer)) <==>
                forall i :: 0 <= i < |q| && Waiting(q[i]) ==> q[i].pushTime <= now)
  {
    hide Run, SweepsYoung, SweptAt, Wire, Balanced, Unaltered, Increasing;
    EveryReachableState(es);
    var c := Run(Initial(), es);
    IncreasingEnd(AnswerTickets(c.answered), Tickets(c.queue));
    YoungSweptExactly(c.queue, now, interval);
    YoungSafeExactly(c.queue, now);
  }

  lemma IncreasingEnd(before: seq<nat>, ts: seq<nat>)
    requires Increasing(before + ts)
    ensures Increasing(ts)
  {
    var all := before + ts;
    forall i, j | 0 <= i < j < |ts| ensures ts[i] < ts[j] {
      assert all[|before| + i] < all[|before| + j];
    }
  }

  // ----- Time over a run -----

  /** The clock's last reading after the submissions of a callback. */
  function LastTime(clock: nat, subs: seq<Submission>): nat
    decreases |subs|
  {
    if subs == [] then clock else LastTime(subs[0].now, subs[1..])
  }

  predicate Forward(clock: nat, subs: seq<Submission>)
    decreases |subs|
  {
    subs == [] || (clock <= subs[0].now && Forward(subs[0].now, subs[1..]))
  }

  function TimeOf(clock: nat, e: Event): nat {
    match e
    case Request(_, now, _) => now
    case ReadDone(_, more, _) => LastTime(clock, more)
    case Cleanup(_, now) => now
    case _ => clock
  }

  /** The clock never goes back. */
  predicate Clocked(clock: nat, es: seq<Event>)
    decreases |es|
  {
    es != [] ==>
      && clock <= TimeOf(clock, es[0])
      && (es[0].ReadDone? ==> Forward(clock, es[0].more))
      && Clocked(TimeOf(clock, es[0]), es[1..])
  }

  ghost predicate Timely(q: seq<Entry>, clock: nat) {
    && (forall i, j :: 0 <= i < j < |q| ==> q[i].pushTime <= q[j].pushTime)
    && (forall i :: 0 <= i < |q| ==> q[i].pushTime <= clock)
  }

  lemma {:induction false} EnqueueAllTimely(c: ClientState, subs: seq<Submission>, clock: nat)
    requires Timely(c.queue, c.clock) && c.clock <= clock && Forward(clock, subs)
    ensures var d := EnqueueAll(c, subs);
            Timely(d.queue, d.clock) && d.clock <= LastTime(clock, subs) && |c.queue| <= |d.queue|
    decreases |subs|
  {
    if subs != [] {
      EnqueueAllTimely(Enqueue(c, subs[0].payload, subs[0].now), subs[1..], subs[0].now);
    }
  }

  lemma {:induction false} SweepTimely(q: seq<Entry>, now: nat, interval: nat, low: nat, clock: nat)
    requires Timely(q, clock) && forall i :: 0 <= i < |q| ==> low <= q[i].pushTime
    ensures var kept := Sweep(q, now, interval);
            Timely(kept, clock) && forall i :: 0 <= i < |kept| ==> low <= kept[i].pushTime
  {
    if q != [] {
      SweepTimely(q[1..], now, interval, q[0].pushTime, clock);
    }
  }

  lemma ReadTimely(c: ClientState, reply: Reply, more: seq<Submission>, sent: Seconds, clock: nat)
    requires c.clock <= clock && Timely(c.queue, c.clock) && c.queue != [] && Forward(clock, more)
    ensures var d := Completed(c, reply, more, sent);
            Timely(d.queue, d.clock) && d.clock <= LastTime(clock, more)
  {
    var f := c.queue[0];
    EnqueueAllTimely(c.(answered := c.answered + [Answer(f.ticket, f.payload, reply)]), more, clock);
  }

  lemma StepTimely(c: ClientState, e: Event, clock: nat)
    requires c.clock <= clock && Timely(c.queue, c.clock) && Clocked(clock, [e])
    ensures var d := Step(c, e);
            Timely(d.queue, d.clock) && d.clock <= TimeOf(clock, e)
  {
    hide Completed;
    match e
    case ReadDone(reply, more, sent) =>
      if c.pending.Reading? && c.queue != [] && reply.Some? {
        ReadTimely(c, reply.value, more, sent, clock);
      }
    case Cleanup(interval, now) => SweepTimely(c.queue, now, interval, 0, c.clock);
    case _ =>
  }

  lemma {:induction false} RunTimely(c: ClientState, es: seq<Event>, clock: nat)
    requires c.clock <= clock && Timely(c.queue, c.clock) && Clocked(clock, es)
    ensures Timely(Run(c, es).queue, Run(c, es).clock)
    decreases |es|
  {
    if es != [] {
      assert Clocked(clock, [es[0]]);
      StepTimely(c, es[0], clock);
      RunTimely(Step(c, es[0]), es[1..], TimeOf(clock, es[0]));
    }
  }

  /** Under a clock that never goes back, in every reachable state, a cleanup keeps exactly the request
      on the wire and the unexpired ones, in order. */
  lemma CleanupIsFilter(es: seq<Event>, interval: nat, now: nat)
    requires Clocked(0, es) && Run(Initial(), es).clock <= now < TWO_TO_64
    ensures var c := Run(Initial(), es);
            Step(c, Cleanup(interval, now)).queue == Unexpired(c.queue, now, interval)
  {
    RunTimely(Initial(), es, 0);
    SortedSweepIsFilter(Run(Initial(), es).queue, now, interval);
  }

  // ----- Retries and progress -----

  predicate SameRequests(q: seq<Entry>, r: seq<Entry>) {
    |q| == |r| && forall i :: 0 <= i < |q| ==> q[i].(sendTime := 0) == r[i].(sendTime := 0)
  }

  predicate OnlyTransport(es: seq<Event>) {
    forall i :: 0 <= i < |es| ==>
      es[i].Connect? || es[i].Handshake? || es[i].WriteDone? || (es[i].ReadDone? && es[i].reply.None?)
  }

  /** Connects, handshakes, writes and failures, in any number and order, neither lose nor reorder a
      request, nor answer one. */
  lemma {:induction false} RetriesLoseNothing(c: ClientState, es: seq<Event>)
    requires OnlyTransport(es)
    ensures var d := Run(c, es);
            SameRequests(c.queue, d.queue) && d.answered == c.answered && d.expired == c.expired
    decreases |es|
  {
    if es != [] {
      var e := es[0];
      assert e.Connect? || e.Handshake? || e.WriteDone? || (e.ReadDone? && e.reply.None?);
      RetriesLoseNothing(Step(c, e), es[1..]);
    }
  }

  function Successes(replies: seq<Reply>, sent: Seconds): seq<Event> {
    if replies == [] then []
    else [WriteDone(true), ReadDone(Some(replies[0]), [], sent)] + Successes(replies[1..], sent)
  }

  function Answers(q: seq<Entry>, replies: seq<Reply>): seq<Answer>
    requires |q| == |replies|
  {
    if q == [] then [] else [AnswerTo(q[0], replies[0])] + Answers(q[1..], replies[1..])
  }

  lemma SucceedOnce(c: ClientState, reply: Reply, sent: Seconds)
    requires Books(c) && Wire(c) && c.pending.Writing?
    ensures var d := Step(Step(c, WriteDone(true)), ReadDone(Some(reply), [], sent));
            Books(d) && Wire(d) && d.answered == c.answered + [AnswerTo(c.queue[0], reply)] &&
            SameRequests(d.queue, c.queue[1..]) && (d.queue != [] ==> d.pending.Writing?)
  {
    StepKeeps(c, WriteDone(true));
    StepKeeps(Step(c, WriteDone(true)), ReadDone(Some(reply), [], sent));
  }

  lemma {:induction false} AnswersSame(q: seq<Entry>, r: seq<Entry>, replies: seq<Reply>)
    requires SameRequests(q, r) && |q| == |replies|
    ensures Answers(q, replies) == Answers(r, replies)
  {
    if q != [] {
      assert q[0].(sendTime := 0) == r[0].(sendTime := 0);
      AnswersSame(q[1..], r[1..], replies[1..]);
    }
  }

  /** If every write and read succeeds, the whole queue is answered, in order, each request with the
      reply that was read for it. */
  lemma {:induction false} SuccessAnswersAll(c: ClientState, replies: seq<Reply>, sent: Seconds)
    requires Books(c) && Wire(c) && |replies| == |c.queue|
    requires c.queue != [] ==> c.pending.Writing?
    ensures var d := Run(c, Successes(replies, sent));
            d.queue == [] && d.answered == c.answered + Answers(c.queue, replies)
    decreases |replies|
  {
    hide Step, Books, Wire;
    if replies != [] {
      var e1, e2 := WriteDone(true), ReadDone(Some(replies[0]), [], sent);
      var d := Step(Step(c, e1), e2);
      SucceedOnce(c, replies[0], sent);
      SuccessAnswersAll(d, replies[1..], sent);
      AnswersSame(d.queue, c.queue[1..], replies[1..]);
      RunTwo(c, e1, e2, Successes(replies[1..], sent));
    }
  }

  lemma RunTwo(c: ClientState, e1: Event, e2: Event, es: seq<Event>)
    ensures Run(c, [e1, e2] + es) == Run(Step(Step(c, e1), e2), es)
  {
    hide Step;
    assert ([e1, e2] + es)[1..] == [e2] + es && ([e2] + es)[1..] == es;
    assert Run(c, [e1, e2] + es) == Run(Step(c, e1), [e2] + es);
  }
}
