/** The HTTPS client in the source's own form: callbacks that push, pop and erase on the request list
    while at most one asynchronous operation is outstanding. What the operations hand to the network
    and what came of each request are kept as ghost fields. */
module HttpsClient {
  import opened Wrappers
  import opened HttpsModel
  import opened HttpsProofs

  class Client {
    var reqRespList: seq<Entry>
    var ready: bool
    var pushed: nat                  // how many requests were pushed so far
    ghost var pending: Pending       // the asynchronous operation whose completion is still to come
    ghost var clock: nat
    ghost var submitted: seq<Payload>
    ghost var answered: seq<Answer>  // the calls of the response callback
    ghost var expired: seq<nat>

    ghost function Model(): ClientState
      reads this
    {
      ClientState(reqRespList, ready, pending, clock, submitted, answered, expired)
    }

    ghost predicate Valid()
      reads this
    {
      pushed == |submitted| && Books(Model()) && Wire(Model())
    }

    constructor ()
      ensures Valid() && Model() == Initial()
    {
      reqRespList := [];
      ready := false;
      pushed := 0;
      pending, clock := Nothing, 0;
      submitted, answered, expired := [], [], [];
      new;
      EveryReachableState([]);
    }

    method Connect()
      requires Valid() && !ready && pending.Nothing?
      modifies this`pending
      ensures Valid() && Model() == Step(old(Model()), Event.Connect)
    {
      StepKeeps(Model(), Event.Connect);
      pending := Connecting;
    }

    /** Also called from inside the response callback, while the answered request is still listed. */
    method Request(payload: Payload, now: nat, sent: Seconds)
      requires pushed == |submitted| && (ready && reqRespList == [] ==> pending.Nothing?)
      modifies this
      ensures pushed == |submitted| && Model() == Step(old(Model()), Event.Request(payload, now, sent))
      ensures old(Valid()) ==> Valid()
    {
      hide Books, Wire;
      if Valid() {
        StepKeeps(Model(), Event.Request(payload, now, sent));
      }
      Push(payload, now);
      if !ready {
        return;
      }
      if |reqRespList| > 1 {
        return;
      }
      DoWrite(sent);
    }

    method Push(payload: Payload, now: nat)
      requires pushed == |submitted|
      modifies this
      ensures pushed == |submitted| && Model() == Enqueue(old(Model()), payload, now)
    {
      reqRespList := reqRespList + [Entry(pushed, payload, now, 0)];
      pushed := pushed + 1;
      submitted, clock := submitted + [payload], now;
    }

    /** Issues the write of the front request; nothing else may be outstanding. */
    method DoWrite(sent: Seconds)
      requires reqRespList != [] && pending.Nothing?
      modifies this`reqRespList, this`pending
      ensures Model() == Write(old(Model()), sent)
    {
      reqRespList := reqRespList[0 := reqRespList[0].(sendTime := sent)];
      pending := Writing(reqRespList[0].ticket);
    }

    /** The completion of the handshake that ends a connect; on failure the reconnect is posted. */
    method OnHandshake(ok: bool, sent: Seconds)
      requires Valid() && pending.Connecting?
      modifies this
      ensures Valid() && Model() == Step(old(Model()), Handshake(ok, sent))
    {
      hide Books;
      StepKeeps(Model(), Handshake(ok, sent));
      pending := Nothing;
      if !ok {
        OnReconnect();
        return;
      }
      ready := true;
      if reqRespList != [] {
        DoWrite(sent);
      }
    }

    method OnWrite(ok: bool)
      requires Valid() && pending.Writing?
      modifies this
      ensures Valid() && Model() == Step(old(Model()), WriteDone(ok))
    {
      hide Books;
      StepKeeps(Model(), WriteDone(ok));
      pending := Nothing;
      if !ok {
        reqRespList := reqRespList[0 := reqRespList[0].(sendTime := 0)];
        OnReconnect();
        return;
      }
      pending := Reading(reqRespList[0].ticket);
    }

    /** `more` are the requests that the response callback submits while it runs. */
    method OnRead(reply: Option<Reply>, more: seq<Submission>, sent: Seconds)
      requires Valid() && pending.Reading?
      modifies this
      ensures Valid() && Model() == Step(old(Model()), ReadDone(reply, more, sent))
      ensures reply.Some? ==>
                answered == old(answered) + [Answer(old(pending).ticket, old(reqRespList)[0].payload, reply.value)]
    {
      hide Books;
      ghost var before := Model();
      StepKeeps(before, ReadDone(reply, more, sent));
      if reply.None? {
        reqRespList := reqRespList[0 := reqRespList[0].(sendTime := 0)];
        OnReconnect();
        return;
      }
      CompletedKeeps(before, reply.value, more, sent);
      answered := answered + [Answer(reqRespList[0].ticket, reqRespList[0].payload, reply.value)];
      ghost var calling := Model();
      var i := 0;
      while i < |more|
        invariant 0 <= i <= |more|
        invariant ready && pending.Reading? && reqRespList != [] && pushed == |submitted|
        invariant EnqueueAll(calling, more) == EnqueueAll(Model(), more[i..])
      {
        assert more[i..][0] == more[i] && more[i..][1..] == more[i + 1..];
        Request(more[i].payload, more[i].now, sent);
        i := i + 1;
      }
      pending := Nothing;
      reqRespList := reqRespList[1..];
      if reqRespList == [] {
        return;
      }
      DoWrite(sent);
    }

    /** Failed operations post this at once; it resets the stream and posts a connect. */
    method OnReconnect()
      modifies this`ready, this`pending
      ensures !ready && pending == Connecting
    {
      ready := false;
      pending := Connecting;
    }

    method CleanupRequests(interval: nat, now: nat)
      requires Valid()
      modifies this
      ensures Valid() && Model() == Step(old(Model()), Cleanup(interval, now))
    {
      hide Books, Wire;
      StepKeeps(Model(), Cleanup(interval, now));
      var out := EraseExpired(interval, now);
      expired, clock := expired + out, now;
    }

    /** The erasing loop over the list, where erasing also advances. */
    method EraseExpired(interval: nat, now: nat) returns (ghost out: seq<nat>)
      modifies this`reqRespList
      ensures reqRespList == Sweep(old(reqRespList), now, interval)
      ensures out == SweptTickets(old(reqRespList), now, interval)
    {
      ghost var q := reqRespList;
      out := [];
      var i := 0;
      while i < |reqRespList|
        invariant 0 <= i <= |reqRespList|
        invariant reqRespList[..i] + Sweep(reqRespList[i..], now, interval) == Sweep(q, now, interval)
        invariant out + SweptTickets(reqRespList[i..], now, interval) == SweptTickets(q, now, interval)
        decreases |reqRespList| - i
      {
        ghost var done, rest := reqRespList[..i], reqRespList[i..];
        assert reqRespList[i] == rest[0] && reqRespList[i + 1..] == rest[1..];
        if reqRespList[i].sendTime != 0 {
          SweepPasses(done, rest, now, interval);
          assert reqRespList[..i + 1] == done + [rest[0]];
          i := i + 1;
        } else if Elapsed(now, reqRespList[i].pushTime) >= interval {
          out := out + [reqRespList[i].ticket];
          reqRespList := reqRespList[..i] + reqRespList[i + 1..];
          assert reqRespList[..i] == done && reqRespList[i..] == rest[1..];
        } else {
          break;
        }
      }
      SweepEnds(reqRespList, i, now, interval);
      assert out + [] == out;
    }
  }

  lemma SweepPasses(done: seq<Entry>, rest: seq<Entry>, now: nat, interval: nat)
    requires rest != [] && rest[0].sendTime != 0
    ensures done + Sweep(rest, now, interval) == (done + [rest[0]]) + Sweep(rest[1..], now, interval)
    ensures SweptTickets(rest, now, interval) == SweptTickets(rest[1..], now, interval)
  {
  }

  lemma SweepEnds(list: seq<Entry>, i: nat, now: nat, interval: nat)
    requires i <= |list|
    requires i < |list| ==> list[i].sendTime == 0 && Elapsed(now, list[i].pushTime) < interval
    ensures list[..i] + Sweep(list[i..], now, interval) == list && SweptTickets(list[i..], now, interval) == []
  {
  }
}
