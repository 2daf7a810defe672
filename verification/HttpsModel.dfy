/** The HTTPS client as a protocol over its request queue: requests come in at any time, one
    operation of the connection is outstanding, and every completion is a step of its own. */
module HttpsModel {
  import opened Wrappers

  type Payload = string
  type Reply = string

  /** A queued request. The ticket numbers the requests in the order of submission; `sendTime` is not
      0 while the request is on the wire. */
  datatype Entry = Entry(ticket: nat, payload: Payload, pushTime: nat, sendTime: nat)

  /** The outstanding operation; a write or read belongs to the request it was issued for. */
  datatype Pending = Nothing | Connecting | Writing(ticket: nat) | Reading(ticket: nat) {
    predicate OnWire() {
      Writing? || Reading?
    }
  }

  datatype Answer = Answer(ticket: nat, payload: Payload, reply: Reply)

  datatype ClientState = ClientState(queue: seq<Entry>, ready: bool, pending: Pending, clock: nat,
                           submitted: seq<Payload>, answered: seq<Answer>, expired: seq<nat>)

  /** A request made from inside the response callback, with the clock read for it. */
  datatype Submission = Submission(payload: Payload, now: nat)

  type Seconds = s: nat | s != 0 witness 1

  /** `sent` is the wall clock in seconds, read when a write is issued. A read that succeeds calls the
      response callback, which may submit more requests. */
  datatype Event =
    | Connect
    | Request(payload: Payload, now: nat, sent: Seconds)
    | Handshake(ok: bool, sent: Seconds)
    | WriteDone(ok: bool)
    | ReadDone(reply: Option<Reply>, more: seq<Submission>, sent: Seconds)
    | Cleanup(interval: nat, now: nat)

  const TWO_TO_64: nat := 0x1_0000_0000_0000_0000

  /** Unsigned 64-bit subtraction. */
  function Elapsed(now: nat, pushTime: nat): nat {
    (now - pushTime) % TWO_TO_64
  }

  function Initial(): ClientState {
    ClientState([], false, Nothing, 0, [], [], [])
  }

  function Enqueue(c: ClientState, p: Payload, now: nat): ClientState {
    c.(queue := c.queue + [Entry(|c.submitted|, p, now, 0)], submitted := c.submitted + [p], clock := now)
  }

  function EnqueueAll(c: ClientState, subs: seq<Submission>): ClientState
    decreases |subs|
  {
    if subs == [] then c else EnqueueAll(Enqueue(c, subs[0].payload, subs[0].now), subs[1..])
  }

  /** Puts the front request on the wire. */
  function Write(c: ClientState, sent: Seconds): ClientState {
    if c.queue == [] then c
    else c.(queue := c.queue[0 := c.queue[0].(sendTime := sent)], pending := Writing(c.queue[0].ticket))
  }

  /** The connection broke: the front request is due again, and a reconnect is under way. */
  function Reconnect(c: ClientState): ClientState {
    var queue := if c.pending.OnWire() && c.queue != [] then c.queue[0 := c.queue[0].(sendTime := 0)] else c.queue;
    c.(queue := queue, ready := false, pending := Connecting)
  }

  /** The expiry sweep with its early exit: the first waiting request that is young enough ends it. */
  function Sweep(q: seq<Entry>, now: nat, interval: nat): seq<Entry> {
    if q == [] then []
    else if q[0].sendTime != 0 then [q[0]] + Sweep(q[1..], now, interval)
    else if Elapsed(now, q[0].pushTime) >= interval then Sweep(q[1..], now, interval)
    else q
  }

  function SweptTickets(q: seq<Entry>, now: nat, interval: nat): seq<nat> {
    if q == [] then []
    else if q[0].sendTime != 0 then SweptTickets(q[1..], now, interval)
    else if Elapsed(now, q[0].pushTime) >= interval then [q[0].ticket] + SweptTickets(q[1..], now, interval)
    else []
  }

  function Completed(c: ClientState, reply: Reply, more: seq<Submission>, sent: Seconds): ClientState
    requires c.queue != []
  {
    var front := c.queue[0];
    var called := EnqueueAll(c.(answered := c.answered + [Answer(front.ticket, front.payload, reply)]), more);
    if called.queue == [] then called
    else Write(called.(queue := called.queue[1..], pending := Nothing), sent)
  }

  /** One step. A completion arrives only for the operation that is outstanding. */
  function Step(c: ClientState, e: Event): ClientState {
    match e
    case Connect => if c.pending.Nothing? && !c.ready then c.(pending := Connecting) else c
    case Request(p, now, sent) =>
      var c1 := Enqueue(c, p, now);
      if c.ready && c.queue == [] then Write(c1, sent) else c1
    case Handshake(ok, sent) =>
      if !c.pending.Connecting? then c
      else if ok then Write(c.(ready := true, pending := Nothing), sent)
      else Reconnect(c)
    case WriteDone(ok) =>
      if !c.pending.Writing? then c
      else if ok then c.(pending := Reading(c.pending.ticket))
      else Reconnect(c)
    case ReadDone(reply, more, sent) =>
      if !c.pending.Reading? || c.queue == [] then c
      else if reply.Some? then Completed(c, reply.value, more, sent)
      else Reconnect(c)
    case Cleanup(interval, now) =>
      c.(queue := Sweep(c.queue, now, interval), expired := c.expired + SweptTickets(c.queue, now, interval),
         clock := now)
  }

  function Run(c: ClientState, es: seq<Event>): ClientState
    decreases |es|
  {
    if es == [] then c else Run(Step(c, es[0]), es[1..])
  }
}
