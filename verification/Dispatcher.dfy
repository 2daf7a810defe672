/** The application's event queue: every added event posts a run of the dispatcher, whose loop handles
    the front event and then removes it, while handlers and other threads go on adding. */
module Dispatcher {

  type Event = string

  /** `Handling` lasts from the test of the loop to the removal of the event. */
  datatype Phase = Resting | Testing | Handling(event: Event)

  /** `owing` counts the callers that have pushed their event but not yet posted a dispatcher run. */
  datatype Queue = Queue(events: seq<Event>, owing: nat, posted: nat, phase: Phase,
                         handled: seq<Event>, added: seq<Event>)

  datatype Action = Push(event: Event) | Post | Start | Test | Remove

  const EMPTY := Queue([], 0, 0, Resting, [], [])

  /** One interleaving step. The strand runs one dispatcher at a time. */
  function Step(q: Queue, a: Action): Queue {
    match a
    case Push(e) => q.(events := q.events + [e], owing := q.owing + 1, added := q.added + [e])
    case Post => if q.owing > 0 then q.(owing := q.owing - 1, posted := q.posted + 1) else q
    case Start => if q.phase.Resting? && q.posted > 0 then q.(posted := q.posted - 1, phase := Testing) else q
    case Test =>
      if !q.phase.Testing? then q
      else if q.events == [] then q.(phase := Resting)
      else q.(phase := Handling(q.events[0]))
    case Remove =>
      if !q.phase.Handling? || q.events == [] then q
      else q.(events := q.events[1..], handled := q.handled + [q.phase.event], phase := Testing)
  }

  function Run(q: Queue, acts: seq<Action>): Queue
    decreases |acts|
  {
    if acts == [] then q else Run(Step(q, acts[0]), acts[1..])
  }

  /** Handled and queued events are all added events, in order; the event being handled is the front;
      and as long as events wait, a dispatcher runs, is posted, or is about to be. */
  predicate Valid(q: Queue) {
    && q.handled + q.events == q.added
    && (q.phase.Handling? ==> q.events != [] && q.events[0] == q.phase.event)
    && (q.events != [] ==> !q.phase.Resting? || q.posted > 0 || q.owing > 0)
  }

  lemma StepKeeps(q: Queue, a: Action)
    requires Valid(q)
    ensures Valid(Step(q, a))
  {
    match a
    case Push(e) => assert q.handled + (q.events + [e]) == (q.handled + q.events) + [e];
    case Remove =>
      if q.phase.Handling? {
        assert q.handled + q.events == (q.handled + [q.events[0]]) + q.events[1..];
      }
    case _ =>
  }

  /** Under every interleaving of adds, dispatcher starts, loop tests and removals. */
  lemma {:induction false} RunKeeps(q: Queue, acts: seq<Action>)
    requires Valid(q)
    ensures Valid(Run(q, acts))
    decreases |acts|
  {
    if acts != [] {
      StepKeeps(q, acts[0]);
      RunKeeps(Step(q, acts[0]), acts[1..]);
    }
  }

  /** The events that a run pushes. */
  function PushedIn(acts: seq<Action>): seq<Event> {
    if acts == [] then [] else (if acts[0].Push? then [acts[0].event] else []) + PushedIn(acts[1..])
  }

  /** What counts as added are the run's own pushes, in order. */
  lemma {:induction false} AddedAreThePushes(q: Queue, acts: seq<Action>)
    ensures Run(q, acts).added == q.added + PushedIn(acts)
    decreases |acts|
  {
    if acts != [] {
      var r := Step(q, acts[0]);
      AddedAreThePushes(r, acts[1..]);
      assert r.added == q.added + if acts[0].Push? then [acts[0].event] else [];
      assert q.added + PushedIn(acts) == r.added + PushedIn(acts[1..]);
    } else {
      assert q.added + PushedIn(acts) == q.added;
    }
  }

  /** How many dispatcher runs are started. */
  function StartsIn(q: Queue, acts: seq<Action>): nat
    decreases |acts|
  {
    if acts == [] then 0
    else (if acts[0].Start? && Step(q, acts[0]).phase != q.phase then 1 else 0) + StartsIn(Step(q, acts[0]), acts[1..])
  }

  /** Each push accounts for exactly one dispatcher run: due, posted or started. */
  lemma {:induction false} OneRunForEachPush(q: Queue, acts: seq<Action>)
    ensures var r := Run(q, acts);
            r.owing + r.posted + StartsIn(q, acts) == q.owing + q.posted + |PushedIn(acts)|
    decreases |acts|
  {
    if acts != [] {
      OneRunForEachPush(Step(q, acts[0]), acts[1..]);
    }
  }

  /** What a dispatcher does that is left alone. */
  function Alone(n: nat): seq<Action> {
    if n == 0 then [Test] else [Test, Remove] + Alone(n - 1)
  }

  lemma {:induction false} AloneDrains(q: Queue)
    requires Valid(q) && q.phase.Testing?
    ensures var r := Run(q, Alone(|q.events|));
            r.events == [] && r.handled == q.added && r.phase.Resting?
    decreases |q.events|
  {
    if q.events == [] {
      assert Alone(0)[1..] == [];
    } else {
      var n := |q.events|;
      var q1 := Step(q, Test);
      var q2 := Step(q1, Remove);
      StepKeeps(q, Test);
      StepKeeps(q1, Remove);
      AloneDrains(q2);
      assert Alone(n)[1..] == [Remove] + Alone(n - 1) && ([Remove] + Alone(n - 1))[1..] == Alone(n - 1);
      assert Run(q, Alone(n)) == Run(q1, [Remove] + Alone(n - 1)) == Run(q2, Alone(n - 1));
    }
  }

  /** No wake-up is lost: whenever events wait and no dispatcher runs, one can be started, at the latest
      when a caller that has pushed its event posts, and it handles every event that was ever added. */
  lemma WaitingEventsGetHandled(acts: seq<Action>)
    ensures var q := Run(EMPTY, acts);
            q.events != [] && q.phase.Resting? ==>
            var due := if q.posted > 0 then q else Step(q, Post);
            var r := Run(Step(due, Start), Alone(|q.events|));
            r.events == [] && r.handled == q.added
  {
    RunKeeps(EMPTY, acts);
    var q := Run(EMPTY, acts);
    if q.events != [] && q.phase.Resting? {
      var due := if q.posted > 0 then q else Step(q, Post);
      StepKeeps(q, Post);
      StepKeeps(due, Start);
      AloneDrains(Step(due, Start));
    }
  }

  class Application {
    var eventList: seq<Event>
    ghost var owing: nat
    ghost var posted: nat
    ghost var handled: seq<Event>
    ghost var added: seq<Event>
    ghost var phase: Phase

    ghost function Model(): Queue
      reads this
    {
      Queue(eventList, owing, posted, phase, handled, added)
    }

    constructor ()
      ensures Model() == EMPTY
    {
      eventList, owing, posted := [], 0, 0;
      handled, added, phase := [], [], Resting;
    }

    method AddEvent(event: Event)
      requires Valid(Model())
      modifies this
      ensures Valid(Model()) && Model() == Step(Step(old(Model()), Push(event)), Post)
    {
      StepKeeps(Model(), Push(event));
      eventList := eventList + [event];
      added, owing := added + [event], owing + 1;
      StepKeeps(Model(), Post);
      owing, posted := owing - 1, posted + 1;
    }

    /** One posted run of the dispatcher. While it handles its k-th event, the events of `arriving[k]`
        are added, by the handler itself or by other threads. */
    method Dispatch(arriving: seq<seq<Event>>)
      requires Valid(Model()) && phase.Resting? && posted > 0
      modifies this
      ensures Valid(Model()) && phase.Resting? && eventList == [] && handled == added
      ensures old(added) <= added && posted == old(posted) - 1 + |added| - |old(added)|
    {
      ghost var before, runs := added, posted - 1;
      posted := posted - 1;
      phase := Testing;
      var k := 0;
      while |eventList| > 0
        invariant Valid(Model()) && phase.Testing? && before <= added && posted == runs + |added| - |before|
        decreases if k < |arriving| then |arriving| - k else 0, |eventList|
      {
        label Iteration:
        phase := Handling(eventList[0]);
        var i := 0;
        while k < |arriving| && i < |arriving[k]|
          invariant Valid(Model()) && phase.Handling? && before <= added && eventList != []
          invariant posted == runs + |added| - |before|
          invariant k >= |arriving| ==> |eventList| == |old@Iteration(eventList)|
          decreases if k < |arriving| then |arriving[k]| - i else 0
        {
          AddEvent(arriving[k][i]);
          i := i + 1;
        }
        StepKeeps(Model(), Remove);
        handled := handled + [eventList[0]];
        eventList := eventList[1..];
        phase := Testing;
        k := k + 1;
      }
      phase := Resting;
    }
  }
}
