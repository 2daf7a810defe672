/** Whole runs of the trading machine, seen from the exchange: every order that was placed is
    accounted for, and what a stop command guarantees. */
module TradingHistory {
  import opened Wrappers
  import opened TradingModel

  /** The order protocol: an order may be placed only when none is tracked, and a delete request or
      an ending always names the tracked order. */
  ghost predicate Follows(before: Option<string>, out: seq<Output>, after: Option<string>)
    decreases |out|
  {
    if out == [] then before == after
    else match out[0]
      case Placed(id, _, _, _) => before.None? && Follows(Some(id), out[1..], after)
      case DeleteSent(id) => before == Some(id) && Follows(before, out[1..], after)
      case _ => before == Some(out[0].id) && Follows(None, out[1..], after)
  }

  function Ids(tracked: Option<string>): seq<string> {
    if tracked.Some? then [tracked.value] else []
  }

  function PlacedIds(out: seq<Output>): seq<string> {
    if out == [] then []
    else (if out[0].Placed? then [out[0].id] else []) + PlacedIds(out[1..])
  }

  /** The orders that ended: filled, cancelled or given up after the timeout. */
  function EndedIds(out: seq<Output>): seq<string> {
    if out == [] then []
    else (if out[0].Placed? || out[0].DeleteSent? then [] else [out[0].id]) + EndedIds(out[1..])
  }

  lemma {:induction false} FollowsConcat(a: Option<string>, o1: seq<Output>, b: Option<string>,
                                         o2: seq<Output>, c: Option<string>)
    requires Follows(a, o1, b) && Follows(b, o2, c)
    ensures Follows(a, o1 + o2, c)
    decreases |o1|
  {
    if o1 == [] {
      assert o1 + o2 == o2;
    } else {
      assert (o1 + o2)[1..] == o1[1..] + o2;
      match o1[0]
      case Placed(id, _, _, _) => FollowsConcat(Some(id), o1[1..], b, o2, c);
      case DeleteSent(id) => FollowsConcat(a, o1[1..], b, o2, c);
      case _ => FollowsConcat(None, o1[1..], b, o2, c);
    }
  }

  lemma StepFollows(m: Machine, e: Event)
    ensures Follows(m.phase.Tracked(), Step(m, e).out, Step(m, e).next.phase.Tracked())
  {
    assert |Step(m, e).out| <= 1;
  }

  /** Over every run the exchange sees a legal conversation; a cancel counts for the tracked order. */
  lemma {:induction false} RunFollows(m: Machine, es: seq<Event>)
    ensures Follows(m.phase.Tracked(), Run(m, es).out, Run(m, es).next.phase.Tracked())
    decreases |es|
  {
    if es != [] {
      var s := Step(m, es[0]);
      StepFollows(m, es[0]);
      RunFollows(s.next, es[1..]);
      FollowsConcat(m.phase.Tracked(), s.out, s.next.phase.Tracked(),
                    Run(s.next, es[1..]).out, Run(m, es).next.phase.Tracked());
    }
  }

  lemma {:induction false} LegalConserves(before: Option<string>, out: seq<Output>, after: Option<string>)
    requires Follows(before, out, after)
    ensures Ids(before) + PlacedIds(out) == EndedIds(out) + Ids(after)
    decreases |out|
  {
    if out != [] {
      match out[0]
      case Placed(id, _, _, _) => LegalConserves(Some(id), out[1..], after);
      case DeleteSent(id) =>
        LegalConserves(before, out[1..], after);
        assert PlacedIds(out) == PlacedIds(out[1..]) && EndedIds(out) == EndedIds(out[1..]);
      case _ => LegalConserves(None, out[1..], after);
    }
  }

  /** Conservation: from a machine without an order, the orders placed are, in order, the orders that
      ended followed by the one still tracked. */
  lemma OrderConservation(m: Machine, es: seq<Event>)
    requires !m.phase.HasOrder()
    ensures PlacedIds(Run(m, es).out) == EndedIds(Run(m, es).out) + Ids(Run(m, es).next.phase.Tracked())
  {
    RunFollows(m, es);
    LegalConserves(m.phase.Tracked(), Run(m, es).out, Run(m, es).next.phase.Tracked());
  }

  // ----- Cancels -----

  /** While a cancel is awaited, every CANCELED report is about the tracked order. */
  predicate OwnCancels(m: Machine, es: seq<Event>)
    decreases |es|
  {
    es != [] ==>
      && (m.phase.Cancelling? && es[0].OrderReport? && es[0].report.status == Some(CANCELED) ==>
            es[0].report.clientId == Some(m.phase.id))
      && OwnCancels(Step(m, es[0]).next, es[1..])
  }

  predicate CancelsNameTheirs(out: seq<Output>) {
    forall i :: 0 <= i < |out| && out[i].Cancelled? ==> out[i].reported == Some(out[i].id)
  }

  lemma StepCancels(m: Machine, e: Event)
    ensures CancelsNameTheirs(Step(m, e).out) <==>
            (m.phase.Cancelling? && e.OrderReport? && e.report.status == Some(CANCELED) ==>
               e.report.clientId == Some(m.phase.id))
  {
    hide OrderId, Crossed;
    var out := Step(m, e).out;
    if out != [] {
      assert |out| == 1 && (CancelsNameTheirs(out) <==> (out[0].Cancelled? ==> out[0].reported == Some(out[0].id)));
    }
  }

  lemma CancelsConcat(o1: seq<Output>, o2: seq<Output>)
    ensures CancelsNameTheirs(o1 + o2) <==> CancelsNameTheirs(o1) && CancelsNameTheirs(o2)
  {
    var out := o1 + o2;
    assert forall i :: 0 <= i < |o1| ==> out[i] == o1[i];
    assert forall i :: 0 <= i < |o2| ==> out[|o1| + i] == o2[i];
  }

  /** The code does not look at the id of a CANCELED report, so every order that ends as cancelled was
      itself reported so exactly when no such report of another order arrives while a cancel is awaited. */
  lemma {:induction false} CancelsNameTheirsExactly(m: Machine, es: seq<Event>)
    ensures CancelsNameTheirs(Run(m, es).out) <==> OwnCancels(m, es)
    decreases |es|
  {
    hide Step, CancelsNameTheirs;
    if es == [] {
      assert CancelsNameTheirs([]) by { NothingCancelled(); }
    } else {
      var s := Step(m, es[0]);
      StepCancels(m, es[0]);
      CancelsNameTheirsExactly(s.next, es[1..]);
      CancelsConcat(s.out, Run(s.next, es[1..]).out);
    }
  }

  lemma NothingCancelled()
    ensures CancelsNameTheirs([])
  {
  }

  /** The failing case: a report about any other order ends the tracked one. */
  lemma ForeignCancelEnds(m: Machine, r: Report)
    requires m.phase.Cancelling? && r.status == Some(CANCELED) && r.clientId != Some(m.phase.id)
    ensures var s := Step(m, OrderReport(r));
            s.out == [Cancelled(m.phase.id, r.clientId)] && !s.next.phase.HasOrder()
  {
  }

  // ----- Stop -----

  predicate NoStart(es: seq<Event>) {
    forall i :: 0 <= i < |es| ==> !(es[i].TradeRun? && es[i].go)
  }

  predicate NothingPlaced(out: seq<Output>) {
    forall i :: 0 <= i < |out| ==> !out[i].Placed?
  }

  /** No order can come out of this machine before the next start. */
  predicate Quiet(m: Machine) {
    m.phase.Idle? || (m.phase.Cancelling? && !m.changeMode)
  }

  lemma {:induction false} QuietStaysQuiet(m: Machine, es: seq<Event>)
    requires Quiet(m) && NoStart(es)
    ensures NothingPlaced(Run(m, es).out) && Quiet(Run(m, es).next)
    decreases |es|
  {
    if es != [] {
      assert !(es[0].TradeRun? && es[0].go);
      QuietStaysQuiet(Step(m, es[0]).next, es[1..]);
    }
  }

  function Resumption(level: real): seq<Event> {
    var cancel := OrderReport(Report(Some(CANCELED), None, BNB, 0.0, 1.0));
    if level > 0.0 then [cancel, Price(level + 1.0), Price(level / 2.0)]
    else [cancel, Price(1.0), Price(level - 1.0)]
  }

  /** A cancel that was meant for a change of data puts the machine back on watch, and two prices
      around the trigger, positive ones if the trigger is, make it trade again. */
  lemma ChangeModeResumes(m: Machine)
    requires m.phase.Cancelling? && m.changeMode
    ensures var level := m.live.Trigger(m.step);
            NoStart(Resumption(level)) && !NothingPlaced(Run(m, Resumption(level)).out)
  {
    var level := m.live.Trigger(m.step);
    var es := Resumption(level);
    var m1 := Step(m, es[0]).next;
    var m2 := Step(m1, es[1]);
    assert es[1..] == [es[1], es[2]] && es[1..][1..] == [es[2]] && [es[2]][1..] == [];
    if m2.out == [] {
      assert Step(m2.next, es[2]).out[0].Placed?;
      assert Run(m1, es[1..]).out == Run(m2.next, [es[2]]).out == Step(m2.next, es[2]).out + [];
    } else {
      assert m2.out[0].Placed?;
      assert Run(m1, es[1..]).out[0].Placed?;
    }
    assert Run(m, es).out == Step(m, es[0]).out + Run(m1, es[1..]).out;
    assert |Step(m, es[0]).out| == 1;
    assert Run(m, es).out[1].Placed?;
  }

  /** A stop is honoured on every continuation without a new start exactly when no data change is
      still waiting for the cancel of a tracked order. */
  lemma StopHonouredExactly(m: Machine, side: Side)
    ensures var s := Step(m, TradeRun(false, side));
            NothingPlaced(s.out) &&
            ((forall es :: NoStart(es) ==> NothingPlaced(Run(s.next, es).out))
             <==> !(m.changeMode && m.phase.HasOrder()))
  {
    var s := Step(m, TradeRun(false, side));
    if m.changeMode && m.phase.HasOrder() {
      ChangeModeResumes(s.next);
    } else {
      forall es | NoStart(es) ensures NothingPlaced(Run(s.next, es).out) {
        QuietStaysQuiet(s.next, es);
      }
    }
  }

  /** The flag that defeats a stop is reachable: a change whose cancel times out leaves it set, and
      the next start does not clear it. */
  lemma TimeoutLeavesChangeMode(m: Machine, side: Side)
    requires m.phase.Confirming?
    ensures var es := [TradeRun(true, side), Timeout, TradeRun(true, side)];
            Run(m, es).next.changeMode && (Run(m, es).next.phase.Watching? || Run(m, es).next.phase.Confirming?)
  {
    var es := [TradeRun(true, side), Timeout, TradeRun(true, side)];
    var m1 := Step(m, es[0]).next;
    var m2 := Step(m1, es[1]).next;
    assert es[1..] == [es[1], es[2]] && es[1..][1..] == [es[2]] && [es[2]][1..] == [];
    assert Run(m2, [es[2]]).next == Step(m2, es[2]).next;
    assert Run(m1, es[1..]).next == Run(m2, [es[2]]).next;
  }
}
