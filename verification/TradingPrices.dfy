/** When a watched trigger fires, over any sequence of prices. */
module TradingPrices {
  import opened TradingModel

  function Prices(ps: seq<real>): seq<Event> {
    if ps == [] then [] else [Price(ps[0])] + Prices(ps[1..])
  }

  /** Two neighbouring prices of `previous, ps[0], ps[1], ...` enclose `level`. */
  predicate SomePairCrosses(previous: real, ps: seq<real>, level: real)
    decreases |ps|
  {
    ps != [] && (Crossed(ps[0], previous, level) || SomePairCrosses(ps[0], ps[1..], level))
  }

  predicate AllAbove(ps: seq<real>, level: real) {
    forall i :: 0 <= i < |ps| ==> ps[i] > level
  }

  predicate AllBelow(ps: seq<real>, level: real) {
    forall i :: 0 <= i < |ps| ==> ps[i] < level
  }

  lemma {:induction false} PricesOnlyPlaceWhileWatching(m: Machine, ps: seq<real>)
    requires !m.phase.Watching?
    ensures Run(m, Prices(ps)).out == [] && Run(m, Prices(ps)).next.phase == m.phase
    decreases |ps|
  {
    if ps != [] {
      assert Prices(ps)[1..] == Prices(ps[1..]);
      PricesOnlyPlaceWhileWatching(Step(m, Price(ps[0])).next, ps[1..]);
    }
  }

  /** Watching machine: prices alone place an order exactly when two neighbours enclose the trigger,
      and then they place one. */
  lemma {:induction false} PlacesExactlyOnCrossing(m: Machine, ps: seq<real>)
    requires m.phase.Watching?
    ensures var r := Run(m, Prices(ps));
            if SomePairCrosses(m.latest, ps, m.live.Trigger(m.step))
            then |r.out| == 1 && r.out[0].Placed? && r.out[0].side == m.step && r.next.phase.Confirming?
            else r.out == [] && r.next.phase.Watching?
    decreases |ps|
  {
    if ps != [] {
      assert Prices(ps)[1..] == Prices(ps[1..]);
      var s := Step(m, Price(ps[0]));
      if Crossed(ps[0], m.latest, m.live.Trigger(m.step)) {
        PricesOnlyPlaceWhileWatching(s.next, ps[1..]);
      } else {
        PlacesExactlyOnCrossing(s.next, ps[1..]);
      }
    }
  }

  /** A discrete intermediate value theorem: non-zero prices cross the level between two neighbours
      exactly when they do not all lie strictly on one side of it. */
  lemma {:induction false} IntermediateValue(previous: real, ps: seq<real>, level: real)
    requires ps != [] && previous != 0.0 && forall i :: 0 <= i < |ps| ==> ps[i] != 0.0
    ensures SomePairCrosses(previous, ps, level) <==>
            !AllAbove([previous] + ps, level) && !AllBelow([previous] + ps, level)
    decreases |ps|
  {
    var all := [previous] + ps;
    assert all[0] == previous && all[1] == ps[0] && all[1..] == ps;
    if !Crossed(ps[0], previous, level) {
      if |ps| > 1 {
        IntermediateValue(ps[0], ps[1..], level);
        assert [ps[0]] + ps[1..] == ps;
      }
      assert AllAbove(all, level) <==> previous > level && AllAbove(ps, level) by {
        assert forall i :: 0 <= i < |ps| ==> ps[i] == all[i + 1];
      }
      assert AllBelow(all, level) <==> previous < level && AllBelow(ps, level) by {
        assert forall i :: 0 <= i < |ps| ==> ps[i] == all[i + 1];
      }
    }
  }

  /** Crossing detection: after non-zero prices an order has been placed exactly when the stored
      price and the new ones do not all lie strictly on one side of the active trigger. */
  lemma {:induction false} CrossingDetectedExactly(m: Machine, ps: seq<real>)
    requires m.phase.Watching? && m.latest != 0.0
    requires ps != [] && forall i :: 0 <= i < |ps| ==> ps[i] != 0.0
    ensures var level := m.live.Trigger(m.step);
            Run(m, Prices(ps)).next.phase.Confirming? <==>
            !AllAbove([m.latest] + ps, level) && !AllBelow([m.latest] + ps, level)
  {
    PlacesExactlyOnCrossing(m, ps);
    IntermediateValue(m.latest, ps, m.live.Trigger(m.step));
  }

  // ----- Prices of zero -----

  /** `all[i..j]` is a stretch of two or more prices without a zero, not all strictly on one side of
      the level. */
  predicate Straddles(all: seq<real>, i: nat, j: nat, level: real) {
    && i + 2 <= j <= |all|
    && (forall k :: i <= k < j ==> all[k] != 0.0)
    && !AllAbove(all[i..j], level) && !AllBelow(all[i..j], level)
  }

  lemma {:induction false} PairAt(previous: real, ps: seq<real>, k: nat, level: real)
    requires k < |ps| && Crossed(ps[k], ([previous] + ps)[k], level)
    ensures SomePairCrosses(previous, ps, level)
    decreases |ps|
  {
    if k > 0 {
      assert ([ps[0]] + ps[1..])[k - 1] == ps[k - 1];
      PairAt(ps[0], ps[1..], k - 1, level);
    }
  }

  lemma {:induction false} SomePair(previous: real, ps: seq<real>, level: real) returns (k: nat)
    requires SomePairCrosses(previous, ps, level)
    ensures k < |ps| && Crossed(ps[k], ([previous] + ps)[k], level)
    decreases |ps|
  {
    if Crossed(ps[0], previous, level) {
      k := 0;
    } else {
      var rest := SomePair(ps[0], ps[1..], level);
      k := rest + 1;
      assert ([ps[0]] + ps[1..])[rest] == ([previous] + ps)[k];
    }
  }

  lemma PairStraddles(all: seq<real>, k: nat, level: real)
    requires k + 1 < |all| && Crossed(all[k + 1], all[k], level)
    ensures Straddles(all, k, k + 2, level)
  {
    var pair := all[k..k + 2];
    assert pair[0] == all[k] && pair[1] == all[k + 1];
  }

  lemma StretchCrosses(previous: real, ps: seq<real>, i: nat, j: nat, level: real)
    requires Straddles([previous] + ps, i, j, level)
    ensures SomePairCrosses(previous, ps, level)
  {
    var all := [previous] + ps;
    var stretch := all[i + 1..j];
    assert [all[i]] + stretch == all[i..j];
    IntermediateValue(all[i], stretch, level);
    var k := SomePair(all[i], stretch, level);
    assert stretch[k] == ps[i + k] && ([all[i]] + stretch)[k] == all[i + k];
    PairAt(previous, ps, i + k, level);
  }

  /** Whatever the prices, two neighbours enclose the level exactly when some stretch of two or more
      prices without a zero is not strictly on one side of it. */
  lemma CrossesOnStretchExactly(previous: real, ps: seq<real>, level: real)
    ensures SomePairCrosses(previous, ps, level) <==>
            exists i: nat, j: nat :: Straddles([previous] + ps, i, j, level)
  {
    if SomePairCrosses(previous, ps, level) {
      var k := SomePair(previous, ps, level);
      PairStraddles([previous] + ps, k, level);
    }
    if i: nat, j: nat :| Straddles([previous] + ps, i, j, level) {
      StretchCrosses(previous, ps, i, j, level);
    }
  }

  /** Crossing detection for all prices: a zero cuts the prices in two, and a crossing is detected
      exactly when one of the parts shows it. */
  lemma DetectedOnStretchExactly(m: Machine, ps: seq<real>)
    requires m.phase.Watching?
    ensures Run(m, Prices(ps)).next.phase.Confirming? <==>
            exists i: nat, j: nat :: Straddles([m.latest] + ps, i, j, m.live.Trigger(m.step))
  {
    PlacesExactlyOnCrossing(m, ps);
    CrossesOnStretchExactly(m.latest, ps, m.live.Trigger(m.step));
  }

  /** So a price of zero hides any single crossing: the prices on both sides of it are never compared. */
  lemma ZeroPriceHidesCrossing(m: Machine, price: real)
    requires m.phase.Watching? && Crossed(price, m.latest, m.live.Trigger(m.step))
    ensures Run(m, Prices([price])).next.phase.Confirming?
    ensures Run(m, Prices([0.0, price])).out == []
  {
    PlacesExactlyOnCrossing(m, [price]);
    PlacesExactlyOnCrossing(m, [0.0, price]);
    assert [0.0, price][1..] == [price];
    assert !SomePairCrosses(0.0, [price], m.live.Trigger(m.step));
  }

  // ----- Prices among other events -----

  /** Prices, trade data and order reports: everything but commands and timeouts. */
  predicate Passive(es: seq<Event>) {
    forall i :: 0 <= i < |es| ==> es[i].Price? || es[i].Data? || es[i].OrderReport?
  }

  function PricesOf(es: seq<Event>): seq<real> {
    if es == [] then [] else (if es[0].Price? then [es[0].price] else []) + PricesOf(es[1..])
  }

  /** A report comes before the first price. */
  predicate ReportFirst(es: seq<Event>) {
    es != [] && (es[0].OrderReport? || (es[0].Data? && ReportFirst(es[1..])))
  }

  lemma PassiveTail(es: seq<Event>)
    requires es != [] && Passive(es)
    ensures Passive(es[1..]) && (es[0].Price? || es[0].Data? || es[0].OrderReport?)
  {
  }

  lemma PassiveStep(m: Machine, e: Event)
    requires m.phase.Watching? && (e.Price? || e.Data? || e.OrderReport?)
    ensures var s, level := Step(m, e), m.live.Trigger(m.step);
            var latest, previous := if e.Price? then e.price else m.latest, if e.Price? then m.latest else m.previous;
            if !e.Data? && Crossed(latest, previous, level)
            then |s.out| == 1 && s.out[0].Placed? && s.out[0].side == m.step
            else s.out == [] && s.next.phase.Watching? && s.next.live == m.live && s.next.step == m.step &&
                 s.next.latest == latest && s.next.previous == previous
  {
    hide OrderId, Crossed;
  }

  /** Whatever trade data and reports come between the prices: a watching machine places an order exactly
      when two neighbouring prices enclose the trigger, or the stored pair does and a report comes before
      the next price, because a report tests that pair again. */
  lemma {:induction false} DetectedAmongEventsExactly(m: Machine, es: seq<Event>)
    requires m.phase.Watching? && Passive(es)
    ensures var out, level := Run(m, es).out, m.live.Trigger(m.step);
            && (out != [] <==> SomePairCrosses(m.latest, PricesOf(es), level) ||
                               (Crossed(m.latest, m.previous, level) && ReportFirst(es)))
            && (out != [] ==> out[0].Placed? && out[0].side == m.step)
    decreases |es|
  {
    hide Step, Crossed, Passive;
    if es != [] {
      var e, s := es[0], Step(m, es[0]);
      var rest := PricesOf(es[1..]);
      PassiveTail(es);
      PassiveStep(m, e);
      assert e.Price? ==> PricesOf(es)[0] == e.price && PricesOf(es)[1..] == rest;
      assert !e.Price? ==> PricesOf(es) == rest;
      if s.out == [] {
        DetectedAmongEventsExactly(s.next, es[1..]);
      }
    }
  }
}
