/** Which data the machine trades with: the committed triggers and prices, and the quantity that
    commissions wear down. */
module TradingParams {
  import opened Wrappers
  import opened Money
  import opened TradingModel
  import opened TradingHistory

  /** The staged data after a run: only trade-data messages touch them. */
  function StagedAfter(staged: Params, es: seq<Event>): Params
    decreases |es|
  {
    if es == [] then staged
    else StagedAfter(if es[0].Data? then Stage(staged, es[0].data) else staged, es[1..])
  }

  lemma {:induction false} StagedFollowsMessages(m: Machine, es: seq<Event>)
    ensures Run(m, es).next.staged == StagedAfter(m.staged, es)
    decreases |es|
  {
    if es != [] {
      StagedFollowsMessages(Step(m, es[0]).next, es[1..]);
    }
  }

  /** Every order in `out` is placed at the committed price of its side. */
  predicate PricedBy(out: seq<Output>, live: Levels) {
    forall i :: 0 <= i < |out| && out[i].Placed? ==> out[i].price == live.Price(out[i].side)
  }

  lemma {:induction false} LiveKeptWithoutStart(m: Machine, es: seq<Event>)
    requires NoStart(es)
    ensures Run(m, es).next.live == m.live && PricedBy(Run(m, es).out, m.live)
    decreases |es|
  {
    if es != [] {
      assert !(es[0].TradeRun? && es[0].go);
      LiveKeptWithoutStart(Step(m, es[0]).next, es[1..]);
    }
  }

  // ----- Quantity -----

  function ChargeSum(out: seq<Output>): real {
    if out == [] then 0.0
    else (if out[0].Filled? && out[0].charge.Some? then out[0].charge.value else 0.0) + ChargeSum(out[1..])
  }

  function ChargedFills(out: seq<Output>): nat {
    if out == [] then 0
    else (if out[0].Filled? && out[0].charge.Some? then 1 else 0) + ChargedFills(out[1..])
  }

  lemma {:induction false} ChargesAdd(o1: seq<Output>, o2: seq<Output>)
    ensures ChargeSum(o1 + o2) == ChargeSum(o1) + ChargeSum(o2)
    ensures ChargedFills(o1 + o2) == ChargedFills(o1) + ChargedFills(o2)
    decreases |o1|
  {
    if o1 == [] {
      assert o1 + o2 == o2;
    } else {
      assert (o1 + o2)[1..] == o1[1..] + o2;
      ChargesAdd(o1[1..], o2);
    }
  }

  function HalfUnits(n: nat): real {
    n as real * (0.5 / UNITS)
  }

  /** `x` is `y` up to half a unit for each of `n` roundings. */
  predicate Near(x: real, y: real, n: nat) {
    Abs(x - y) <= HalfUnits(n)
  }

  lemma NearItself(x: real)
    ensures Near(x, x - ChargeSum([]), ChargedFills([]))
  {
  }

  lemma NearTransitive(q0: real, c1: real, n1: nat, q1: real, c2: real, n2: nat, q2: real)
    requires Near(q1, q0 - c1, n1) && Near(q2, q1 - c2, n2)
    ensures Near(q2, q0 - (c1 + c2), n1 + n2)
  {
    assert HalfUnits(n1 + n2) == HalfUnits(n1) + HalfUnits(n2);
  }

  lemma StepDrifts(m: Machine, e: Event)
    requires !(e.TradeRun? && e.go)
    ensures var s := Step(m, e);
            Near(s.next.quantity, m.quantity - ChargeSum(s.out), ChargedFills(s.out))
  {
    var s := Step(m, e);
    if s.out != [] {
      assert s.out[1..] == [];
    }
  }

  /** Without a new start or change, the quantity differs from the plain difference by at most half
      a unit of the sixth decimal per charged fill. */
  lemma {:induction false} QuantityDrift(m: Machine, es: seq<Event>)
    requires NoStart(es)
    ensures var r := Run(m, es);
            Near(r.next.quantity, m.quantity - ChargeSum(r.out), ChargedFills(r.out))
    decreases |es|
  {
    hide Step, Near;
    if es == [] {
      NearItself(m.quantity);
    } else {
      assert !(es[0].TradeRun? && es[0].go);
      var s := Step(m, es[0]);
      StepDrifts(m, es[0]);
      QuantityDrift(s.next, es[1..]);
      var rest := Run(s.next, es[1..]);
      ChargesAdd(s.out, rest.out);
      NearTransitive(m.quantity, ChargeSum(s.out), ChargedFills(s.out), s.next.quantity,
                     ChargeSum(rest.out), ChargedFills(rest.out), rest.next.quantity);
    }
  }

  /** Every order is placed with the quantity that the fills before it have left. */
  lemma {:induction false} OrdersCarryQuantity(m: Machine, es: seq<Event>, e: Event)
    requires NoStart(es) && !(e.TradeRun? && e.go)
    ensures var before := Run(m, es);
            forall o <- Step(before.next, e).out :: o.Placed? ==>
              Near(o.quantity, m.quantity - ChargeSum(before.out), ChargedFills(before.out))
  {
    hide Near;
    QuantityDrift(m, es);
  }

  lemma StartCommits(m: Machine, side: Side)
    ensures var s := Step(m, TradeRun(true, side));
            s.next.live == m.staged.levels && s.next.quantity == m.staged.quantity && PricedBy(s.out, m.staged.levels)
  {
  }

  /** What is true right after the last start or change: the live data are the data staged at that
      moment, whatever was staged since; orders are priced by them; the quantity drifts from theirs. */
  lemma {:induction false} CommittedSinceLastStart(m: Machine, es: seq<Event>, side: Side, fs: seq<Event>)
    requires NoStart(fs)
    ensures var before := Run(m, es).next;
            var start := Step(before, TradeRun(true, side));
            var after := Run(start.next, fs);
            var committed := StagedAfter(m.staged, es);
            Run(m, es + [TradeRun(true, side)] + fs).next == after.next &&
            after.next.live == committed.levels && PricedBy(start.out + after.out, committed.levels) &&
            Near(after.next.quantity, committed.quantity - ChargeSum(after.out), ChargedFills(after.out))
  {
    hide Step, Run, StagedAfter, ChargeSum, ChargedFills, HalfUnits;
    var go := TradeRun(true, side);
    var before := Run(m, es).next;
    StagedFollowsMessages(m, es);
    StartCommits(before, side);
    RunConcat(m, es, [go] + fs);
    assert es + [go] + fs == es + ([go] + fs);
    RunCons(before, go, fs);
    LiveKeptWithoutStart(Step(before, go).next, fs);
    QuantityDrift(Step(before, go).next, fs);
  }

  predicate Fair(es: seq<Event>) {
    forall i :: 0 <= i < |es| && es[i].OrderReport? ==> es[i].report.commission >= 0.0 && es[i].report.price > 0.0
  }

  lemma GridStep(q: real, charge: real)
    requires OnGrid(q) && charge >= 0.0
    ensures OnGrid(Charged(q, charge)) && Charged(q, charge) <= q
  {
    Round6Nearest(q - charge, 0);
    Round6Monotone(q - charge, q);
    Round6OnGrid(q);
  }

  /** Once the quantity has at most six decimals it keeps to them and never increases. */
  lemma {:induction false} GridQuantityNeverGrows(m: Machine, es: seq<Event>)
    requires NoStart(es) && Fair(es) && OnGrid(m.quantity)
    ensures OnGrid(Run(m, es).next.quantity) && Run(m, es).next.quantity <= m.quantity
    decreases |es|
  {
    if es != [] {
      var e := es[0];
      assert !(e.TradeRun? && e.go);
      if e.OrderReport? && e.report.Charge().Some? {
        ChargeNonNegative(e.report);
        GridStep(m.quantity, e.report.Charge().value);
      }
      assert Fair(es[1..]) by {
        assert forall i :: 0 <= i < |es| - 1 ==> es[1..][i] == es[i + 1];
      }
      GridQuantityNeverGrows(Step(m, e).next, es[1..]);
    }
  }

  lemma ChargeNonNegative(r: Report)
    requires r.commission >= 0.0 && r.price > 0.0
    ensures r.Charge().Some? ==> r.Charge().value >= 0.0
  {
  }

  // ----- The fields of a message -----

  function Taken(given: Option<real>, reached: bool, staged: real): real {
    if reached && given.Some? then given.value else staged
  }

  /** A message stages its fields in this order: the purchase's trigger and price, the sale's trigger and
      price, the quantity. Each is taken exactly if it and all fields before it are there. */
  lemma StagedFields(m: Machine, d: TradeData)
    ensures var s, was := Step(m, Data(d)).next.staged, m.staged;
            var first := d.isSet;
            var second := first && d.buyTrigger.Some?;
            var third := second && d.buyPrice.Some?;
            var fourth := third && d.sellTrigger.Some?;
            var fifth := fourth && d.sellPrice.Some?;
            && s.levels.buyTrigger == Taken(d.buyTrigger, first, was.levels.buyTrigger)
            && s.levels.buyPrice == Taken(d.buyPrice, second, was.levels.buyPrice)
            && s.levels.sellTrigger == Taken(d.sellTrigger, third, was.levels.sellTrigger)
            && s.levels.sellPrice == Taken(d.sellPrice, fourth, was.levels.sellPrice)
            && s.quantity == Taken(d.quantity, fifth, was.quantity)
            && Step(m, Data(d)) == TradingModel.Result(m.(staged := s), [])
  {
  }

  predicate Complete(d: TradeData) {
    d.isSet && d.buyTrigger.Some? && d.buyPrice.Some? && d.sellTrigger.Some? && d.sellPrice.Some? && d.quantity.Some?
  }

  /** Every order in `out` has the message's own price for its side. */
  predicate PricedByMessage(out: seq<Output>, d: TradeData) {
    forall o <- out :: o.Placed? ==> Some(o.price) == if o.side == Buy then d.buyPrice else d.sellPrice
  }

  /** From a complete message, through a start or change that takes it, until the next one: orders have
      the message's prices for their sides. */
  lemma TradesByMessage(m: Machine, d: TradeData, side: Side, es: seq<Event>)
    requires Complete(d) && NoStart(es)
    ensures var m1 := Step(m, Data(d)).next;
            var start := Step(m1, TradeRun(true, side));
            var r := Run(start.next, es);
            && PricedByMessage(start.out + r.out, d)
            && r.next.live == Levels(d.buyTrigger.value, d.buyPrice.value, d.sellTrigger.value, d.sellPrice.value)
            && start.next.quantity == d.quantity.value
  {
    var m1 := Step(m, Data(d)).next;
    StagedFields(m, d);
    StartCommits(m1, side);
    hide Step, Run;
    LiveKeptWithoutStart(Step(m1, TradeRun(true, side)).next, es);
  }

  /** An order is placed only when the last two prices enclose the trigger of its own side. */
  lemma PlacedOnOwnTrigger(m: Machine, e: Event, o: Output)
    requires o in Step(m, e).out && o.Placed?
    ensures var next := Step(m, e).next;
            var trigger := if o.side == Buy then next.live.buyTrigger else next.live.sellTrigger;
            && next.latest != 0.0 && next.previous != 0.0
            && (next.latest <= trigger <= next.previous || next.previous <= trigger <= next.latest)
            && o.price == (if o.side == Buy then next.live.buyPrice else next.live.sellPrice)
            && o.quantity == next.quantity && next.phase == Confirming(o.id)
  {
    hide OrderId;
  }
}
