/** What each report, command and timeout does to the trading machine, and what must have arrived before
    an order counts as accepted, filled or asked to be deleted. */
module TradingReports {
  import opened Wrappers
  import opened Money
  import opened TradingModel
  import opened TradingHistory
  import opened TradingParams

  // ----- Reports -----

  /** Only a NEW report of the order itself confirms it. */
  lemma ConfirmedExactly(m: Machine, r: Report)
    requires m.phase.Confirming?
    ensures var s, id := Step(m, OrderReport(r)), m.phase.id;
            && s.out == []
            && s.next == (if s.next.phase.Filling? then m.(phase := Filling(id)) else m)
            && (s.next.phase.Filling? <==> r.clientId == Some(id) && r.status == Some(NEW))
  {
  }

  /** What a report says the commission is worth in the symbol's own coin. */
  predicate Worth(charge: Option<real>, r: Report) {
    match r.asset
    case USDT => charge.Some? && charge.value * r.price == r.commission
    case BNB => charge.None?
    case OtherAsset => charge == Some(r.commission)
  }

  lemma ChargeWorth(r: Report)
    ensures Worth(r.Charge(), r)
  {
  }

  /** Only a FILLED report of the order itself fills it. */
  lemma FilledExactly(m: Machine, r: Report)
    requires m.phase.Filling?
    ensures var s, id := Step(m, OrderReport(r)), m.phase.id;
            && (s.out != [] <==> r.clientId == Some(id) && r.status == Some(FILLED))
            && if s.out == [] then s.next == m
               else
                 && s.out == [Filled(id, m.step, s.out[0].charge)] && Worth(s.out[0].charge, r)
                 && s.next == m.(phase := Watching, step := s.next.step, counter := s.next.counter,
                               quantity := s.next.quantity)
                 && s.next.step != m.step
                 && s.next.counter == m.counter + (if m.step == Sell then 1 else 0)
  {
    ChargeWorth(r);
    hide Charged;
  }

  /** Any CANCELED report ends an order whose cancel is awaited; then a data change goes on watching, and
      a stop rests. */
  lemma CancelledExactly(m: Machine, r: Report)
    requires m.phase.Cancelling?
    ensures var s := Step(m, OrderReport(r));
            && (s.out != [] <==> r.status == Some(CANCELED))
            && if s.out == [] then s.next == m
               else
                 && s.out == [Cancelled(m.phase.id, r.clientId)]
                 && s.next == if m.changeMode then m.(phase := Watching, changeMode := false)
                              else m.(phase := Idle, step := Buy)
  {
  }

  lemma IdleIgnoresReports(m: Machine, r: Report)
    requires m.phase.Idle?
    ensures Step(m, OrderReport(r)) == Result(m, [])
  {
  }

  /** The timer gives up the order exactly while it runs: from the placement to the confirmation, also if
      a cancel is asked for in between. */
  lemma TimeoutExactly(m: Machine)
    ensures Step(m, Timeout) ==
            match m.phase {
              case Confirming(id) => Result(m.(phase := Idle, step := Buy), [TimedOut(id)])
              case Cancelling(id, true) => Result(m.(phase := Idle, step := Buy), [TimedOut(id)])
              case _ => Result(m, [])
            }
  {
  }

  // ----- What came before a fill -----

  predicate Reported(es: seq<Event>, k: nat, status: Status, id: string) {
    k < |es| && es[k].OrderReport? && es[k].report.status == Some(status) && es[k].report.clientId == Some(id)
  }

  function At(m: Machine, es: seq<Event>, k: nat): Machine
    requires k <= |es|
  {
    Run(m, es[..k]).next
  }

  lemma RunLast(m: Machine, es: seq<Event>)
    requires es != []
    ensures var rest := Run(m, es[..|es| - 1]);
            var last := Step(rest.next, es[|es| - 1]);
            Run(m, es) == TradingModel.Result(last.next, rest.out + last.out)
  {
    hide Step;
    var n := |es| - 1;
    assert es == es[..n] + [es[n]];
    RunConcat(m, es[..n], [es[n]]);
    var rest := Run(m, es[..n]).next;
    assert [es[n]][1..] == [];
    assert Run(rest, [es[n]]).out == Step(rest, es[n]).out + [];
  }

  lemma SamePrefix(m: Machine, es: seq<Event>, k: nat)
    requires k < |es|
    ensures At(m, es, k) == At(m, es[..|es| - 1], k)
  {
    assert es[..|es| - 1][..k] == es[..k];
  }

  lemma EntersFilling(m: Machine, e: Event)
    requires Step(m, e).next.phase.Filling?
    ensures var id := Step(m, e).next.phase.id;
            m.phase == Filling(id) || (m.phase == Confirming(id) && Reported([e], 0, NEW, id))
  {
    hide OrderId, Crossed;
  }

  /** An order waited to be filled was confirmed by a NEW report of it. */
  lemma {:induction false} FillingWasConfirmed(m: Machine, es: seq<Event>) returns (i: nat)
    requires !m.phase.HasOrder() && Run(m, es).next.phase.Filling?
    ensures Reported(es, i, NEW, Run(m, es).next.phase.id)
    ensures At(m, es, i).phase == Confirming(Run(m, es).next.phase.id)
    decreases |es|
  {
    hide Step;
    var n := |es| - 1;
    RunLast(m, es);
    var before := Run(m, es[..n]).next;
    EntersFilling(before, es[n]);
    if before.phase.Filling? {
      i := FillingWasConfirmed(m, es[..n]);
      SamePrefix(m, es, i);
    } else {
      i := n;
    }
  }

  lemma FillsOnReport(m: Machine, e: Event, k: nat)
    requires k < |Step(m, e).out| && Step(m, e).out[k].Filled?
    ensures var o := Step(m, e).out[k];
            m.phase == Filling(o.id) && Reported([e], 0, FILLED, o.id) && Worth(o.charge, e.report)
  {
    hide OrderId, Crossed, Charged;
    if e.OrderReport? { ChargeWorth(e.report); }
  }

  /** Over every run, each fill was caused by a FILLED report of the order, whose commission it carries,
      after a NEW report of the same order had confirmed it. */
  lemma {:induction false} FilledWasReported(m: Machine, es: seq<Event>, k: nat) returns (i: nat, j: nat)
    requires !m.phase.HasOrder() && k < |Run(m, es).out| && Run(m, es).out[k].Filled?
    ensures var o := Run(m, es).out[k];
            && i < j < |es|
            && Reported(es, i, NEW, o.id) && At(m, es, i).phase == Confirming(o.id)
            && Reported(es, j, FILLED, o.id) && At(m, es, j).phase == Filling(o.id)
            && Worth(o.charge, es[j].report)
    decreases |es|
  {
    hide Step, Worth;
    var n := |es| - 1;
    RunLast(m, es);
    var rest := Run(m, es[..n]);
    if k < |rest.out| {
      i, j := FilledWasReported(m, es[..n], k);
      SamePrefix(m, es, i);
      SamePrefix(m, es, j);
    } else {
      FillsOnReport(rest.next, es[n], k - |rest.out|);
      i := FillingWasConfirmed(m, es[..n]);
      j := n;
      SamePrefix(m, es, i);
    }
  }

  // ----- Commands -----

  /** With an order tracked, a start or stop asks for its deletion and waits for it, with the timer as it
      was; without one a start watches with the staged data and a stop rests. */
  lemma CommandExactly(m: Machine, go: bool, side: Side)
    ensures var s := Step(m, TradeRun(go, side));
            if m.phase.HasOrder() then
              && s.out == [DeleteSent(m.phase.id)]
              && s.next.phase == Cancelling(m.phase.id, m.phase.Confirming? || (m.phase.Cancelling? && m.phase.armed))
              && s.next.changeMode == (m.changeMode || go)
            else
              && (forall o <- s.out :: o.Placed?) && s.next.changeMode == m.changeMode
              && (go ==> s.next.phase.Watching? || s.next.phase.Confirming?)
              && (!go ==> s.out == [] && s.next.phase == Idle)
  {
    hide OrderId, Crossed;
  }

  lemma StartTakesStaged(m: Machine, side: Side)
    ensures var s := Step(m, TradeRun(true, side));
            s.next.step == side && s.next.live == m.staged.levels && s.next.quantity == m.staged.quantity &&
            s.next.staged == m.staged && s.next.counter == m.counter
  {
    hide OrderId, Crossed;
  }

  function Deletes(out: seq<Output>): nat {
    if out == [] then 0 else (if out[0].DeleteSent? then 1 else 0) + Deletes(out[1..])
  }

  /** The commands of a run that find an order tracked. */
  function CommandsWithOrder(m: Machine, es: seq<Event>): nat
    decreases |es|
  {
    if es == [] then 0
    else (if es[0].TradeRun? && m.phase.HasOrder() then 1 else 0) + CommandsWithOrder(Step(m, es[0]).next, es[1..])
  }

  lemma {:induction false} DeletesAdd(o1: seq<Output>, o2: seq<Output>)
    ensures Deletes(o1 + o2) == Deletes(o1) + Deletes(o2)
    decreases |o1|
  {
    if o1 == [] {
      assert o1 + o2 == o2;
    } else {
      assert (o1 + o2)[1..] == o1[1..] + o2;
      DeletesAdd(o1[1..], o2);
    }
  }

  lemma StepDeletes(m: Machine, e: Event)
    ensures Deletes(Step(m, e).out) == if e.TradeRun? && m.phase.HasOrder() then 1 else 0
  {
    hide OrderId, Crossed;
    var out := Step(m, e).out;
    if out != [] {
      assert out[1..] == [];
    }
  }

  /** Over every run, the exchange is asked to delete an order exactly once for each command that finds
      one tracked. */
  lemma {:induction false} DeletesExactly(m: Machine, es: seq<Event>)
    ensures Deletes(Run(m, es).out) == CommandsWithOrder(m, es)
    decreases |es|
  {
    hide Step;
    if es != [] {
      var s := Step(m, es[0]);
      StepDeletes(m, es[0]);
      DeletesExactly(s.next, es[1..]);
      DeletesAdd(s.out, Run(s.next, es[1..]).out);
    }
  }

  lemma EntersCancelling(m: Machine, e: Event)
    requires Step(m, e).next.phase.Cancelling?
    ensures var s := Step(m, e);
            if m.phase.Cancelling? then m.phase.id == s.next.phase.id && forall o <- s.out :: !o.Placed?
            else s.out == [DeleteSent(s.next.phase.id)]
  {
    hide OrderId, Crossed;
  }

  /** A machine that waits for a cancel has asked for it since it placed its last order. */
  lemma {:induction false} CancellingWasAsked(m: Machine, es: seq<Event>) returns (k: nat)
    requires !m.phase.HasOrder() && Run(m, es).next.phase.Cancelling?
    ensures var out := Run(m, es).out;
            k < |out| && out[k] == DeleteSent(Run(m, es).next.phase.id) &&
            forall j :: k < j < |out| ==> !out[j].Placed?
    decreases |es|
  {
    hide Step;
    var n := |es| - 1;
    RunLast(m, es);
    var rest := Run(m, es[..n]);
    EntersCancelling(rest.next, es[n]);
    if rest.next.phase.Cancelling? {
      k := CancellingWasAsked(m, es[..n]);
    } else {
      k := |rest.out|;
    }
  }

  // ----- Commissions -----

  /** The commission of a report in the symbol's own coin. */
  function Fee(r: Report): real {
    match r.asset
    case USDT => r.commission / r.price
    case BNB => 0.0
    case OtherAsset => r.commission
  }

  /** The commissions of the FILLED reports that a run accepts. */
  function Fees(m: Machine, es: seq<Event>): real
    decreases |es|
  {
    if es == [] then 0.0
    else
      (if m.phase.Filling? && Reported(es, 0, FILLED, m.phase.id) then Fee(es[0].report) else 0.0)
      + Fees(Step(m, es[0]).next, es[1..])
  }

  lemma StepFee(m: Machine, e: Event)
    ensures ChargeSum(Step(m, e).out) ==
            if m.phase.Filling? && Reported([e], 0, FILLED, m.phase.id) then Fee(e.report) else 0.0
  {
    hide OrderId, Crossed;
    var out := Step(m, e).out;
    if out != [] {
      assert out[1..] == [];
    }
  }

  lemma {:induction false} ChargesAreFees(m: Machine, es: seq<Event>)
    ensures ChargeSum(Run(m, es).out) == Fees(m, es)
    decreases |es|
  {
    hide Step, Fee, ChargeSum;
    if es == [] {
      NothingCharged();
    } else {
      var s := Step(m, es[0]);
      StepFee(m, es[0]);
      ChargesAreFees(s.next, es[1..]);
      ChargesAdd(s.out, Run(s.next, es[1..]).out);
    }
  }

  lemma NothingCharged()
    ensures ChargeSum([]) == 0.0
  {
  }

  /** Without a new start or change the quantity is what the commissions in the accepted reports leave of
      it, up to half a unit of the sixth decimal per charged fill. */
  lemma QuantityFollowsReports(m: Machine, es: seq<Event>)
    requires NoStart(es)
    ensures var r := Run(m, es);
            Near(r.next.quantity, m.quantity - Fees(m, es), ChargedFills(r.out))
  {
    hide Near, Run, Fees, ChargeSum;
    QuantityDrift(m, es);
    ChargesAreFees(m, es);
  }
}
