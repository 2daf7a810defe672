/** Client order ids over whole runs, with stops, changes, timeouts and restarts. */
module TradingIds {
  import opened Wrappers
  import opened Money
  import opened TradingModel
  import opened TradingOrders

  predicate SaleFill(o: Output) {
    o.Filled? && o.side.Sell?
  }

  function SaleFills(out: seq<Output>): nat {
    if out == [] then 0 else (if SaleFill(out[0]) then 1 else 0) + SaleFills(out[1..])
  }

  /** Every order carries the id of its side and of the cycle that the sales before it have reached. */
  predicate NumberedFrom(symbol: string, n: nat, out: seq<Output>)
    decreases |out|
  {
    out != [] ==>
    && (out[0].Placed? ==> out[0].id == OrderId(symbol, out[0].side, n))
    && NumberedFrom(symbol, if SaleFill(out[0]) then n + 1 else n, out[1..])
  }

  lemma {:induction false} SalesAdd(o1: seq<Output>, o2: seq<Output>)
    ensures SaleFills(o1 + o2) == SaleFills(o1) + SaleFills(o2)
    decreases |o1|
  {
    if o1 == [] {
      assert o1 + o2 == o2;
    } else {
      assert (o1 + o2)[1..] == o1[1..] + o2;
      SalesAdd(o1[1..], o2);
    }
  }

  lemma {:induction false} NumberedConcat(symbol: string, n: nat, o1: seq<Output>, o2: seq<Output>)
    requires NumberedFrom(symbol, n, o1) && NumberedFrom(symbol, n + SaleFills(o1), o2)
    ensures NumberedFrom(symbol, n, o1 + o2)
    decreases |o1|
  {
    hide OrderId;
    if o1 == [] {
      assert o1 + o2 == o2;
    } else {
      assert (o1 + o2)[1..] == o1[1..] + o2;
      NumberedConcat(symbol, if SaleFill(o1[0]) then n + 1 else n, o1[1..], o2);
    }
  }

  lemma {:induction false} IdAt(symbol: string, n: nat, out: seq<Output>, k: nat)
    requires NumberedFrom(symbol, n, out) && k < |out| && out[k].Placed?
    ensures out[k].id == OrderId(symbol, out[k].side, n + SaleFills(out[..k]))
    decreases |out|
  {
    hide OrderId;
    if k > 0 {
      IdAt(symbol, if SaleFill(out[0]) then n + 1 else n, out[1..], k - 1);
      assert out[..k][1..] == out[1..][..k - 1];
    }
  }

  lemma StepNumbered(m: Machine, e: Event)
    ensures var s := Step(m, e);
            s.next.symbol == m.symbol && s.next.counter == m.counter + SaleFills(s.out) &&
            NumberedFrom(m.symbol, m.counter, s.out)
  {
    hide OrderId, Crossed;
    var s := Step(m, e);
    if s.out != [] {
      assert s.out[1..] == [];
    }
  }

  lemma {:induction false} RunNumbered(m: Machine, es: seq<Event>)
    ensures var r := Run(m, es);
            r.next.counter == m.counter + SaleFills(r.out) && NumberedFrom(m.symbol, m.counter, r.out)
    decreases |es|
  {
    hide Step, NumberedFrom;
    if es == [] {
      NothingNumbered(m.symbol, m.counter);
    } else {
      var s := Step(m, es[0]);
      var rest := Run(s.next, es[1..]);
      StepNumbered(m, es[0]);
      RunNumbered(s.next, es[1..]);
      SalesAdd(s.out, rest.out);
      NumberedConcat(m.symbol, m.counter, s.out, rest.out);
    }
  }

  lemma NothingNumbered(symbol: string, n: nat)
    ensures NumberedFrom(symbol, n, [])
  {
  }

  predicate NoSaleBetween(out: seq<Output>, i: nat, j: nat) {
    forall k :: i < k < j && k < |out| ==> !SaleFill(out[k])
  }

  lemma {:induction false} NoSalesExactly(out: seq<Output>)
    ensures SaleFills(out) == 0 <==> forall k :: 0 <= k < |out| ==> !SaleFill(out[k])
  {
    if out != [] {
      NoSalesExactly(out[1..]);
      assert forall k :: 1 <= k < |out| ==> out[k] == out[1..][k - 1];
    }
  }

  lemma SalesBetween(out: seq<Output>, i: nat, j: nat)
    requires i < j < |out| && out[i].Placed?
    ensures SaleFills(out[..i]) == SaleFills(out[..j]) <==> NoSaleBetween(out, i, j)
  {
    var between := out[i..j];
    assert out[..j] == out[..i] + between;
    SalesAdd(out[..i], between);
    NoSalesExactly(between);
    assert forall k :: 0 <= k < |between| ==> between[k] == out[i + k];
    assert between[0].Placed?;
    if NoSaleBetween(out, i, j) {
      forall k | 0 <= k < |between| ensures !SaleFill(between[k]) {
        assert between[k] == out[i + k];
      }
    } else {
      var k :| i < k < j && SaleFill(out[k]);
      assert between[k - i] == out[k];
    }
  }

  lemma SameIdExactly(symbol: string, side1: Side, c: nat, side2: Side, d: nat)
    ensures OrderId(symbol, side1, c) == OrderId(symbol, side2, d) <==>
            c == d && (side1 == side2 || Mirrored(symbol))
  {
    if side1 == side2 {
      if OrderId(symbol, side1, c) == OrderId(symbol, side2, d) {
        SameSideInjective(symbol, side1, c, d);
      }
    } else if side1.Sell? {
      SidesCollide(symbol, c, d);
    } else {
      SidesCollide(symbol, d, c);
    }
  }

  /** Two orders of a run share an id exactly when no sale was filled between them and they are of the
      same side, or of any side if the symbol is mirrored. */
  lemma {:induction false} IdSharedExactly(m: Machine, es: seq<Event>, i: nat, j: nat)
    requires i < j < |Run(m, es).out| && Run(m, es).out[i].Placed? && Run(m, es).out[j].Placed?
    ensures var out := Run(m, es).out;
            out[i].id == out[j].id <==>
            NoSaleBetween(out, i, j) && (out[i].side == out[j].side || Mirrored(m.symbol))
  {
    hide Run, OrderId, Mirrored, NoSaleBetween, SaleFills;
    var out := Run(m, es).out;
    RunNumbered(m, es);
    var c, d := m.counter + SaleFills(out[..i]), m.counter + SaleFills(out[..j]);
    IdAt(m.symbol, m.counter, out, i);
    IdAt(m.symbol, m.counter, out, j);
    SameIdExactly(m.symbol, out[i].side, c, out[j].side, d);
    SalesBetween(out, i, j);
  }

  /** It happens to every symbol: an order that is not confirmed in time, and whose trigger is crossed
      by the stored prices at the restart, is followed by another order under its id. */
  lemma RestartReusesId(m: Machine, side: Side)
    requires m.phase == Confirming(OrderId(m.symbol, side, m.counter))
    requires Crossed(m.latest, m.previous, m.staged.levels.Trigger(side))
    ensures var out := Run(m, [Timeout, TradeRun(true, side)]).out;
            |out| == 2 && out[1].Placed? && out[1].id == m.phase.id
  {
    hide OrderId, Crossed;
    var m1 := Step(m, Timeout);
    var restart := [TradeRun(true, side)];
    var m2 := Step(m1.next, restart[0]);
    assert m1.out == [TimedOut(m.phase.id)];
    assert |m2.out| == 1 && m2.out[0].Placed? && m2.out[0].id == OrderId(m.symbol, side, m.counter);
    assert restart[1..] == [];
    assert Run(m1.next, restart).out == m2.out + [];
    assert [Timeout, TradeRun(true, side)][1..] == restart;
    assert Run(m, [Timeout, TradeRun(true, side)]).out == m1.out + Run(m1.next, restart).out;
  }

  /** A filled purchase does not advance the cycle either: after a stop and a restart on purchases its id
      is given again. */
  lemma RestartAfterPurchaseReusesId(m: Machine, fill: Report, side: Side)
    requires m.phase == Filling(OrderId(m.symbol, Buy, m.counter)) && m.step == Buy && fill.Says(FILLED, m.phase.id)
    requires Crossed(m.latest, m.previous, m.staged.levels.Trigger(Buy))
    ensures var out := Run(m, [OrderReport(fill), TradeRun(false, side), TradeRun(true, Buy)]).out;
            |out| == 2 && out[0].Filled? && out[1].Placed? && out[0].id == out[1].id
  {
    hide OrderId, Crossed, Charged;
    var es := [OrderReport(fill), TradeRun(false, side), TradeRun(true, Buy)];
    var s1 := Step(m, es[0]);
    var s2 := Step(s1.next, es[1]);
    var s3 := Step(s2.next, es[2]);
    assert |s1.out| == 1 && s1.out[0].Filled? && s1.out[0].id == m.phase.id && s2.out == [];
    assert |s3.out| == 1 && s3.out[0].Placed? && s3.out[0].id == m.phase.id;
    assert es[1..] == [es[1], es[2]] && es[1..][1..] == [es[2]] && [es[2]][1..] == [];
    hide Step;
    assert Run(s2.next, [es[2]]).out == s3.out + [];
    assert Run(s1.next, es[1..]).out == s2.out + Run(s2.next, [es[2]]).out;
    assert Run(m, es).out == s1.out + Run(s1.next, es[1..]).out;
  }

  // ----- The text of an id -----

  /** The number that a text of decimal digits spells. */
  function Spelled(text: string): int {
    if text == "" then 0 else 10 * Spelled(text[..|text| - 1]) + (text[|text| - 1] as int - '0' as int)
  }

  predicate Digits(text: string) {
    forall c <- text :: '0' <= c <= '9'
  }

  lemma DigitSpells(d: nat)
    requires d < 10
    ensures Digit(d)[0] as int - '0' as int == d && '0' <= Digit(d)[0] <= '9'
  {
  }

  lemma {:induction false} DecimalSpells(n: nat)
    ensures Spelled(Decimal(n)) == n && Digits(Decimal(n)) && (n > 0 ==> Decimal(n)[0] != '0')
  {
    var last := Digit(n % 10);
    DigitSpells(n % 10);
    if n < 10 {
      assert Decimal(n)[..0] == "";
    } else {
      DecimalSpells(n / 10);
      assert Decimal(n)[..|Decimal(n)| - 1] == Decimal(n / 10);
    }
  }

  /** Every order of a run is named after its side, the symbol and a number in plain decimal digits, which
      is the sales filled before it. */
  lemma {:induction false} IdText(m: Machine, es: seq<Event>, k: nat) returns (number: string)
    requires k < |Run(m, es).out| && Run(m, es).out[k].Placed?
    ensures var out := Run(m, es).out;
            && out[k].id == (if out[k].side == Sell then "order_" + m.symbol + "_to_USDT_" + number
                             else "order_USDT_to_" + m.symbol + "_" + number)
            && Digits(number) && number != "" && (number[0] == '0' ==> Spelled(number) == 0)
            && Spelled(number) == m.counter + SaleFills(out[..k])
  {
    var out := Run(m, es).out;
    RunNumbered(m, es);
    IdAt(m.symbol, m.counter, out, k);
    hide Run, SaleFills;
    var n := m.counter + SaleFills(out[..k]);
    DecimalSpells(n);
    number := Decimal(n);
  }

  // ----- The side of a fill -----

  /** The side of the order that is open after an output. */
  function Opened(before: Option<Side>, o: Output): Option<Side> {
    if o.Placed? then Some(o.side) else if o.DeleteSent? then before else None
  }

  /** A fill is of the side that the filled order was placed on. */
  predicate Sided(before: Option<Side>, out: seq<Output>)
    decreases |out|
  {
    out == [] || ((out[0].Filled? ==> before == Some(out[0].side)) && Sided(Opened(before, out[0]), out[1..]))
  }

  predicate Knows(m: Machine, tracked: Option<Side>) {
    m.phase.Confirming? || m.phase.Filling? ==> tracked == Some(m.step)
  }

  lemma StepSided(m: Machine, e: Event, before: Option<Side>)
    requires Knows(m, before)
    ensures var s := Step(m, e);
            |s.out| <= 1 && Sided(before, s.out) &&
            Knows(s.next, if s.out == [] then before else Opened(before, s.out[0]))
  {
    hide OrderId, Crossed;
    var s := Step(m, e);
    if s.out != [] {
      assert s.out[1..] == [];
    }
  }

  /** From a machine without an order, over every run. */
  lemma {:induction false} RunSided(m: Machine, es: seq<Event>, before: Option<Side>)
    requires Knows(m, before)
    ensures Sided(before, Run(m, es).out)
    decreases |es|
  {
    hide Step, Knows;
    if es != [] {
      var s := Step(m, es[0]);
      StepSided(m, es[0], before);
      var rest := Run(s.next, es[1..]).out;
      if s.out == [] {
        RunSided(s.next, es[1..], before);
        assert s.out + rest == rest;
      } else {
        RunSided(s.next, es[1..], Opened(before, s.out[0]));
        assert (s.out + rest)[1..] == rest;
      }
    }
  }

  lemma FillsAreOfTheirOrdersSide(m: Machine, es: seq<Event>)
    requires !m.phase.HasOrder()
    ensures Sided(None, Run(m, es).out)
  {
    RunSided(m, es, None);
  }
}
