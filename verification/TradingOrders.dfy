/** Client order ids, and the order in which an undisturbed machine trades the two sides. */
module TradingOrders {
  import opened Wrappers
  import opened TradingModel

  // ----- Ids -----

  lemma {:induction false} DecimalInjective(a: nat, b: nat)
    requires Decimal(a) == Decimal(b)
    ensures a == b
  {
    var s, t := Decimal(a), Decimal(b);
    assert s[|s| - 1] == t[|t| - 1];
    if a < 10 && b < 10 {
      DigitInjective(a, b);
    } else if a >= 10 && b >= 10 {
      assert s[..|s| - 1] == Decimal(a / 10) && t[..|t| - 1] == Decimal(b / 10);
      DecimalInjective(a / 10, b / 10);
      DigitInjective(a % 10, b % 10);
    }
  }

  lemma DigitInjective(a: nat, b: nat)
    requires a < 10 && b < 10
    requires Digit(a)[0] == Digit(b)[0]
    ensures a == b
  {
    var digits := "0123456789";
    assert digits[a] == digits[b];
  }

  /** Orders are numbered: the order of `side` in cycle `counter` is number 2 * counter (+ 1 for a sale). */
  function SideOf(n: nat): Side {
    if n % 2 == 0 then Buy else Sell
  }

  function NumberedId(symbol: string, n: nat): string {
    OrderId(symbol, SideOf(n), n / 2)
  }

  /** The symbols USDT, USDT_to_USDT, USDT_to_USDT_to_USDT, ... */
  predicate Mirrored(symbol: string) {
    symbol == "USDT" || (|symbol| >= 8 && symbol[..8] == "USDT_to_" && Mirrored(symbol[8..]))
  }

  lemma {:induction false} MirroredExactly(s: string)
    ensures s + "_to_USDT_" == "USDT_to_" + s + "_" <==> Mirrored(s)
  {
    var l, r := s + "_to_USDT_", "USDT_to_" + s + "_";
    if |s| >= 8 {
      var u := s[8..];
      if s[..8] == "USDT_to_" {
        assert s == "USDT_to_" + u;
        assert l == "USDT_to_" + (u + "_to_USDT_");
        assert r == "USDT_to_" + ("USDT_to_" + u + "_");
        assert l[8..] == u + "_to_USDT_" && r[8..] == "USDT_to_" + u + "_";
        MirroredExactly(u);
      } else {
        assert l[..8] == s[..8] && r[..8] == "USDT_to_";
      }
    } else if l == r {
      assert l[|s|] == '_' && l[|s| + 1] == 't';
      assert |s| > 0 ==> r[8] == s[0] == l[0];
      assert |s| == 4;
      assert s == l[..4] == r[..4] == "USDT";
    } else {
      assert s == "USDT" ==> l == r;
    }
  }

  lemma SidesCollide(symbol: string, c: nat, d: nat)
    ensures OrderId(symbol, Sell, c) == OrderId(symbol, Buy, d) <==> Mirrored(symbol) && c == d
  {
    var x, y := Decimal(c), Decimal(d);
    var l, r := symbol + "_to_USDT_", "USDT_to_" + symbol + "_";
    assert OrderId(symbol, Sell, c) == "order_" + (l + x);
    assert OrderId(symbol, Buy, d) == "order_" + (r + y);
    assert |l| == |r|;
    if OrderId(symbol, Sell, c) == OrderId(symbol, Buy, d) {
      assert ("order_" + (l + x))[6..] == l + x && ("order_" + (r + y))[6..] == r + y;
      assert (l + x)[..|l|] == l && (r + y)[..|l|] == r;
      assert (l + x)[|l|..] == x && (r + y)[|l|..] == y;
      DecimalInjective(c, d);
    }
    MirroredExactly(symbol);
  }

  lemma SameSideInjective(symbol: string, side: Side, c: nat, d: nat)
    requires OrderId(symbol, side, c) == OrderId(symbol, side, d)
    ensures c == d
  {
    var p := if side.Sell? then "order_" + symbol + "_to_USDT_" else "order_USDT_to_" + symbol + "_";
    assert (p + Decimal(c))[|p|..] == Decimal(c) && (p + Decimal(d))[|p|..] == Decimal(d);
    DecimalInjective(c, d);
  }

  /** Different orders have different ids exactly for the symbols that are not mirrored. */
  lemma IdsDistinctExactly(symbol: string)
    ensures (forall i: nat, j: nat :: i != j ==> NumberedId(symbol, i) != NumberedId(symbol, j))
            <==> !Mirrored(symbol)
  {
    if Mirrored(symbol) {
      SidesCollide(symbol, 0, 0);
      assert NumberedId(symbol, 0) == NumberedId(symbol, 1);
    } else {
      forall i: nat, j: nat | i != j ensures NumberedId(symbol, i) != NumberedId(symbol, j) {
        if NumberedId(symbol, i) == NumberedId(symbol, j) {
          if SideOf(i) == SideOf(j) {
            SameSideInjective(symbol, SideOf(i), i / 2, j / 2);
          } else if SideOf(i).Sell? {
            SidesCollide(symbol, i / 2, j / 2);
          } else {
            SidesCollide(symbol, j / 2, i / 2);
          }
        }
      }
    }
  }

  // ----- Undisturbed stretches -----

  predicate Undisturbed(es: seq<Event>) {
    forall i :: 0 <= i < |es| ==> !es[i].TradeRun? && !es[i].Timeout?
  }

  function Number(m: Machine): nat {
    2 * m.counter + if m.step.Sell? then 1 else 0
  }

  /** The number of the next order to be placed. */
  function NextNumber(m: Machine): nat {
    if m.phase.HasOrder() then Number(m) + 1 else Number(m)
  }

  predicate Trading(m: Machine) {
    m.phase.Watching? || m.phase.Confirming? || m.phase.Filling?
  }

  function Placements(out: seq<Output>): seq<Output> {
    if out == [] then []
    else (if out[0].Placed? then [out[0]] else []) + Placements(out[1..])
  }

  function Fills(out: seq<Output>): nat {
    if out == [] then 0 else (if out[0].Filled? then 1 else 0) + Fills(out[1..])
  }

  /** The k-th order of `ps` is number n + k, on that number's side and under its id. */
  predicate CountsFrom(symbol: string, n: nat, ps: seq<Output>) {
    forall k :: 0 <= k < |ps| ==>
      ps[k].Placed? && ps[k].side == SideOf(n + k) && ps[k].id == NumberedId(symbol, n + k)
  }

  lemma {:induction false} PlacementsAdd(o1: seq<Output>, o2: seq<Output>)
    ensures Placements(o1 + o2) == Placements(o1) + Placements(o2)
    decreases |o1|
  {
    if o1 == [] {
      assert o1 + o2 == o2;
    } else {
      assert (o1 + o2)[1..] == o1[1..] + o2;
      PlacementsAdd(o1[1..], o2);
      var head, rest := if o1[0].Placed? then [o1[0]] else [], Placements(o1[1..]);
      assert Placements(o1) == head + rest && Placements(o1 + o2) == head + (rest + Placements(o2));
      hide Placements;
      assert head + (rest + Placements(o2)) == head + rest + Placements(o2);
    }
  }

  lemma {:induction false} FillsAdd(o1: seq<Output>, o2: seq<Output>)
    ensures Fills(o1 + o2) == Fills(o1) + Fills(o2)
    decreases |o1|
  {
    if o1 == [] {
      assert o1 + o2 == o2;
    } else {
      assert (o1 + o2)[1..] == o1[1..] + o2;
      FillsAdd(o1[1..], o2);
    }
  }

  lemma StepCounts(m: Machine, e: Event)
    requires Trading(m) && !e.TradeRun? && !e.Timeout?
    ensures var s := Step(m, e);
            Trading(s.next) && s.next.symbol == m.symbol &&
            CountsFrom(m.symbol, NextNumber(m), Placements(s.out)) &&
            NextNumber(s.next) == NextNumber(m) + |Placements(s.out)| &&
            Number(s.next) == Number(m) + Fills(s.out)
  {
    var s := Step(m, e);
    if s.out != [] {
      assert s.out[1..] == [];
      assert SideOf(Number(m)) == m.step && Number(m) / 2 == m.counter;
    }
  }

  lemma CountsConcat(symbol: string, n: nat, ps: seq<Output>, qs: seq<Output>)
    requires CountsFrom(symbol, n, ps) && CountsFrom(symbol, n + |ps|, qs)
    ensures CountsFrom(symbol, n, ps + qs)
  {
    forall k | 0 <= k < |ps + qs|
      ensures var p := (ps + qs)[k];
              p.Placed? && p.side == SideOf(n + k) && p.id == NumberedId(symbol, n + k)
    {
      if k >= |ps| {
        assert (ps + qs)[k] == qs[k - |ps|];
      }
    }
  }

  lemma JoinCounted(symbol: string, n: nat, o1: seq<Output>, o2: seq<Output>)
    requires CountsFrom(symbol, n, Placements(o1)) && CountsFrom(symbol, n + |Placements(o1)|, Placements(o2))
    ensures CountsFrom(symbol, n, Placements(o1 + o2))
    ensures |Placements(o1 + o2)| == |Placements(o1)| + |Placements(o2)| && Fills(o1 + o2) == Fills(o1) + Fills(o2)
  {
    hide CountsFrom, Placements, Fills;
    PlacementsAdd(o1, o2);
    FillsAdd(o1, o2);
    CountsConcat(symbol, n, Placements(o1), Placements(o2));
  }

  lemma NothingCounted(symbol: string, n: nat)
    ensures CountsFrom(symbol, n, Placements([])) && Placements([]) == [] && Fills([]) == 0
  {
  }

  /** While nobody starts, changes or stops trading and no confirmation times out, orders are placed
      in the order of their numbers, so the sides alternate, and each fill advances the number by one. */
  lemma {:induction false} StretchCounts(m: Machine, es: seq<Event>)
    requires Trading(m) && Undisturbed(es)
    ensures var r := Run(m, es);
            Trading(r.next) &&
            CountsFrom(m.symbol, NextNumber(m), Placements(r.out)) &&
            NextNumber(r.next) == NextNumber(m) + |Placements(r.out)| &&
            Number(r.next) == Number(m) + Fills(r.out)
    decreases |es|
  {
    hide Step, Trading, CountsFrom, Placements, Fills, NextNumber, Number;
    if es == [] {
      NothingCounted(m.symbol, NextNumber(m));
    } else {
      assert !es[0].TradeRun? && !es[0].Timeout?;
      var s := Step(m, es[0]);
      StepCounts(m, es[0]);
      StretchCounts(s.next, es[1..]);
      JoinCounted(m.symbol, NextNumber(m), s.out, Run(s.next, es[1..]).out);
    }
  }

  lemma StartCounts(m: Machine, side: Side)
    requires m.phase.Idle?
    ensures var s := Step(m, TradeRun(true, side));
            var n := 2 * m.counter + if side.Sell? then 1 else 0;
            Trading(s.next) && s.next.symbol == m.symbol &&
            CountsFrom(m.symbol, n, Placements(s.out)) &&
            NextNumber(s.next) == n + |Placements(s.out)|
  {
    hide OrderId, Placements, Fills, CountsFrom, Crossed;
    var watching := Commit(m, side).(phase := Watching);
    var report := OrderReport(Report(None, None, BNB, 0.0, 1.0));
    assert Step(m, TradeRun(true, side)) == Watch(watching) == Step(watching, report);
    StepCounts(watching, report);
  }

  /** After a fresh start the orders alternate from the chosen side, and unless the symbol is
      mirrored no two of them share an id. */
  lemma FreshStartAlternates(m: Machine, side: Side, es: seq<Event>)
    requires m.phase.Idle? && Undisturbed(es)
    ensures var ps := Placements(Run(m, [TradeRun(true, side)] + es).out);
            var n := 2 * m.counter + if side.Sell? then 1 else 0;
            CountsFrom(m.symbol, n, ps) &&
            (!Mirrored(m.symbol) ==> forall i, j :: 0 <= i < j < |ps| ==> ps[i].id != ps[j].id)
  {
    hide Step, OrderId, Placements, CountsFrom, Fills, NextNumber, Number, Trading;
    var start := TradeRun(true, side);
    RunCons(m, start, es);
    var s := Step(m, start);
    StartCounts(m, side);
    StretchCounts(s.next, es);
    var n := 2 * m.counter + if side.Sell? then 1 else 0;
    JoinCounted(m.symbol, n, s.out, Run(s.next, es).out);
    if !Mirrored(m.symbol) {
      CountedIdsDiffer(m.symbol, n, Placements(Run(m, [start] + es).out));
    }
  }

  lemma CountedIdsDiffer(symbol: string, n: nat, ps: seq<Output>)
    requires CountsFrom(symbol, n, ps) && !Mirrored(symbol)
    ensures forall i, j :: 0 <= i < j < |ps| ==> ps[i].id != ps[j].id
  {
    hide OrderId;
    IdsDistinctExactly(symbol);
  }
}
