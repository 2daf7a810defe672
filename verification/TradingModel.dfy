/** The trading machine of one symbol, as a value: what each external event does to it and what it
    sends to the exchange. There is one phase instead of a state name and four flags; class
    `SymbolData` holds the flags and is proved against this machine. */
module TradingModel {
  import opened Wrappers
  import opened Money

  datatype Side = Buy | Sell {
    function Other(): Side {
      if Buy? then Sell else Buy
    }
  }

  type NonZero = r: real | r != 0.0 witness 1.0

  /** The triggers and order prices of both sides. */
  datatype Levels = Levels(buyTrigger: real, buyPrice: real, sellTrigger: real, sellPrice: real) {
    function Trigger(side: Side): real {
      if side.Buy? then buyTrigger else sellTrigger
    }

    function Price(side: Side): real {
      if side.Buy? then buyPrice else sellPrice
    }
  }

  /** The trading data that the user edits and a start puts to use. */
  datatype Params = Params(levels: Levels, quantity: real)

  /** The values of a report that the machine looks for, already decoded. */
  datatype Status = NEW | FILLED | CANCELED | OtherStatus

  datatype Asset = USDT | BNB | OtherAsset

  /** An order report. The first two fields may be missing; a FILLED report carries the commission
      asset, the commission and a price that is not zero. */
  datatype Report = Report(status: Option<Status>, clientId: Option<string>,
                           asset: Asset, commission: real, price: NonZero) {
    predicate Says(what: Status, id: string) {
      clientId == Some(id) && status == Some(what)
    }

    /** The commission in the symbol's own coin; none is taken when it was paid in BNB. */
    function Charge(): Option<real> {
      if asset.USDT? then Some(commission / price)
      else if asset.BNB? then None
      else Some(commission)
    }
  }

  /** A trading-data message; a missing key or an unreadable number is None. */
  datatype TradeData = TradeData(isSet: bool, buyTrigger: Option<real>, buyPrice: Option<real>,
                                 sellTrigger: Option<real>, sellPrice: Option<real>, quantity: Option<real>)

  datatype Event =
    | Data(data: TradeData)
    | TradeRun(go: bool, side: Side)
    | Price(price: real)
    | OrderReport(report: Report)
    | Timeout

  /** What the exchange sees, and how each order ended. */
  datatype Output =
    | Placed(id: string, side: Side, price: real, quantity: real)
    | DeleteSent(id: string)
    | Filled(id: string, side: Side, charge: Option<real>)
    | Cancelled(id: string, reported: Option<string>)  // the tracked order, and the id in the report
    | TimedOut(id: string)

  /** `armed` says whether the confirmation timer is still running while a cancel is awaited. */
  datatype Phase =
    | Idle
    | Watching
    | Confirming(id: string)
    | Filling(id: string)
    | Cancelling(id: string, armed: bool)
  {
    predicate HasOrder() {
      Confirming? || Filling? || Cancelling?
    }

    predicate Armed() {
      Confirming? || (Cancelling? && armed)
    }

    function Tracked(): Option<string> {
      if HasOrder() then Some(id) else None
    }
  }

  datatype Machine = Machine(symbol: string, phase: Phase, changeMode: bool, step: Side, counter: nat,
                             latest: real, previous: real, staged: Params, live: Levels, quantity: real)

  datatype Result = Result(next: Machine, out: seq<Output>)

  function Initial(symbol: string): Machine {
    var zero := Levels(0.0, 0.0, 0.0, 0.0);
    Machine(symbol, Idle, false, Buy, 0, 0.0, 0.0, Params(zero, 0.0), zero, 0.0)
  }

  /** Does `level` lie between two prices, neither of which is the initial 0? */
  predicate Crossed(latest: real, previous: real, level: real) {
    latest != 0.0 && previous != 0.0 && (latest <= level <= previous || previous <= level <= latest)
  }

  function Digit(d: nat): (s: string)
    requires d < 10
    ensures |s| == 1
  {
    ["0123456789"[d]]
  }

  function Decimal(n: nat): (s: string)
    ensures |s| >= 1
  {
    if n < 10 then Digit(n) else Decimal(n / 10) + Digit(n % 10)
  }

  function OrderId(symbol: string, side: Side, counter: nat): (id: string)
    ensures id != ""
  {
    if side.Sell? then "order_" + symbol + "_to_USDT_" + Decimal(counter)
    else "order_USDT_to_" + symbol + "_" + Decimal(counter)
  }

  /** The staged data are replaced field by field up to the first field that is missing. */
  function Stage(s: Params, d: TradeData): Params {
    if !d.isSet || d.buyTrigger.None? then s else
    var l1 := s.levels.(buyTrigger := d.buyTrigger.value);
    if d.buyPrice.None? then s.(levels := l1) else
    var l2 := l1.(buyPrice := d.buyPrice.value);
    if d.sellTrigger.None? then s.(levels := l2) else
    var l3 := l2.(sellTrigger := d.sellTrigger.value);
    if d.sellPrice.None? then s.(levels := l3) else
    var l4 := l3.(sellPrice := d.sellPrice.value);
    if d.quantity.None? then s.(levels := l4) else
    Params(l4, d.quantity.value)
  }

  function Commit(m: Machine, side: Side): Machine {
    m.(live := m.staged.levels, quantity := m.staged.quantity, step := side)
  }

  function Place(m: Machine): Result {
    var id := OrderId(m.symbol, m.step, m.counter);
    Result(m.(phase := Confirming(id)), [Placed(id, m.step, m.live.Price(m.step), m.quantity)])
  }

  /** While the trigger is watched, a crossing places the order of the current side. */
  function Watch(m: Machine): Result {
    if Crossed(m.latest, m.previous, m.live.Trigger(m.step)) then Place(m) else Result(m, [])
  }

  function Halt(m: Machine): Machine {
    m.(phase := Idle, step := Buy)
  }

  function AskCancel(m: Machine): Result
    requires m.phase.HasOrder()
  {
    Result(m.(phase := Cancelling(m.phase.id, m.phase.Armed())), [DeleteSent(m.phase.id)])
  }

  function AfterCommand(m: Machine, go: bool, side: Side): Result {
    if go then
      var c := Commit(m, side);
      if m.phase.Idle? then Watch(c.(phase := Watching))
      else if m.phase.Watching? then Result(c, [])
      else AskCancel(c.(changeMode := true))
    else if m.phase.Idle? then Result(m, [])
    else if m.phase.Watching? then Result(Halt(m), [])
    else AskCancel(m)
  }

  function AfterFill(m: Machine, charge: Option<real>): Machine {
    m.(phase := Watching, step := m.step.Other(),
       counter := if m.step.Sell? then m.counter + 1 else m.counter,
       quantity := if charge.Some? then Charged(m.quantity, charge.value) else m.quantity)
  }

  function AfterReport(m: Machine, r: Report): Result {
    match m.phase
    case Idle => Result(m, [])
    case Watching => Watch(m)
    case Confirming(id) =>
      if r.Says(NEW, id) then Result(m.(phase := Filling(id)), []) else Result(m, [])
    case Filling(id) =>
      if r.Says(FILLED, id) then Result(AfterFill(m, r.Charge()), [Filled(id, m.step, r.Charge())])
      else Result(m, [])
    case Cancelling(id, _) =>
      if r.status != Some(CANCELED) then Result(m, [])
      else if m.changeMode then Result(m.(phase := Watching, changeMode := false), [Cancelled(id, r.clientId)])
      else Result(Halt(m), [Cancelled(id, r.clientId)])
  }

  function AfterPrice(m: Machine, price: real): Result {
    var m' := m.(latest := price, previous := m.latest);
    if m.phase.Watching? then Watch(m') else Result(m', [])
  }

  /** One event. The timer can only fire while it is armed. */
  function Step(m: Machine, e: Event): Result {
    match e
    case Data(d) => Result(m.(staged := Stage(m.staged, d)), [])
    case TradeRun(go, side) => AfterCommand(m, go, side)
    case Price(p) => AfterPrice(m, p)
    case OrderReport(r) => AfterReport(m, r)
    case Timeout => if m.phase.Armed() then Result(Halt(m), [TimedOut(m.phase.id)]) else Result(m, [])
  }

  function Run(m: Machine, es: seq<Event>): Result
    decreases |es|
  {
    if es == [] then Result(m, [])
    else
      var first := Step(m, es[0]);
      var rest := Run(first.next, es[1..]);
      Result(rest.next, first.out + rest.out)
  }

  lemma RunCons(m: Machine, e: Event, es: seq<Event>)
    ensures var rest := Run(Step(m, e).next, es);
            Run(m, [e] + es) == Result(rest.next, Step(m, e).out + rest.out)
  {
    hide Step;
    assert ([e] + es)[1..] == es;
  }

  lemma {:induction false} RunConcat(m: Machine, es: seq<Event>, fs: seq<Event>)
    ensures Run(m, es + fs).next == Run(Run(m, es).next, fs).next
    ensures Run(m, es + fs).out == Run(m, es).out + Run(Run(m, es).next, fs).out
    decreases |es|
  {
    hide Step;
    if es == [] {
      assert es + fs == fs;
    } else {
      var s := Step(m, es[0]);
      assert (es + fs)[0] == es[0] && (es + fs)[1..] == es[1..] + fs;
      RunConcat(s.next, es[1..], fs);
      var a, b := Run(s.next, es[1..]), Run(Run(m, es).next, fs);
      assert Run(m, es + fs).out == s.out + (a.out + b.out);
      assert s.out + (a.out + b.out) == (s.out + a.out) + b.out;
    }
  }
}
