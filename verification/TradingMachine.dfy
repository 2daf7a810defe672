/** The trading machine in the source's own form: one object per symbol whose event methods and state
    handlers update a state name, three flags, two orders and an alias of the order that is waited
    for. `Valid()` states how these fields agree at every event boundary. */
module TradingMachine {
  import opened Wrappers
  import opened Money
  import opened TradingModel

  datatype FsmState =
    | StStart | StReady | StWaitPrice | StInPrice | StWaitOrderCompl | StWaitOrderFill | StWaitOrderDel
    | StResume | StStop
  {
    predicate AwaitsOrder() {
      StWaitOrderCompl? || StWaitOrderFill? || StWaitOrderDel?
    }
  }

  const EMPTY_REPORT := Report(Some(OtherStatus), Some(""), OtherAsset, 0.0, 1.0)

  class Order {
    var newClientOrderId: string
    var quantity: real
    var price: real

    constructor ()
      ensures newClientOrderId == "" && quantity == 0.0 && price == 0.0
    {
      newClientOrderId := "";
      quantity := 0.0;
      price := 0.0;
    }
  }

  class SymbolData {
    const symbol: string
    const stepSize: real
    const buyOrder: Order     // orders[0] of the source
    const sellOrder: Order    // orders[1]
    var waitOrderFill: Order
    var state: FsmState
    var oldState: FsmState
    var step: nat
    var counter: nat
    var waitPrice: bool
    var running: bool
    var changeMode: bool
    var price: seq<real>      // the latest price, then the one before it
    var trigger: seq<real>
    var tempPrice: seq<real>
    var tempTrigger: seq<real>
    var tempQuantity: real
    var report: Report
    var timerArmed: bool
    ghost var log: seq<Output>

    predicate WaitOrderAct()
      reads this, waitOrderFill
    {
      waitOrderFill.newClientOrderId != ""
    }

    function CurrentOrder(): Order
      reads this
    {
      if step == 0 then buyOrder else sellOrder
    }

    /** The fields have their shapes, whatever the state. */
    ghost predicate Shaped()
      reads this, buyOrder, sellOrder, waitOrderFill
    {
      && buyOrder != sellOrder && step < 2 && !state.StStop?
      && |price| == 2 && |trigger| == 2 && |tempPrice| == 2 && |tempTrigger| == 2
      && buyOrder.quantity == sellOrder.quantity
      && (WaitOrderAct() ==> waitOrderFill == buyOrder || waitOrderFill == sellOrder)
    }

    /** How the fields agree whenever no event is being handled. */
    ghost predicate Valid()
      reads this, buyOrder, sellOrder, waitOrderFill
    {
      && Shaped()
      && (running <==> state.StWaitPrice? || state.AwaitsOrder())
      && (waitPrice <==> state.StWaitPrice?)
      && (WaitOrderAct() <==> state.AwaitsOrder())
      && (timerArmed ==> state.StWaitOrderCompl? || state.StWaitOrderDel?)
      && (state.StWaitOrderCompl? ==> timerArmed)
      && (state.StWaitOrderCompl? || state.StWaitOrderFill? ==> waitOrderFill == CurrentOrder())
      && !state.StInPrice?
    }

    ghost function Phase(): Phase
      reads this, waitOrderFill
    {
      match state
      case StWaitPrice => Watching
      case StWaitOrderCompl => Confirming(waitOrderFill.newClientOrderId)
      case StWaitOrderFill => Filling(waitOrderFill.newClientOrderId)
      case StWaitOrderDel => Cancelling(waitOrderFill.newClientOrderId, timerArmed)
      case _ => Idle
    }

    function Staged(): Params
      requires |tempTrigger| == 2 && |tempPrice| == 2
      reads this`tempTrigger, this`tempPrice, this`tempQuantity
    {
      Params(Levels(tempTrigger[0], tempPrice[0], tempTrigger[1], tempPrice[1]), tempQuantity)
    }

    function Live(): Levels
      requires |trigger| == 2
      reads this`trigger, buyOrder`price, sellOrder`price
    {
      Levels(trigger[0], buyOrder.price, trigger[1], sellOrder.price)
    }

    ghost function Model(): Machine
      requires Shaped()
      reads this, buyOrder, sellOrder, waitOrderFill
    {
      Machine(symbol, Phase(), changeMode, if step == 0 then Buy else Sell, counter, price[0], price[1],
              Staged(), Live(), buyOrder.quantity)
    }

    constructor (symbol: string, stepSize: real)
      ensures Valid() && fresh(this) && fresh(buyOrder) && fresh(sellOrder) && fresh(waitOrderFill)
      ensures Model() == Initial(symbol) && log == []
    {
      this.symbol := symbol;
      this.stepSize := stepSize;
      var buy := new Order();
      var sell := new Order();
      buyOrder, sellOrder := buy, sell;
      var none := new Order();
      waitOrderFill := none;
      state, oldState := StStart, StStart;
      step, counter := 0, 0;
      waitPrice, running, changeMode := false, false, false;
      price, trigger, tempPrice, tempTrigger := [0.0, 0.0], [0.0, 0.0], [0.0, 0.0], [0.0, 0.0];
      tempQuantity := 0.0;
      report := EMPTY_REPORT;
      timerArmed := false;
      log := [];
    }

    // ----- State machine -----

    /** Nothing leads out of the end state. */
    method SetState(st: FsmState)
      modifies this`state, this`oldState
      ensures if old(state).StStop? then state == old(state) && oldState == old(oldState)
              else state == st && oldState == old(state)
    {
      if state != StStop {
        oldState := state;
        state := st;
      }
    }

    /** Runs the handler of the current state; StStart has none. */
    method FsmRun()
      requires state.StInPrice? ==> PlacingOrder()
      requires state.StResume? ==> Stopping()
      requires !state.StInPrice? && !state.StResume? ==> Valid()
      modifies this, buyOrder, sellOrder
      ensures Valid()
      ensures old(state).StStart? || old(state).StReady? ==> Model() == old(Model()) && log == old(log)
      ensures old(state).StWaitPrice? ==>
                var r := Watch(old(Model()));
                Model() == r.next && log == old(log) + r.out
      ensures old(state).StInPrice? ==>
                var r := Place(old(Model()));
                Model() == r.next && log == old(log) + r.out
      ensures old(state).AwaitsOrder() ==>
                var r := AfterReport(old(Model()), old(report));
                Model() == r.next && log == old(log) + r.out
      ensures old(state).StResume? ==> Model() == Halt(old(Model())) && log == old(log)
      decreases if state == StWaitPrice || state == StWaitOrderDel then 3 else 1, 0
    {
      match state
      case StReady => FsmReady();
      case StWaitPrice => FsmWaitPrice();
      case StInPrice => FsmInPrice();
      case StWaitOrderCompl => FsmWaitOrderCompl();
      case StWaitOrderFill => FsmWaitOrderFill();
      case StWaitOrderDel => FsmWaitOrderDel();
      case StResume => FsmResume();
      case _ =>
    }

    ghost predicate PlacingOrder()
      reads this, buyOrder, sellOrder, waitOrderFill
    {
      Shaped() && state == StInPrice && running && !waitPrice && !WaitOrderAct() && !timerArmed
    }

    ghost predicate Stopping()
      reads this, buyOrder, sellOrder, waitOrderFill
    {
      Shaped() && state == StResume && !WaitOrderAct()
    }

    method FsmReady()
    {
    }

    predicate IsTriggerInPrice(val: real)
      requires |price| == 2
      reads this
    {
      if 0.0 == price[0] || 0.0 == price[1] then false
      else (val >= price[0] && val <= price[1]) || (val <= price[0] && val >= price[1])
    }

    method FsmWaitPrice()
      requires Valid() && state == StWaitPrice
      modifies this, buyOrder, sellOrder
      ensures Valid()
      ensures var r := Watch(old(Model())); Model() == r.next && log == old(log) + r.out
      decreases 2
    {
      if IsTriggerInPrice(trigger[step]) {
        waitPrice := false;
        SetState(StInPrice);
        FsmRun();
      }
    }

    method FsmInPrice()
      requires PlacingOrder()
      modifies this, buyOrder, sellOrder
      ensures Valid()
      ensures var r := Place(old(Model())); Model() == r.next && log == old(log) + r.out
      decreases 0
    {
      hide AfterReport, Watch, Crossed, Charged, OrderId;
      NameOrder();
      log := log + [Placed(CurrentOrder().newClientOrderId, if step == 0 then Buy else Sell,
                           CurrentOrder().price, CurrentOrder().quantity)];
      waitOrderFill := CurrentOrder();
      timerArmed := true;
      SetState(StWaitOrderCompl);
    }

    /** Gives the current order its id. */
    method NameOrder()
      requires PlacingOrder()
      modifies buyOrder`newClientOrderId, sellOrder`newClientOrderId
      ensures Shaped() && Model() == old(Model())
      ensures CurrentOrder().newClientOrderId == OrderId(symbol, Model().step, counter)
    {
      hide Decimal;
      if step == 1 {
        CurrentOrder().newClientOrderId := "order_" + symbol + "_to_USDT_" + Decimal(counter);
      } else if step == 0 {
        CurrentOrder().newClientOrderId := "order_USDT_to_" + symbol + "_" + Decimal(counter);
      }
    }

    method FsmWaitOrderCompl()
      requires Valid() && state == StWaitOrderCompl
      modifies this
      ensures Valid()
      ensures var r := AfterReport(old(Model()), old(report)); Model() == r.next && log == old(log) + r.out
      decreases 0
    {
      hide Watch, Charged, Place, Halt, OrderId;
      if Some(CurrentOrder().newClientOrderId) == report.clientId && Some(NEW) == report.status {
        report := EMPTY_REPORT;
        timerArmed := false;
        SetState(StWaitOrderFill);
      }
    }

    /** Stops the timer and waits for no order any more. */
    method ForgetOrder()
      requires Shaped()
      modifies this`timerArmed, this`waitOrderFill
      ensures !timerArmed && fresh(waitOrderFill) && !WaitOrderAct()
      ensures Shaped() && Model().(phase := Idle) == old(Model()).(phase := Idle)
    {
      timerArmed := false;
      waitOrderFill := new Order();
    }

    method WatchAgain()
      requires Shaped() && running && !WaitOrderAct() && !timerArmed
      modifies this`waitPrice, this`state, this`oldState
      ensures Valid() && Model() == old(Model()).(phase := Watching)
    {
      waitPrice := true;
      SetState(StWaitPrice);
    }

    /** Enters the resting state and runs its handler. */
    method Finish()
      requires Shaped() && !WaitOrderAct()
      modifies this, buyOrder, sellOrder
      ensures Valid() && Model() == Halt(old(Model())) && log == old(log)
      decreases 1, 1
    {
      hide AfterReport, Watch, Place;
      SetState(StResume);
      FsmRun();
    }

    /** The order is no longer waited for, and the other side is next. */
    method CloseOrder()
      requires Shaped() && state.StWaitOrderFill?
      modifies this`timerArmed, this`waitOrderFill, this`step, this`counter
      ensures !timerArmed && fresh(waitOrderFill) && !WaitOrderAct() && Shaped()
      ensures var was := old(Model());
              Model().(phase := Idle) == was.(phase := Idle, step := was.step.Other(),
                                              counter := if was.step.Sell? then was.counter + 1 else was.counter)
    {
      ForgetOrder();
      if step == 0 {
        step := 1;
      } else if step == 1 {
        step := 0;
        counter := counter + 1;
      }
    }

    /** The commission of the report lowers both quantities, unless it was paid in BNB. */
    method CorrectQuantity()
      requires Shaped()
      modifies buyOrder`quantity, sellOrder`quantity
      ensures buyOrder.quantity == sellOrder.quantity
      ensures var was, charge := old(Model()), report.Charge();
              Shaped() && Model() ==
                was.(quantity := if charge.Some? then Charged(was.quantity, charge.value) else was.quantity)
    {
      if report.asset.USDT? {
        var cmsn := report.commission / report.price;
        buyOrder.quantity := CurrentOrder().quantity - cmsn;
        var rounded := RoundAtStep(buyOrder.quantity, stepSize);
        buyOrder.quantity := rounded;
        sellOrder.quantity := buyOrder.quantity;
      } else if !report.asset.BNB? {
        buyOrder.quantity := CurrentOrder().quantity - report.commission;
        var rounded := RoundAtStep(buyOrder.quantity, stepSize);
        buyOrder.quantity := rounded;
        sellOrder.quantity := buyOrder.quantity;
      }
    }

    method FsmWaitOrderFill()
      requires Valid() && state == StWaitOrderFill
      modifies this, buyOrder, sellOrder
      ensures Valid()
      ensures var id := old(waitOrderFill.newClientOrderId);
              if old(report).Says(FILLED, id)
              then Model() == AfterFill(old(Model()), old(report).Charge())
                   && log == old(log) + [Filled(id, old(Model()).step, old(report).Charge())]
              else Model() == old(Model()) && log == old(log)
      decreases 0
    {
      hide Charged, AfterReport, Watch, Place, Crossed, OrderId;
      assert Model().step == if step == 0 then Buy else Sell;
      if Some(CurrentOrder().newClientOrderId) == report.clientId && Some(FILLED) == report.status {
        hide Model;
        log := log + [Filled(waitOrderFill.newClientOrderId, if step == 0 then Buy else Sell, report.Charge())];
        CloseOrder();
        CorrectQuantity();
        WatchAgain();
      }
    }

    method FsmWaitOrderDel()
      requires Valid() && state == StWaitOrderDel
      modifies this, buyOrder, sellOrder
      ensures Valid()
      ensures var r := AfterReport(old(Model()), old(report)); Model() == r.next && log == old(log) + r.out
      decreases 2
    {
      hide Watch, Place, AfterFill, Crossed, OrderId, Charged;
      if Some(CANCELED) == report.status {
        log := log + [Cancelled(waitOrderFill.newClientOrderId, report.clientId)];
        ForgetOrder();
        if changeMode {
          hide Model;
          WatchAgain();
          LeaveChangeMode();
        } else {
          hide Model;
          Finish();
        }
      }
    }

    method LeaveChangeMode()
      requires Valid()
      modifies this`changeMode
      ensures Valid() && Model() == old(Model()).(changeMode := false)
    {
      changeMode := false;
    }

    method FsmResume()
      requires Stopping()
      modifies this
      ensures Valid() && state == StResume
      ensures Model() == Halt(old(Model())) && log == old(log)
      decreases 0
    {
      timerArmed := false;
      Reset();
      running := false;
    }

    method Reset()
      modifies this`waitPrice, this`step
      ensures !waitPrice && step == 0
    {
      waitPrice := false;
      step := 0;
    }

    // ----- Events -----

    method OnTradeData(d: TradeData)
      requires Valid()
      modifies this, buyOrder, sellOrder
      ensures Valid()
      ensures var r := Step(old(Model()), Data(d)); Model() == r.next && log == old(log) + r.out
    {
      hide AfterReport, Watch, Place;
      if d.isSet {
        var complete := TakeMessage(d);
        if complete && !running {
          SetState(StReady);
          FsmRun();
        }
      }
    }

    /** Copies the message field by field; the first missing field ends it. */
    method TakeMessage(d: TradeData) returns (complete: bool)
      requires Shaped() && d.isSet
      modifies this`tempTrigger, this`tempPrice, this`tempQuantity
      ensures |tempTrigger| == 2 && |tempPrice| == 2 && Staged() == Stage(old(Staged()), d)
    {
      complete := false;
      if d.buyTrigger.None? { return; }
      tempTrigger := tempTrigger[0 := d.buyTrigger.value];
      if d.buyPrice.None? { return; }
      tempPrice := tempPrice[0 := d.buyPrice.value];
      if d.sellTrigger.None? { return; }
      tempTrigger := tempTrigger[1 := d.sellTrigger.value];
      if d.sellPrice.None? { return; }
      tempPrice := tempPrice[1 := d.sellPrice.value];
      if d.quantity.None? { return; }
      tempQuantity := d.quantity.value;
      complete := true;
    }

    method OnTradeRun(go: bool, side: Side)
      requires Valid()
      modifies this, buyOrder, sellOrder
      ensures Valid()
      ensures var r := Step(old(Model()), TradeRun(go, side)); Model() == r.next && log == old(log) + r.out
    {
      hide AfterReport, Watch, Place;
      if !running {
        if go {
          StartTrading(side);
        }
      } else if go {
        ChangeData(side);
      } else {
        if WaitOrderAct() {
          RequestDelete();
        } else {
          Finish();
        }
      }
    }

    method StartTrading(side: Side)
      requires Valid() && !running
      modifies this, buyOrder, sellOrder
      ensures Valid()
      ensures var r := Watch(Commit(old(Model()), side).(phase := Watching));
              Model() == r.next && log == old(log) + r.out
    {
      hide AfterReport, Watch, Place;
      TakeStagedData(side);
      running := true;
      waitPrice := true;
      SetState(StWaitPrice);
      FsmRun();
    }

    method ChangeData(side: Side)
      requires Valid() && running
      modifies this, buyOrder, sellOrder
      ensures Valid()
      ensures var r := AfterCommand(old(Model()), true, side); Model() == r.next && log == old(log) + r.out
    {
      hide Watch;
      TakeStagedData(side);
      if WaitOrderAct() {
        changeMode := true;
        RequestDelete();
      }
    }

    method RequestDelete()
      requires Shaped() && state.AwaitsOrder() && (state.StWaitOrderCompl? ==> timerArmed)
      requires timerArmed ==> state.StWaitOrderCompl? || state.StWaitOrderDel?
      modifies this`log, this`state, this`oldState
      ensures state.StWaitOrderDel?
      ensures var r := AskCancel(old(Model())); Model() == r.next && log == old(log) + r.out
    {
      log := log + [DeleteSent(waitOrderFill.newClientOrderId)];
      SetState(StWaitOrderDel);
    }

    method TakeStagedData(side: Side)
      requires Shaped()
      modifies this`trigger, this`step, buyOrder`price, buyOrder`quantity, sellOrder`price, sellOrder`quantity
      ensures Shaped() && Model() == Commit(old(Model()), side)
    {
      trigger := trigger[0 := tempTrigger[0]];
      trigger := trigger[1 := tempTrigger[1]];
      buyOrder.price := tempPrice[0];
      sellOrder.price := tempPrice[1];
      buyOrder.quantity := tempQuantity;
      sellOrder.quantity := tempQuantity;
      step := if side.Buy? then 0 else 1;
    }

    method OnPrice(p: real)
      requires Valid()
      modifies this, buyOrder, sellOrder
      ensures Valid()
      ensures var r := Step(old(Model()), Price(p)); Model() == r.next && log == old(log) + r.out
    {
      hide AfterReport, Watch, Place;
      price := price[..|price| - 1];
      price := [p] + price;
      if waitPrice {
        FsmRun();
      }
    }

    method OnOrderReport(jreport: Report)
      requires Valid()
      modifies this, buyOrder, sellOrder
      ensures Valid()
      ensures var r := Step(old(Model()), OrderReport(jreport)); Model() == r.next && log == old(log) + r.out
    {
      report := jreport;
      if !state.StResume? {
        FsmRun();
      }
    }

    /** Called by the timer, so only while it is armed; it fires once. */
    method OnOrderCompleteTimeout()
      requires Valid() && timerArmed
      modifies this, buyOrder, sellOrder
      ensures Valid()
      ensures var r := Step(old(Model()), Timeout); Model() == r.next && log == old(log) + r.out
    {
      hide AfterReport, Watch, Place;
      log := log + [TimedOut(waitOrderFill.newClientOrderId)];
      ForgetOrder();
      Finish();
    }
  }
}
