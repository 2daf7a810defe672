/** The object that runs the dialog: it changes its fields question by question and calls itself again
    where the next question needs no answer. */
module OrderDialogEngine {
  import opened Wrappers
  import opened OrderDialog

  /** How far a state is from one in which the engine returns without calling itself. */
  function Rank(state: State): nat {
    match state
    case DelName => 3
    case List => 3
    case Name => 2
    case Symbol => 2
    case Quantity => 2
    case TimeInForce => 2
    case DelSymbol => 2
    case ListSymbol => 2
    case Idle => 0
    case _ => 1
  }

  function HelpTurns(state: State, input: Input): nat {
    if (state.Type? || state.TimeInForce?) && AsksHelp(input.text) then 1 else 0
  }

  class TOrder {
    const symbols: seq<string>
    var state: State
    var prevState: State
    var repeat: bool
    var data: string
    var order: Order
    var view: map<Field, string>
    /** The chat's input mode is the one whose texts go to this dialog. */
    var listening: bool
    ghost var answers: map<Field, Input>
    ghost var log: seq<Output>

    ghost function Model(): Dialog
      reads this
    {
      Dialog(symbols, state, prevState, repeat, data, order, view, listening, answers)
    }

    constructor (symbols: seq<string>, order: Order)
      ensures Model() == Initial(symbols, order) && log == []
    {
      this.symbols := symbols;
      state, prevState, repeat, data := Idle, Idle, false, "";
      this.order := order;
      view := BlankView();
      listening := false;
      answers, log := map[], [];
    }

    method SetState(next: State)
      modifies `state, `prevState
      ensures Model() == Ask(old(Model()), next, old(state))
    {
      prevState := state;
      state := next;
    }

    method ResetView()
      modifies `view
      ensures view == BlankView()
    {
      view := BlankView();
    }

    /** Puts an answer into the order and shows it. */
    method Record(field: Field, input: Input, shown: string, changed: Order)
      modifies `order, `view, `answers
      ensures Model() == Fill(old(Model()), field, input, shown, changed)
    {
      order := changed;
      view := view[field := shown];
      answers := answers[field := input];
    }

    /** Only a number is taken. */
    method InputDouble(input: Input, field: Field) returns (result: bool)
      requires field in {FQuantity, FPrice, FStopPrice}
      modifies `order, `view, `answers
      ensures result <==> input.number.Some?
      ensures Model() ==
              if !result then old(Model())
              else Fill(old(Model()), field, input, input.text,
                        if field.FQuantity? then old(order).(quantity := input.number.value)
                        else if field.FPrice? then old(order).(price := input.number.value)
                        else old(order).(stopPrice := input.number.value))
    {
      if input.number.None? { return false; }
      if field.FQuantity? {
        order := order.(quantity := input.number.value);
      } else if field.FPrice? {
        order := order.(price := input.number.value);
      } else {
        order := order.(stopPrice := input.number.value);
      }
      view := view[field := input.text];
      answers := answers[field := input];
      return true;
    }

    /** What is left to do after a part of the engine leads to what the whole dialog does; `again` says
        that the engine still has to be entered for the next state. */
    ghost predicate Completes(was: Dialog, input: Input, logged: seq<Output>, again: bool)
      reads this
      requires Ready(was) && (again ==> Ready(Model()))
    {
      var rest := if again then Answer(Model(), Input(data, None)) else Result(Model(), []);
      rest.next == Answer(was, input).next && log + rest.out == logged + Answer(was, input).out
    }

    method TakeName(input: Input) returns (again: bool)
      requires Ready(Model()) && state == Name
      modifies this
      ensures again ==> Ready(Model()) && Rank(state) < Rank(old(state)) && HelpTurns(state, Input(data, None)) == 0
      ensures Completes(old(Model()), input, old(log), again)
    {
      hide FirstArg, ToType, ToSide, ToTif, BlankView, AfterHelp;
      hide AtStart, AtType, AtSide, AtQuantity, AtStopPrice, AtPrice, AtTimeInForce, AtOrderResult, AtDelete,
        AtDelName, AtList, Deleted, Listed;
      if !repeat {
        Record(FName, input, input.text, order.(name := input.text));
      } else {
        repeat := false;
      }
      if |symbols| > 1 {
        SetState(Symbol);
        return false;
      }
      Record(FSymbol, Input(symbols[0], None), symbols[0] + "USDT", order.(symbol := symbols[0] + "USDT"));
      SetState(InputType);
      return true;
    }

    method TakeSymbol(input: Input) returns (again: bool)
      requires Ready(Model()) && state == Symbol
      modifies this
      ensures again ==> Ready(Model()) && Rank(state) < Rank(old(state)) && HelpTurns(state, Input(data, None)) == 0
      ensures Completes(old(Model()), input, old(log), again)
    {
      hide FirstArg, ToType, ToSide, ToTif, BlankView, AfterHelp;
      hide AtStart, AtName, AtType, AtSide, AtQuantity, AtStopPrice, AtPrice, AtTimeInForce, AtOrderResult,
        AtDelete, AtDelName, AtList, Deleted, Listed;
      Record(FSymbol, input, FirstArg(input.text) + "USDT", order.(symbol := FirstArg(input.text) + "USDT"));
      SetState(InputType);
      return true;
    }

    method TakeType(input: Input) returns (again: bool)
      requires Ready(Model()) && state == Type
      modifies this
      ensures again ==> Ready(Model()) && Rank(state) < Rank(old(state)) && HelpTurns(state, Input(data, None)) == 0
      ensures Completes(old(Model()), input, old(log), again)
      decreases HelpTurns(state, input), Rank(state), 0
    {
      hide FirstArg, ToType, ToSide, ToTif, BlankView, AfterHelp;
      hide AtStart, AtName, AtSide, AtQuantity, AtStopPrice, AtPrice, AtTimeInForce, AtOrderResult, AtDelete,
        AtDelName, AtList, AnswerSymbol, Deleted, Listed;
      again := false;
      var word := FirstArg(input.text);
      if word == "$h" {
        Help();
        return;
      }
      Record(FType, input, word, order.(orderType := ToType(word)));
      SetState(Side);
    }

    method TakeSide(input: Input) returns (again: bool)
      requires Ready(Model()) && state == Side
      modifies this
      ensures again ==> Ready(Model()) && Rank(state) < Rank(old(state)) && HelpTurns(state, Input(data, None)) == 0
      ensures Completes(old(Model()), input, old(log), again)
    {
      hide FirstArg, ToType, ToSide, ToTif, BlankView, AfterHelp;
      hide AtStart, AtName, AtType, AtQuantity, AtStopPrice, AtPrice, AtTimeInForce, AtOrderResult, AtDelete,
        AtDelName, AtList, AnswerSymbol, Deleted, Listed;
      again := false;
      if !repeat {
        var word := FirstArg(input.text);
        Record(FSide, input, word, order.(side := ToSide(word)));
      } else {
        repeat := false;
      }
      SetState(Quantity);
    }

    method TakeQuantity(input: Input) returns (again: bool)
      requires Ready(Model()) && state == Quantity
      modifies this
      ensures again ==> Ready(Model()) && Rank(state) < Rank(old(state)) && HelpTurns(state, Input(data, None)) == 0
      ensures Completes(old(Model()), input, old(log), again)
    {
      hide FirstArg, ToType, ToSide, ToTif, BlankView, AfterHelp;
      hide AtStart, AtName, AtType, AtSide, AtStopPrice, AtPrice, AtTimeInForce, AtOrderResult, AtDelete,
        AtDelName, AtList, AnswerSymbol, Deleted, Listed;
      var ok := InputDouble(input, FQuantity);
      if !ok { return false; }
      if order.orderType.MARKET? {
        SetState(OrderReady);
        return true;
      }
      SetState(if order.orderType.LIMIT? then Price else StopPrice);
      return false;
    }

    method TakePrice(input: Input) returns (again: bool)
      requires Ready(Model()) && state in {StopPrice, Price}
      modifies this
      ensures again ==> Ready(Model()) && Rank(state) < Rank(old(state)) && HelpTurns(state, Input(data, None)) == 0
      ensures Completes(old(Model()), input, old(log), again)
    {
      hide FirstArg, ToType, ToSide, ToTif, BlankView, AfterHelp;
      hide AtStart, AtName, AtType, AtSide, AtQuantity, AtTimeInForce, AtOrderResult, AtDelete, AtDelName,
        AtList, AnswerSymbol, Deleted, Listed;
      if repeat {
        repeat := false;
      } else {
        var ok := InputDouble(input, if state == Price then FPrice else FStopPrice);
        if !ok { return false; }
      }
      if state == StopPrice {
        SetState(if order.orderType.STOP_LOSS_LIMIT? || order.orderType.TAKE_PROFIT_LIMIT? then Price else TimeInForce);
      } else if order.orderType.LIMIT? {
        SetState(TimeInForce);
      }
      return false;
    }

    /** The end of an order dialog. */
    method Finish(input: Input) returns (again: bool)
      requires Ready(Model()) && state in {TimeInForce, OrderReady, OrderResult}
      modifies this
      ensures again ==> Ready(Model()) && Rank(state) < Rank(old(state)) && HelpTurns(state, Input(data, None)) == 0
      ensures Completes(old(Model()), input, old(log), again)
      decreases HelpTurns(state, input), Rank(state), 0
    {
      hide FirstArg, ToType, ToSide, ToTif, BlankView, AfterHelp;
      hide AtStart, AtName, AtType, AtSide, AtQuantity, AtStopPrice, AtPrice, AtDelete, AtDelName, AtList,
        AnswerSymbol, Deleted, Listed;
      var word := FirstArg(input.text);
      match state {
        case TimeInForce =>
          if word == "$h" {
            Help();
            return false;
          }
          Record(FTif, input, word, order.(tif := ToTif(word)));
          SetState(OrderReady);
          return true;
        case OrderReady =>
          SetState(OrderResult);
          return false;
        case OrderResult =>
          if word == "$e" {
            log := log + [Execute(order)];
          } else if word == "$c" {
            log := log + [Cancel];
          }
          listening := false;
          return false;
      }
    }

    /** The question which order to delete. */
    method TakeDeletion(input: Input) returns (again: bool)
      requires Ready(Model()) && state in {Delete, DelName}
      modifies this
      ensures again ==> Ready(Model()) && Rank(state) < Rank(old(state)) && HelpTurns(state, Input(data, None)) == 0
      ensures Completes(old(Model()), input, old(log), again)
    {
      hide FirstArg, ToType, ToSide, ToTif, BlankView, AfterHelp;
      hide AtStart, AtName, AtType, AtSide, AtQuantity, AtStopPrice, AtPrice, AtTimeInForce, AtOrderResult,
        AtList, AnswerSymbol, Listed;
      match state {
        case Delete =>
          if symbols == [] {
            listening := false;
            return false;
          }
          SetState(DelName);
          return false;
        case DelName =>
          order := order.(name := input.text);
          if |symbols| > 1 {
            SetState(DelSymbol);
            return false;
          }
          data := symbols[0];
          SetState(DelSymbol);
          return true;
      }
    }

    /** The deletion itself. */
    method SendDeletion(input: Input) returns (again: bool)
      requires Ready(Model()) && state in {DelSymbol, DelReady}
      modifies this
      ensures again ==> Ready(Model()) && Rank(state) < Rank(old(state)) && HelpTurns(state, Input(data, None)) == 0
      ensures Completes(old(Model()), input, old(log), again)
    {
      hide FirstArg, ToType, ToSide, ToTif, BlankView, AfterHelp;
      hide AtStart, AtName, AtType, AtSide, AtQuantity, AtStopPrice, AtPrice, AtTimeInForce, AtOrderResult,
        AtDelete, AtDelName, AtList, AnswerSymbol, Listed;
      match state {
        case DelSymbol =>
          order := order.(symbol := input.text + "USDT");
          SetState(DelReady);
          return true;
        case DelReady =>
          log := log + [DeleteOrder(order)];
          listening := false;
          return false;
      }
    }

    /** The dialog that lists the orders. */
    method TakeList(input: Input) returns (again: bool)
      requires Ready(Model()) && state in {List, ListSymbol}
      modifies this
      ensures again ==> Ready(Model()) && Rank(state) < Rank(old(state)) && HelpTurns(state, Input(data, None)) == 0
      ensures Completes(old(Model()), input, old(log), again)
    {
      hide FirstArg, ToType, ToSide, ToTif, BlankView, AfterHelp;
      hide AtStart, AtName, AtType, AtSide, AtQuantity, AtStopPrice, AtPrice, AtTimeInForce, AtOrderResult,
        AtDelete, AtDelName, AnswerSymbol, Deleted;
      match state {
        case List =>
          if |symbols| > 1 {
            SetState(ListSymbol);
            return false;
          }
          data := symbols[0];
          SetState(ListSymbol);
          return true;
        case ListSymbol =>
          SetState(Idle);
          log := log + [RequestList(input.text)];
          listening := false;
          return true;
      }
    }

    /** Takes one input. The state decides what it means; where the next state needs no input the engine
        is entered again. */
    method Engine(input: Input)
      requires Ready(Model())
      modifies this
      ensures Model() == Answer(old(Model()), input).next
      ensures log == old(log) + Answer(old(Model()), input).out
      decreases HelpTurns(state, input), Rank(state), 1
    {
      var again := false;
      if state == Idle {
      } else if state == Start {
        if symbols == [] {
          listening := false;
        } else {
          ResetView();
          SetState(Name);
        }
      } else if state == InputType {
        SetState(Type);
      } else {
        hide Answer;
        if state == Name {
          again := TakeName(input);
        } else if state == Symbol {
          again := TakeSymbol(input);
        } else if state == Type {
          again := TakeType(input);
        } else if state == Side {
          again := TakeSide(input);
        } else if state == Quantity {
          again := TakeQuantity(input);
        } else if state in {StopPrice, Price} {
          again := TakePrice(input);
        } else if state in {TimeInForce, OrderReady, OrderResult} {
          again := Finish(input);
        } else if state in {List, ListSymbol} {
          again := TakeList(input);
        } else if state in {Delete, DelName} {
          again := TakeDeletion(input);
        } else {
          again := SendDeletion(input);
        }
        if again { Engine(Input(data, None)); }
      }
    }

    /** Nothing happens where there is no help to give. */
    method Help()
      requires Ready(Model())
      modifies this
      ensures var was := old(Model());
              if was.state.Type? || was.state.TimeInForce? then
                Model() == AfterHelp(was).next && log == old(log) + AfterHelp(was).out
              else Model() == was && log == old(log)
      decreases 1, 0
    {
      if state != Type && state != TimeInForce { return; }
      SetState(prevState);
      repeat := true;
      Engine(Input("", None));
    }

    method StartOrder()
      requires Ready(Model())
      modifies this
      ensures Model() == Step(old(Model()), NewOrder).next && log == old(log) + Step(old(Model()), NewOrder).out
    {
      state := Start;
      listening := true;
      answers := map[];
      Engine(Input("", None));
    }

    method Del()
      requires Ready(Model())
      modifies this
      ensures Model() == Step(old(Model()), NewDelete).next && log == old(log) + Step(old(Model()), NewDelete).out
    {
      state := Delete;
      listening := true;
      Engine(Input("", None));
    }

    method ListOrders()
      requires Ready(Model()) && symbols != []
      modifies this
      ensures Model() == Step(old(Model()), NewList).next && log == old(log) + Step(old(Model()), NewList).out
    {
      state := List;
      listening := true;
      Engine(Input("", None));
    }
  }
}
