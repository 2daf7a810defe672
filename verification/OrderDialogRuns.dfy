/** Whole dialogs: which fields an order that is sent was really asked for, what the help texts leave
    behind, and how often a dialog has an outcome. */
module OrderDialogRuns {
  import opened Wrappers
  import opened OrderDialog

  function Begin(d: Dialog): (r: Dialog)
    requires Ready(d)
    ensures Ready(r) && r.symbols == d.symbols
  {
    Step(d, NewOrder).next
  }

  function After(d: Dialog, inputs: seq<Input>): (r: Dialog)
    requires Ready(d)
    ensures Ready(r) && r.symbols == d.symbols
    decreases |inputs|
  {
    if inputs == [] then d
    else Answer(After(d, inputs[..|inputs| - 1]), inputs[|inputs| - 1]).next
  }

  function Outputs(d: Dialog, inputs: seq<Input>): seq<Output>
    requires Ready(d)
    decreases |inputs|
  {
    if inputs == [] then []
    else
      var rest := inputs[..|inputs| - 1];
      Outputs(d, rest) + Answer(After(d, rest), inputs[|inputs| - 1]).out
  }

  /** The explanation of the order types was asked for at some point. */
  predicate Helped(d: Dialog, inputs: seq<Input>)
    requires Ready(d)
    decreases |inputs|
  {
    inputs != [] &&
    var rest := inputs[..|inputs| - 1];
    Helped(d, rest) || (After(d, rest).state.Type? && AsksHelp(inputs[|inputs| - 1].text))
  }

  // ----- Which questions have been answered -----

  function PriceFields(t: OrderType): set<Field> {
    match t
    case MARKET => {}
    case LIMIT => {FPrice}
    case _ => {FStopPrice}
  }

  function Common(): set<Field> {
    {FName, FSymbol, FType, FSide}
  }

  /** The fields an order of this type is asked for. */
  function Needed(t: OrderType): set<Field> {
    Common() + {FQuantity} + PriceFields(t) + if t.MARKET? then {} else {FTif}
  }

  function Skipped(repeat: bool, helped: bool): set<Field> {
    (if repeat then {FName} else {}) + (if helped then {FSide} else {})
  }

  function Asked(state: State, t: OrderType): set<Field> {
    match state
    case Symbol => {FName}
    case Type => {FName, FSymbol}
    case Side => {FName, FSymbol, FType}
    case Quantity => Common()
    case StopPrice => Common() + {FQuantity}
    case Price => Common() + {FQuantity}
    case TimeInForce => Common() + {FQuantity} + PriceFields(t)
    case OrderResult => Needed(t)
    case _ => {}
  }

  /** The states of an order dialog with the order type each allows. A STOP_LOSS_LIMIT order stays at
      the price question. */
  predicate Fits(d: Dialog) {
    match d.state
    case Start => d.symbols == []
    case Name => true
    case Symbol => |d.symbols| > 1
    case Type => d.prev.InputType?
    case Side => !d.order.orderType.TAKE_PROFIT_LIMIT?
    case Quantity => !d.order.orderType.TAKE_PROFIT_LIMIT?
    case StopPrice => d.order.orderType !in {TAKE_PROFIT_LIMIT, LIMIT, MARKET}
    case Price => d.order.orderType in {LIMIT, STOP_LOSS_LIMIT}
    case TimeInForce =>
      && d.order.orderType !in {TAKE_PROFIT_LIMIT, MARKET, STOP_LOSS_LIMIT}
      && d.prev == if d.order.orderType.LIMIT? then Price else StopPrice
    case OrderResult => d.order.orderType !in {TAKE_PROFIT_LIMIT, STOP_LOSS_LIMIT}
    case _ => false
  }

  /** `repeat` and `helped` say whether the flag was set when the dialog began, and whether the
      explanation of the types was asked for in it. */
  predicate Answered(d: Dialog, repeat: bool, helped: bool) {
    && Fits(d)
    && (d.state in {Start, Name, Symbol} ==> !helped)
    && (d.repeat <==> if d.state in {Start, Name} then repeat else d.state in {Type, Side} && helped)
    && (!(d.state.Price? && d.order.orderType.STOP_LOSS_LIMIT?) ==>
        d.answers.Keys == Asked(d.state, d.order.orderType) - Skipped(repeat, helped))
  }

  lemma BeginAnswered(d: Dialog)
    requires Ready(d)
    ensures Answered(Begin(d), d.repeat, false)
  {
    assert Begin(d).answers.Keys == {};
  }

  /** Asking for the explanation of the types only raises the flag. */
  lemma HelpAtType(d: Dialog, input: Input)
    requires Ready(d) && Fits(d) && d.state.Type? && AsksHelp(input.text)
    ensures Answer(d, input) == Result(d.(repeat := true), [])
  {
    var asked := d.(state := InputType, prev := Type, repeat := true);
    assert Answer(d, input) == AfterHelp(d);
    assert AfterHelp(d) == Answer(asked, Input("", None));
    assert Answer(asked, Input("", None)) == Result(Ask(asked, Type, InputType), []);
  }

  /** Asking for the explanation of the validity changes nothing at all. */
  lemma HelpAtTimeInForce(d: Dialog, input: Input)
    requires Ready(d) && Fits(d) && d.state.TimeInForce? && !d.repeat && AsksHelp(input.text)
    ensures Answer(d, input) == Result(d, [])
  {
    var asked := d.(state := d.prev, prev := TimeInForce, repeat := true);
    assert Answer(d, input) == AfterHelp(d);
    assert AfterHelp(d) == Answer(asked, Input("", None));
    assert Answer(asked, Input("", None)) == Result(Ask(asked.(repeat := false), TimeInForce, d.prev), []);
  }

  lemma FirstQuestions(d: Dialog, input: Input, repeat: bool, helped: bool)
    requires Ready(d) && Answered(d, repeat, helped) && d.state in {Start, Name, Symbol}
    ensures Answered(Answer(d, input).next, repeat, helped)
  {}

  lemma TypeQuestion(d: Dialog, input: Input, repeat: bool, helped: bool)
    requires Ready(d) && Answered(d, repeat, helped) && d.state.Type?
    ensures Answered(Answer(d, input).next, repeat, helped || AsksHelp(input.text))
  {
    if AsksHelp(input.text) { HelpAtType(d, input); }
  }

  lemma SideQuestion(d: Dialog, input: Input, repeat: bool, helped: bool)
    requires Ready(d) && Answered(d, repeat, helped) && d.state.Side?
    ensures Answered(Answer(d, input).next, repeat, helped)
  {}

  lemma KeysGrow(answers: map<Field, Input>, asked: set<Field>, repeat: bool, helped: bool, field: Field, input: Input)
    requires answers.Keys == asked - Skipped(repeat, helped) && field !in {FName, FSide}
    ensures answers[field := input].Keys == asked + {field} - Skipped(repeat, helped)
  {
    assert answers[field := input].Keys == answers.Keys + {field};
  }

  lemma QuantityQuestion(d: Dialog, input: Input, repeat: bool, helped: bool)
    requires Ready(d) && Answered(d, repeat, helped) && d.state.Quantity?
    ensures Answered(Answer(d, input).next, repeat, helped)
  {
    hide Common, Skipped;
    KeysGrow(d.answers, Common(), repeat, helped, FQuantity, input);
    assert Common() + {FQuantity} + {} + {} == Common() + {FQuantity};
  }

  lemma Prices(d: Dialog, input: Input, repeat: bool, helped: bool)
    requires Ready(d) && Answered(d, repeat, helped) && d.state in {StopPrice, Price}
    ensures Answered(Answer(d, input).next, repeat, helped)
  {
    hide Common, Skipped;
    if !d.state.Price? || d.order.orderType.LIMIT? {
      KeysGrow(d.answers, Common() + {FQuantity}, repeat, helped, if d.state.Price? then FPrice else FStopPrice, input);
    }
  }

  lemma LastQuestions(d: Dialog, input: Input, repeat: bool, helped: bool)
    requires Ready(d) && Answered(d, repeat, helped) && d.state in {TimeInForce, OrderResult}
    ensures Answered(Answer(d, input).next, repeat, helped)
  {
    if d.state.TimeInForce? && AsksHelp(input.text) { HelpAtTimeInForce(d, input); }
  }

  /** One answer moves every such fact on. */
  lemma AnswerAnswered(d: Dialog, input: Input, repeat: bool, helped: bool)
    requires Ready(d) && Answered(d, repeat, helped)
    ensures Answered(Answer(d, input).next, repeat, helped || (d.state.Type? && AsksHelp(input.text)))
  {
    hide Answer;
    match d.state
    case Start => FirstQuestions(d, input, repeat, helped);
    case Name => FirstQuestions(d, input, repeat, helped);
    case Symbol => FirstQuestions(d, input, repeat, helped);
    case Type => TypeQuestion(d, input, repeat, helped);
    case Side => SideQuestion(d, input, repeat, helped);
    case Quantity => QuantityQuestion(d, input, repeat, helped);
    case StopPrice => Prices(d, input, repeat, helped);
    case Price => Prices(d, input, repeat, helped);
    case _ => LastQuestions(d, input, repeat, helped);
  }

  lemma {:induction false} RunAnswered(before: Dialog, inputs: seq<Input>)
    requires Ready(before)
    ensures Answered(After(Begin(before), inputs), before.repeat, Helped(Begin(before), inputs))
    decreases |inputs|
  {
    BeginAnswered(before);
    if inputs != [] {
      var rest := inputs[..|inputs| - 1];
      RunAnswered(before, rest);
      AnswerAnswered(After(Begin(before), rest), inputs[|inputs| - 1], before.repeat, Helped(Begin(before), rest));
    }
  }

  // ----- What the order holds -----

  /** With one symbol on the list it is taken whole; otherwise the first word of the answer. */
  function Shown(symbols: seq<string>, field: Field, answer: Input): string {
    match field
    case FSymbol => (if |symbols| > 1 then FirstArg(answer.text) else answer.text) + "USDT"
    case FType => FirstArg(answer.text)
    case FSide => FirstArg(answer.text)
    case FTif => FirstArg(answer.text)
    case _ => answer.text
  }

  function Text(shown: map<Field, string>, field: Field, otherwise: string): string {
    if field in shown then shown[field] else otherwise
  }

  function Amount(answers: map<Field, Input>, field: Field, otherwise: real): real {
    if field in answers && answers[field].number.Some? then answers[field].number.value else otherwise
  }

  function ShownAll(symbols: seq<string>, answers: map<Field, Input>): map<Field, string> {
    map f | f in answers :: Shown(symbols, f, answers[f])
  }

  /** The earlier order with every answered field replaced. */
  function Applied(o: Order, symbols: seq<string>, answers: map<Field, Input>): Order {
    var shown := ShownAll(symbols, answers);
    Order(Text(shown, FSymbol, o.symbol), Text(shown, FName, o.name),
          if FSide in shown then ToSide(shown[FSide]) else o.side,
          if FType in shown then ToType(shown[FType]) else o.orderType,
          if FTif in shown then ToTif(shown[FTif]) else o.tif,
          Amount(answers, FQuantity, o.quantity), Amount(answers, FPrice, o.price),
          Amount(answers, FStopPrice, o.stopPrice))
  }

  predicate Numbers(answers: map<Field, Input>) {
    forall f | f in {FQuantity, FPrice, FStopPrice} && f in answers :: answers[f].number.Some?
  }

  /** The order holds the answers and what it held before; the view shows the answers and no more. */
  predicate Faithful(d: Dialog, o: Order) {
    && d.order == Applied(o, d.symbols, d.answers)
    && Numbers(d.answers)
    && (d.state.Start? || d.view == BlankView() + ShownAll(d.symbols, d.answers))
  }

  lemma ShownFilled(symbols: seq<string>, answers: map<Field, Input>, field: Field, input: Input)
    ensures ShownAll(symbols, answers[field := input])
         == ShownAll(symbols, answers)[field := Shown(symbols, field, input)]
  {
    hide Shown;
  }

  lemma AppliedFilled(o: Order, symbols: seq<string>, answers: map<Field, Input>, field: Field, input: Input)
    requires field in {FQuantity, FPrice, FStopPrice} ==> input.number.Some?
    ensures Applied(Applied(o, symbols, answers), symbols, map[field := input])
         == Applied(o, symbols, answers[field := input])
  {
    assert ShownAll(symbols, map[]) == map[];
    hide Shown, ShownAll, ToType, ToSide, ToTif;
    ShownFilled(symbols, answers, field, input);
    ShownFilled(symbols, map[], field, input);
    assert map[][field := input] == map[field := input];
  }

  lemma NumbersFilled(answers: map<Field, Input>, field: Field, input: Input)
    requires Numbers(answers)
    requires field in {FQuantity, FPrice, FStopPrice} ==> input.number.Some?
    ensures Numbers(answers[field := input])
  {}

  lemma ViewFilled(blank: map<Field, string>, shown: map<Field, string>, field: Field, text: string)
    ensures (blank + shown)[field := text] == blank + shown[field := text]
  {}

  /** Recording an answer keeps this. */
  lemma FillFaithful(d: Dialog, o: Order, field: Field, input: Input, order: Order)
    requires Faithful(d, o) && !d.state.Start?
    requires order == Applied(d.order, d.symbols, map[field := input])
    requires field in {FQuantity, FPrice, FStopPrice} ==> input.number.Some?
    ensures Faithful(Fill(d, field, input, Shown(d.symbols, field, input), order), o)
  {
    hide Shown, ShownAll, Applied, Numbers, BlankView;
    AppliedFilled(o, d.symbols, d.answers, field, input);
    NumbersFilled(d.answers, field, input);
    ViewFilled(BlankView(), ShownAll(d.symbols, d.answers), field, Shown(d.symbols, field, input));
    ShownFilled(d.symbols, d.answers, field, input);
  }

  /** One answer sets one field of the order. */
  lemma AppliedOnce(o: Order, symbols: seq<string>, field: Field, input: Input)
    ensures Applied(o, symbols, map[field := input]) ==
            match field {
              case FName => o.(name := input.text)
              case FSymbol => o.(symbol := Shown(symbols, field, input))
              case FType => o.(orderType := ToType(FirstArg(input.text)))
              case FSide => o.(side := ToSide(FirstArg(input.text)))
              case FTif => o.(tif := ToTif(FirstArg(input.text)))
              case FQuantity => o.(quantity := if input.number.Some? then input.number.value else o.quantity)
              case FPrice => o.(price := if input.number.Some? then input.number.value else o.price)
              case FStopPrice => o.(stopPrice := if input.number.Some? then input.number.value else o.stopPrice)
            }
  {
    hide FirstArg, ToType, ToSide, ToTif;
    assert ShownAll(symbols, map[field := input]) == map[field := Shown(symbols, field, input)];
  }

  lemma NameFaithful(d: Dialog, o: Order, input: Input)
    requires Ready(d) && Faithful(d, o) && d.state.Name?
    ensures Faithful(Answer(d, input).next, o)
  {
    hide FirstArg, Applied, ShownAll, Numbers;
    AppliedOnce(d.order, d.symbols, FName, input);
    if !d.repeat { FillFaithful(d, o, FName, input, d.order.(name := input.text)); }
    var d1 := AnswerName(d, input);
    assert Faithful(d1, o);
    if |d.symbols| == 1 {
      SymbolFaithful(d1, o, Input(d.symbols[0], None), d.symbols[0]);
    }
  }

  lemma SymbolFaithful(d: Dialog, o: Order, input: Input, symbol: string)
    requires Ready(d) && Faithful(d, o) && !d.state.Start?
    requires symbol == if |d.symbols| > 1 then FirstArg(input.text) else input.text
    ensures Faithful(AnswerSymbol(d, input, symbol), o)
  {
    hide FirstArg, Applied, ShownAll, Numbers;
    AppliedOnce(d.order, d.symbols, FSymbol, input);
    FillFaithful(d, o, FSymbol, input, d.order.(symbol := symbol + "USDT"));
  }

  lemma WordFaithful(d: Dialog, o: Order, input: Input)
    requires Ready(d) && Faithful(d, o) && d.state in {Type, Side, TimeInForce}
    requires !d.state.Side? ==> !AsksHelp(input.text)
    ensures Faithful(Answer(d, input).next, o)
  {
    hide FirstArg, Applied, ShownAll, Numbers, ToType, ToSide, ToTif;
    var word := FirstArg(input.text);
    match d.state
    case Type =>
      AppliedOnce(d.order, d.symbols, FType, input);
      FillFaithful(d, o, FType, input, d.order.(orderType := ToType(word)));
    case Side =>
      AppliedOnce(d.order, d.symbols, FSide, input);
      FillFaithful(d, o, FSide, input, d.order.(side := ToSide(word)));
    case TimeInForce =>
      AppliedOnce(d.order, d.symbols, FTif, input);
      FillFaithful(d, o, FTif, input, d.order.(tif := ToTif(word)));
  }

  lemma QuantityFaithful(d: Dialog, o: Order, input: Input)
    requires Ready(d) && Faithful(d, o) && d.state.Quantity?
    ensures Faithful(Answer(d, input).next, o)
  {
    hide FirstArg, Applied, ShownAll, Numbers;
    if input.number.Some? {
      AppliedOnce(d.order, d.symbols, FQuantity, input);
      FillFaithful(d, o, FQuantity, input, d.order.(quantity := input.number.value));
    }
  }

  lemma PricesFaithful(d: Dialog, o: Order, input: Input)
    requires Ready(d) && Faithful(d, o) && d.state in {StopPrice, Price}
    ensures Faithful(Answer(d, input).next, o)
  {
    hide FirstArg, Applied, ShownAll, Numbers;
    if input.number.Some? {
      var n := input.number.value;
      if d.state.Price? {
        AppliedOnce(d.order, d.symbols, FPrice, input);
        FillFaithful(d, o, FPrice, input, d.order.(price := n));
      } else {
        AppliedOnce(d.order, d.symbols, FStopPrice, input);
        FillFaithful(d, o, FStopPrice, input, d.order.(stopPrice := n));
      }
    }
  }

  lemma AnswerFaithful(d: Dialog, o: Order, input: Input, repeat: bool, helped: bool)
    requires Ready(d) && Faithful(d, o) && Answered(d, repeat, helped)
    ensures Faithful(Answer(d, input).next, o)
  {
    hide FirstArg, Applied, ShownAll, Numbers, Asked, Skipped;
    if d.state in {Type, TimeInForce} && AsksHelp(input.text) {
      if d.state.Type? { HelpAtType(d, input); } else { HelpAtTimeInForce(d, input); }
    } else if d.state in {Type, Side, TimeInForce} {
      WordFaithful(d, o, input);
    } else {
      match d.state
      case Name => NameFaithful(d, o, input);
      case Symbol => SymbolFaithful(d, o, input, FirstArg(input.text));
      case Quantity => QuantityFaithful(d, o, input);
      case StopPrice => PricesFaithful(d, o, input);
      case Price => PricesFaithful(d, o, input);
      case _ =>
    }
  }

  /** At every point of every dialog the order is the earlier order with this dialog's answers put in,
      and the view shows exactly those answers. */
  lemma {:induction false} RunFaithful(before: Dialog, inputs: seq<Input>)
    requires Ready(before)
    ensures Faithful(After(Begin(before), inputs), before.order)
    decreases |inputs|
  {
    if inputs == [] {
      assert ShownAll(before.symbols, map[]) == map[];
      assert Begin(before).answers == map[];
    } else {
      hide Faithful, Answer, Answered, Helped, Begin;
      var rest := inputs[..|inputs| - 1];
      RunFaithful(before, rest);
      RunAnswered(before, rest);
      AnswerFaithful(After(Begin(before), rest), before.order, inputs[|inputs| - 1],
                     before.repeat, Helped(Begin(before), rest));
    }
  }

  // ----- What is sent -----

  /** Whatever is sent was answered in this dialog, all but the name if the flag was left set by an
      earlier dialog, and all but the side if the explanation of the types was asked for. A skipped
      field is sent as it was left before. */
  lemma {:induction false} SentOrder(before: Dialog, inputs: seq<Input>, input: Input, order: Order)
    requires Ready(before)
    requires Answer(After(Begin(before), inputs), input).out == [Execute(order)]
    ensures var d := After(Begin(before), inputs);
            && d.answers.Keys == Needed(order.orderType) - Skipped(before.repeat, Helped(Begin(before), inputs))
            && order == Applied(before.order, before.symbols, d.answers)
            && d.view == BlankView() + ShownAll(before.symbols, d.answers)
            && order.orderType !in {STOP_LOSS_LIMIT, TAKE_PROFIT_LIMIT}
  {
    hide Applied, ShownAll, Numbers, Skipped, Needed, Helped, FirstArg;
    RunAnswered(before, inputs);
    RunFaithful(before, inputs);
    OnlyResultSends(After(Begin(before), inputs), input, before.repeat, Helped(Begin(before), inputs));
  }

  lemma OnlyResultSends(d: Dialog, input: Input, repeat: bool, helped: bool)
    requires Ready(d) && Answered(d, repeat, helped) && Answer(d, input).out != []
    ensures d.state.OrderResult?
  {
    if d.state in {Type, TimeInForce} && AsksHelp(input.text) {
      if d.state.Type? { HelpAtType(d, input); } else { HelpAtTimeInForce(d, input); }
    }
  }

  /** A sent order is complete exactly when no help with the types was asked for in its dialog and no
      earlier dialog was left with the flag set. */
  lemma {:induction false} CompleteExactly(before: Dialog, inputs: seq<Input>, input: Input, order: Order)
    requires Ready(before)
    requires Answer(After(Begin(before), inputs), input).out == [Execute(order)]
    ensures Needed(order.orderType) <= After(Begin(before), inputs).answers.Keys
        <==> !before.repeat && !Helped(Begin(before), inputs)
  {
    hide Answer, After, Begin, Helped;
    SentOrder(before, inputs, input, order);
    assert FName in Needed(order.orderType) && FSide in Needed(order.orderType);
  }

  /** When a dialog that is broken off leaves the flag set for the next one. */
  lemma {:induction false} FlagLeftExactly(before: Dialog, inputs: seq<Input>)
    requires Ready(before)
    ensures var d := After(Begin(before), inputs);
            d.repeat <==> if d.state in {Start, Name} then before.repeat
                          else d.state in {Type, Side} && Helped(Begin(before), inputs)
  {
    RunAnswered(before, inputs);
  }

  /** A dialog broken off after the explanation of the types makes the next one ignore the name given
      to it: the order goes out under the earlier name. */
  lemma {:induction false} NextNameLost(before: Dialog, inputs: seq<Input>, next: seq<Input>,
                                        input: Input, order: Order)
    requires Ready(before)
    requires After(Begin(before), inputs).state in {Type, Side} && Helped(Begin(before), inputs)
    requires Answer(After(Begin(After(Begin(before), inputs)), next), input).out == [Execute(order)]
    ensures order.name == After(Begin(before), inputs).order.name
  {
    hide Answer, Begin, Helped;
    FlagLeftExactly(before, inputs);
    SentOrder(After(Begin(before), inputs), next, input, order);
  }

  /** Asking for the explanation of the validity, anywhere in any dialog, leaves everything as it was. */
  lemma {:induction false} HelpChangesNothing(before: Dialog, inputs: seq<Input>, input: Input)
    requires Ready(before) && After(Begin(before), inputs).state.TimeInForce? && AsksHelp(input.text)
    ensures var d := After(Begin(before), inputs); Answer(d, input) == Result(d, [])
  {
    RunAnswered(before, inputs);
    HelpAtTimeInForce(After(Begin(before), inputs), input);
  }

  // ----- Where the answers come from -----

  function Question(field: Field): State {
    match field
    case FName => Name
    case FSymbol => Symbol
    case FType => Type
    case FSide => Side
    case FQuantity => Quantity
    case FPrice => Price
    case FStopPrice => StopPrice
    case FTif => TimeInForce
  }

  /** The answer was typed at the field's own question; the only symbol of a list is not asked for. */
  predicate Typed(before: Dialog, inputs: seq<Input>, field: Field, answer: Input)
    requires Ready(before)
  {
    || (field.FSymbol? && |before.symbols| == 1 && answer == Input(before.symbols[0], None))
    || exists k :: 0 <= k < |inputs| && inputs[k] == answer &&
         After(Begin(before), inputs[..k]).state == Question(field)
  }

  /** After the answer to `d`, the field's answer is an old one, this one, or the only symbol. */
  predicate Recorded(d: Dialog, input: Input, answers: map<Field, Input>, field: Field) {
    field in answers ==>
      || (field in d.answers && d.answers[field] == answers[field])
      || (d.state == Question(field) && answers[field] == input)
      || (field.FSymbol? && |d.symbols| == 1 && answers[field] == Input(d.symbols[0], None))
  }

  lemma OneRecorded(d: Dialog, input: Input, asked: Field, answers: map<Field, Input>, field: Field)
    requires Question(asked) == d.state && (answers == d.answers || answers == d.answers[asked := input])
    ensures Recorded(d, input, answers, field)
  {
  }

  lemma NameRecords(d: Dialog, input: Input, field: Field)
    requires Ready(d) && d.state.Name?
    ensures Recorded(d, input, Answer(d, input).next.answers, field)
  {
    hide FirstArg;
    if |d.symbols| > 1 {
      OneRecorded(d, input, FName, Answer(d, input).next.answers, field);
    }
  }

  lemma SymbolRecords(d: Dialog, input: Input, field: Field)
    requires Ready(d) && d.state.Symbol?
    ensures Recorded(d, input, Answer(d, input).next.answers, field)
  {
    hide FirstArg, Recorded;
    OneRecorded(d, input, FSymbol, Answer(d, input).next.answers, field);
  }

  lemma WordRecords(d: Dialog, input: Input, field: Field)
    requires Ready(d) && Fits(d) && d.state in {Type, Side, TimeInForce} && (d.state.TimeInForce? ==> !d.repeat)
    ensures Recorded(d, input, Answer(d, input).next.answers, field)
  {
    hide FirstArg;
    if !d.state.Side? && AsksHelp(input.text) {
      if d.state.Type? { HelpAtType(d, input); } else { HelpAtTimeInForce(d, input); }
    }
  }

  lemma QuantityRecords(d: Dialog, input: Input, field: Field)
    requires Ready(d) && d.state.Quantity?
    ensures Recorded(d, input, Answer(d, input).next.answers, field)
  {
    hide FirstArg, AfterHelp, Recorded;
    OneRecorded(d, input, FQuantity, Answer(d, input).next.answers, field);
  }

  lemma StopPriceRecords(d: Dialog, input: Input, field: Field)
    requires Ready(d) && d.state.StopPrice?
    ensures Recorded(d, input, Answer(d, input).next.answers, field)
  {
    hide FirstArg, AfterHelp, Recorded;
    OneRecorded(d, input, FStopPrice, Answer(d, input).next.answers, field);
  }

  lemma PriceRecords(d: Dialog, input: Input, field: Field)
    requires Ready(d) && d.state.Price?
    ensures Recorded(d, input, Answer(d, input).next.answers, field)
  {
    hide FirstArg, AfterHelp, Recorded;
    OneRecorded(d, input, FPrice, Answer(d, input).next.answers, field);
  }

  lemma AnswerRecords(d: Dialog, input: Input, field: Field, repeat: bool, helped: bool)
    requires Ready(d) && Answered(d, repeat, helped)
    ensures Recorded(d, input, Answer(d, input).next.answers, field)
  {
    if d.state.Name? { hide Answer; NameRecords(d, input, field); }
    else if d.state.Symbol? { hide Answer; SymbolRecords(d, input, field); }
    else if d.state in {Type, Side, TimeInForce} { hide Answer; WordRecords(d, input, field); }
    else if d.state.Quantity? { hide Answer; QuantityRecords(d, input, field); }
    else if d.state.StopPrice? { hide Answer; StopPriceRecords(d, input, field); }
    else if d.state.Price? { hide Answer; PriceRecords(d, input, field); }
    else { hide Asked, Skipped, FirstArg; }
  }

  lemma TypedLater(before: Dialog, inputs: seq<Input>, field: Field, answer: Input)
    requires Ready(before) && inputs != [] && Typed(before, inputs[..|inputs| - 1], field, answer)
    ensures Typed(before, inputs, field, answer)
  {
    hide Begin, After;
    var rest := inputs[..|inputs| - 1];
    if k :| 0 <= k < |rest| && After(Begin(before), rest[..k]).state == Question(field) && rest[k] == answer {
      assert rest[..k] == inputs[..k];
    }
  }

  lemma {:induction false} AnswersWereTyped(before: Dialog, inputs: seq<Input>, field: Field)
    requires Ready(before) && field in After(Begin(before), inputs).answers
    ensures Typed(before, inputs, field, After(Begin(before), inputs).answers[field])
    decreases |inputs|
  {
    if inputs != [] {
      var n := |inputs| - 1;
      var d := After(Begin(before), inputs[..n]);
      assert After(Begin(before), inputs) == Answer(d, inputs[n]).next;
      hide Answer, Answered, Helped, Begin, After;
      RunAnswered(before, inputs[..n]);
      AnswerRecords(d, inputs[n], field, before.repeat, Helped(Begin(before), inputs[..n]));
      var answer := After(Begin(before), inputs).answers[field];
      if field in d.answers && d.answers[field] == answer {
        AnswersWereTyped(before, inputs[..n], field);
        TypedLater(before, inputs, field, answer);
      }
    }
  }

  // ----- Outcomes -----

  /** Every input came while the dialog was listening. */
  predicate Heard(d: Dialog, inputs: seq<Input>)
    requires Ready(d)
    decreases |inputs|
  {
    inputs == [] || (Heard(d, inputs[..|inputs| - 1]) && After(d, inputs[..|inputs| - 1]).listening)
  }

  function Verdict(order: Order, text: string): seq<Output> {
    if FirstArg(text) == "$e" then [Execute(order)]
    else if FirstArg(text) == "$c" then [Cancel]
    else []
  }

  lemma AnswerOutcome(d: Dialog, input: Input, repeat: bool, helped: bool)
    requires Ready(d) && Answered(d, repeat, helped) && (d.listening ==> d.symbols != [])
    ensures var r := Answer(d, input);
            && r.out == (if d.state.OrderResult? then Verdict(d.order, input.text) else [])
            && (d.listening ==> (r.next.listening <==> !d.state.OrderResult?))
  {
    hide Asked, Skipped, FirstArg;
    if d.state in {Type, TimeInForce} && AsksHelp(input.text) {
      if d.state.Type? { HelpAtType(d, input); } else { HelpAtTimeInForce(d, input); }
    }
  }

  /** A dialog that listens has had no outcome. It stops listening at the first reply to its last
      question, and that reply alone decides whether the order is sent, cancelled or just forgotten. */
  lemma {:induction false} OneOutcome(before: Dialog, inputs: seq<Input>)
    requires Ready(before) && before.symbols != [] && Heard(Begin(before), inputs)
    ensures var d := After(Begin(before), inputs);
            if d.listening then Outputs(Begin(before), inputs) == []
            else
              && inputs != []
              && var last := After(Begin(before), inputs[..|inputs| - 1]);
              && last.state.OrderResult?
              && Outputs(Begin(before), inputs) == Verdict(last.order, inputs[|inputs| - 1].text)
    decreases |inputs|
  {
    if inputs != [] {
      hide Answer, Answered, Helped, Begin, Verdict;
      var rest := inputs[..|inputs| - 1];
      RunAnswered(before, rest);
      OneOutcome(before, rest);
      AnswerOutcome(After(Begin(before), rest), inputs[|inputs| - 1], before.repeat, Helped(Begin(before), rest));
    }
  }

  /** A STOP_LOSS_LIMIT order on its way to the price question, which it never leaves. */
  predicate Stuck(d: Dialog) {
    d.state in {Side, Quantity, StopPrice, Price} && d.order.orderType.STOP_LOSS_LIMIT?
  }

  lemma StaysStuck(d: Dialog, input: Input)
    requires Ready(d) && Stuck(d)
    ensures Answer(d, input).out == [] && Stuck(Answer(d, input).next)
  {
    hide FirstArg, AfterHelp;
  }

  lemma {:induction false} StuckForever(d: Dialog, inputs: seq<Input>)
    requires Ready(d) && Stuck(d)
    ensures Outputs(d, inputs) == [] && Stuck(After(d, inputs))
    decreases |inputs|
  {
    hide Answer, Stuck;
    if inputs != [] {
      StuckForever(d, inputs[..|inputs| - 1]);
      StaysStuck(After(d, inputs[..|inputs| - 1]), inputs[|inputs| - 1]);
    }
  }

  /** Without symbols a dialog does not get past its start. */
  lemma {:induction false} NeverStarts(d: Dialog, inputs: seq<Input>)
    requires Ready(d) && d.state.Start? && d.symbols == []
    ensures Outputs(d, inputs) == [] && After(d, inputs).state.Start?
    decreases |inputs|
  {
    if inputs != [] { NeverStarts(d, inputs[..|inputs| - 1]); }
  }

  lemma Extend(d: Dialog, inputs: seq<Input>, input: Input)
    requires Ready(d)
    ensures After(d, inputs + [input]) == Answer(After(d, inputs), input).next
    ensures Outputs(d, inputs + [input]) == Outputs(d, inputs) + Answer(After(d, inputs), input).out
  {
    assert (inputs + [input])[..|inputs|] == inputs;
  }

  lemma QuantityGiven(d: Dialog, input: Input)
    requires Ready(d) && d.state.Quantity? && input.number.Some?
    ensures var next := Answer(d, input).next;
            && next.order.orderType == d.order.orderType && next.repeat == d.repeat
            && next.state == match d.order.orderType {
                 case MARKET => OrderResult
                 case LIMIT => Price
                 case _ => StopPrice
               }
  {
    hide FirstArg, AfterHelp;
  }

  lemma CancelGiven(d: Dialog, input: Input)
    requires Ready(d) && d.state.OrderResult? && FirstArg(input.text) == "$c"
    ensures Answer(d, input).out == [Cancel]
  {
    hide FirstArg, AfterHelp;
  }

  lemma {:induction false} OneWord(text: string)
    requires ' ' !in text
    ensures FirstArg(text) == text
  {
    if text != "" { OneWord(text[1..]); }
  }

  /** How many questions at most are before the last one. */
  function Distance(state: State): nat {
    match state
    case Name => 7
    case Symbol => 6
    case Type => 5
    case Side => 4
    case Quantity => 3
    case StopPrice => 2
    case Price => 2
    case TimeInForce => 1
    case _ => 0
  }

  /** Any text that is a number and no cry for help will do as an answer, if it also names a type that
      needs no limit price. */
  predicate Advances(input: Input) {
    FirstArg(input.text) == "MARKET" && input.number.Some?
  }

  lemma FirstAnswersAdvance(d: Dialog, input: Input)
    requires Ready(d) && d.state in {Name, Symbol, Type, Side} && !Stuck(d) && Advances(input)
    ensures var next := Answer(d, input).next;
            Distance(next.state) < Distance(d.state) && !Stuck(next) && next.state !in {Idle, Start}
  {
    hide FirstArg, AfterHelp;
  }

  lemma LastAnswersAdvance(d: Dialog, input: Input)
    requires Ready(d) && Fits(d) && d.state in {Quantity, StopPrice, Price, TimeInForce} && !d.repeat
    requires !Stuck(d) && Advances(input)
    ensures var next := Answer(d, input).next;
            Distance(next.state) < Distance(d.state) && !Stuck(next) && next.state !in {Idle, Start}
  {
    hide FirstArg, AfterHelp;
  }

  lemma {:induction false} ReachesResult(d: Dialog, given: seq<Input>, repeat: bool, helped: bool)
    returns (inputs: seq<Input>)
    requires Ready(d) && Answered(After(d, given), repeat, helped)
    requires !After(d, given).state.Start? && !Stuck(After(d, given))
    ensures After(d, inputs).state.OrderResult?
    decreases Distance(After(d, given).state)
  {
    var now := After(d, given);
    if now.state.OrderResult? {
      inputs := given;
    } else {
      var input := Input("MARKET", Some(1.0));
      OneWord("MARKET");
      hide Answer, After, FirstArg, Asked, Skipped;
      Extend(d, given, input);
      AnswerAnswered(now, input, repeat, helped);
      if now.state in {Name, Symbol, Type, Side} {
        FirstAnswersAdvance(now, input);
      } else {
        LastAnswersAdvance(now, input);
      }
      inputs := ReachesResult(d, given + [input], repeat, helped);
    }
  }

  /** At every point of every dialog an outcome can still be reached exactly when there is a symbol and
      the order is not a STOP_LOSS_LIMIT order past its type question. */
  lemma {:induction false} OutcomeReachableExactly(before: Dialog, inputs: seq<Input>)
    requires Ready(before)
    ensures var d := After(Begin(before), inputs);
            (exists more :: Outputs(d, more) != []) <==> before.symbols != [] && !Stuck(d)
  {
    var d := After(Begin(before), inputs);
    RunAnswered(before, inputs);
    if d.state.Start? {
      forall more ensures Outputs(d, more) == [] { NeverStarts(d, more); }
    } else if Stuck(d) {
      forall more ensures Outputs(d, more) == [] { StuckForever(d, more); }
    } else {
      assert After(d, []) == d;
      hide Answer, After, Begin, Outputs, FirstArg, Helped;
      var cancel := Input("$c", None);
      OneWord("$c");
      var more := ReachesResult(d, [], before.repeat, Helped(Begin(before), inputs));
      CancelGiven(After(d, more), cancel);
      Extend(d, more, cancel);
      assert Outputs(d, more + [cancel]) != [];
    }
  }

  lemma HelpedExtend(d: Dialog, inputs: seq<Input>, input: Input)
    requires Ready(d)
    ensures Helped(d, inputs + [input]) <==> Helped(d, inputs) || (After(d, inputs).state.Type? && AsksHelp(input.text))
  {
    assert (inputs + [input])[..|inputs|] == inputs;
  }

  lemma NameGiven(d: Dialog, input: Input)
    requires Ready(d) && d.state.Name?
    ensures Answer(d, input).next.state == if |d.symbols| > 1 then Symbol else Type
  {
    hide FirstArg, AfterHelp;
  }

  lemma SymbolGiven(d: Dialog, input: Input)
    requires Ready(d) && d.state.Symbol?
    ensures Answer(d, input).next.state.Type?
  {
    hide FirstArg, AfterHelp;
  }

  lemma ReachesType(before: Dialog) returns (inputs: seq<Input>)
    requires Ready(before) && before.symbols != []
    ensures After(Begin(before), inputs).state.Type?
  {
    var some := Input("A", None);
    var d := Begin(before);
    assert After(d, []) == d && d.state.Name?;
    hide Answer, After, Begin;
    Extend(d, [], some);
    NameGiven(d, some);
    inputs := [] + [some];
    if |d.symbols| > 1 {
      Extend(d, inputs, some);
      SymbolGiven(After(d, inputs), some);
      inputs := inputs + [some];
    }
  }

  lemma FitsAlways(before: Dialog, inputs: seq<Input>)
    requires Ready(before)
    ensures Fits(After(Begin(before), inputs))
  {
    RunAnswered(before, inputs);
  }

  lemma TypeAndSideGiven(d: Dialog, market: Input, buy: Input)
    requires Ready(d) && d.state.Type? && FirstArg(market.text) == "MARKET"
    ensures var d1 := Answer(d, market).next;
            var d2 := Answer(d1, buy).next;
            d2.state.Quantity? && d2.order.orderType.MARKET?
  {
    hide FirstArg, AfterHelp;
  }

  lemma FinishMarket(before: Dialog, asked: seq<Input>) returns (inputs: seq<Input>)
    requires Ready(before) && After(Begin(before), asked).state.Type? && Helped(Begin(before), asked)
    ensures Helped(Begin(before), inputs) && Input("BUY", None) in inputs
    ensures var d := After(Begin(before), inputs); d.state.OrderResult? && d.order.orderType.MARKET?
  {
    var market, buy, one := Input("MARKET", None), Input("BUY", None), Input("1", Some(1.0));
    OneWord("MARKET");
    hide Answer, After, FirstArg, Helped, Begin;
    var d := Begin(before);
    TypeAndSideGiven(After(d, asked), market, buy);
    Extend(d, asked, market);
    HelpedExtend(d, asked, market);
    Extend(d, asked + [market], buy);
    HelpedExtend(d, asked + [market], buy);
    inputs := asked + [market] + [buy];
    QuantityGiven(After(d, inputs), one);
    Extend(d, inputs, one);
    HelpedExtend(d, inputs, one);
    inputs := inputs + [one];
  }

  /** It does happen: in every dialog the help can be asked for and the side typed, and the order still
      goes out with the side of the order before. */
  lemma {:induction false} SideLost(before: Dialog) returns (inputs: seq<Input>, order: Order)
    requires Ready(before) && before.symbols != []
    ensures Input("BUY", None) in inputs
    ensures Answer(After(Begin(before), inputs), Input("$e", None)).out == [Execute(order)]
    ensures order.orderType.MARKET? && order.side == before.order.side
  {
    var help, send := Input("$h", None), Input("$e", None);
    OneWord("$h");
    OneWord("$e");
    assert forall t | Ready(t) && t.state.OrderResult? :: Answer(t, send).out == [Execute(t.order)];
    var d := Begin(before);
    var asked := ReachesType(before);
    hide Answer, After, FirstArg, Helped, Begin;
    FitsAlways(before, asked);
    HelpAtType(After(d, asked), help);
    Extend(d, asked, help);
    HelpedExtend(d, asked, help);
    inputs := FinishMarket(before, asked + [help]);
    order := After(d, inputs).order;
    SentOrder(before, inputs, send, order);
    assert FSide !in After(d, inputs).answers;
  }
}
