/** The dialog that composes a manual order, question by question: what each answer does, and what an
    order that is sent at the end consists of. */
module OrderDialog {
  import opened Wrappers

  datatype State =
    | Idle | Start | Name | Side | Price | StopPrice | Quantity | Symbol | InputType | Type | TimeInForce
    | OrderReady | OrderResult | Delete | DelName | DelSymbol | DelReady | List | ListSymbol

  datatype OrderType =
    | UNKNOWN | LIMIT | MARKET | STOP_LOSS | STOP_LOSS_LIMIT | TAKE_PROFIT | TAKE_PROFIT_LIMIT | LIMIT_MAKER
  datatype OrderSide = BUY | SELL
  datatype Tif = UNK | GTC | IOC | FOK

  datatype Field = FName | FSymbol | FType | FSide | FQuantity | FPrice | FStopPrice | FTif

  /** What the user typed; `number` is the value if the text is a number. */
  datatype Input = Input(text: string, number: Option<real>)

  datatype Order = Order(symbol: string, name: string, side: OrderSide, orderType: OrderType, tif: Tif,
                         quantity: real, price: real, stopPrice: real)

  /** `view` is what is shown of the order. `repeat` is set when a help text has been shown and the
      question before it is asked again. `answers` records the inputs that were put into the order
      since the dialog started. */
  datatype Dialog = Dialog(symbols: seq<string>, state: State, prev: State, repeat: bool, data: string,
                           order: Order, view: map<Field, string>, listening: bool, answers: map<Field, Input>)

  datatype Output =
    | Execute(order: Order)
    | Cancel
    | DeleteOrder(order: Order)
    | RequestList(symbol: string)

  datatype Result = Result(next: Dialog, out: seq<Output>)

  function FirstArg(text: string): string {
    if text == "" || text[0] == ' ' then "" else [text[0]] + FirstArg(text[1..])
  }

  predicate AsksHelp(text: string) {
    FirstArg(text) == "$h"
  }

  /** TAKE_PROFIT_LIMIT is missing from the table of names. */
  function ToType(text: string): OrderType {
    if text == "LIMIT" then LIMIT
    else if text == "MARKET" then MARKET
    else if text == "STOP_LOSS" then STOP_LOSS
    else if text == "STOP_LOSS_LIMIT" then STOP_LOSS_LIMIT
    else if text == "TAKE_PROFIT" then TAKE_PROFIT
    else if text == "LIMIT_MAKER" then LIMIT_MAKER
    else UNKNOWN
  }

  function ToSide(text: string): OrderSide {
    if text == "BUY" then BUY else SELL
  }

  function ToTif(text: string): Tif {
    if text == "GTC" then GTC else if text == "IOC" then IOC else if text == "FOK" then FOK else UNK
  }

  function BlankView(): map<Field, string> {
    map[FName := "", FSymbol := "", FType := "", FSide := "",
        FQuantity := "", FPrice := "", FStopPrice := "", FTif := ""]
  }

  /** The order's fields are whatever the fresh record holds. */
  function Initial(symbols: seq<string>, order: Order): Dialog {
    Dialog(symbols, Idle, Idle, false, "", order, BlankView(), false, map[])
  }

  // ----- Answers -----

  function Ask(d: Dialog, state: State, prev: State): Dialog {
    d.(state := state, prev := prev)
  }

  /** Puts an answer into the order and shows it. */
  function Fill(d: Dialog, field: Field, input: Input, shown: string, order: Order): Dialog {
    d.(order := order, view := d.view[field := shown], answers := d.answers[field := input])
  }

  function AnswerName(d: Dialog, input: Input): Dialog {
    if d.repeat then d.(repeat := false)
    else Fill(d, FName, input, input.text, d.order.(name := input.text))
  }

  function AnswerSymbol(d: Dialog, input: Input, symbol: string): Dialog {
    var full := symbol + "USDT";
    Ask(Fill(d, FSymbol, input, full, d.order.(symbol := full)), Type, InputType)
  }

  function AnswerSide(d: Dialog, input: Input): Dialog {
    if d.repeat then d.(repeat := false)
    else Fill(d, FSide, input, FirstArg(input.text), d.order.(side := ToSide(FirstArg(input.text))))
  }

  /** A price question; None when the text is no number. */
  function AnswerPrice(d: Dialog, field: Field, input: Input): Option<Dialog> {
    if d.repeat then Some(d.(repeat := false))
    else if input.number.None? then None
    else Some(Fill(d, field, input, input.text,
                   if field.FPrice? then d.order.(price := input.number.value)
                   else d.order.(stopPrice := input.number.value)))
  }

  function AfterQuantity(d: Dialog): Dialog {
    if d.order.orderType.MARKET? then Ask(d, OrderResult, OrderReady)
    else if d.order.orderType.LIMIT? then Ask(d, Price, Quantity)
    else Ask(d, StopPrice, Quantity)
  }

  function AfterStopPrice(d: Dialog): Dialog {
    if d.order.orderType.STOP_LOSS_LIMIT? || d.order.orderType.TAKE_PROFIT_LIMIT? then Ask(d, Price, StopPrice)
    else Ask(d, TimeInForce, StopPrice)
  }

  function AfterPrice(d: Dialog): Dialog {
    if d.order.orderType.LIMIT? then Ask(d, TimeInForce, Price) else d
  }

  function Deleted(d: Dialog, symbol: string): Result {
    var d' := d.(order := d.order.(symbol := symbol + "USDT"),
                 state := DelReady, prev := DelSymbol, listening := false);
    Result(d', [DeleteOrder(d'.order)])
  }

  function Listed(d: Dialog, symbol: string): Result {
    Result(d.(state := Idle, prev := ListSymbol, listening := false), [RequestList(symbol)])
  }

  /** A symbol list may be empty only where the dialog has not got past its first question. */
  predicate Ready(d: Dialog) {
    d.symbols == [] ==> d.state.Idle? || d.state.Start? || d.state.Delete?
  }

  // ----- The questions -----

  function AtStart(d: Dialog): Result {
    if d.symbols == [] then Result(d.(listening := false), [])
    else Result(Ask(d.(view := BlankView()), Name, Start), [])
  }

  function AtName(d: Dialog, input: Input): Result
    requires d.symbols != []
  {
    var d1 := AnswerName(d, input);
    if |d.symbols| > 1 then Result(Ask(d1, Symbol, Name), [])
    else Result(AnswerSymbol(d1, Input(d.symbols[0], None), d.symbols[0]), [])
  }

  function AtType(d: Dialog, input: Input): Result {
    var word := FirstArg(input.text);
    Result(Ask(Fill(d, FType, input, word, d.order.(orderType := ToType(word))), Side, Type), [])
  }

  function AtSide(d: Dialog, input: Input): Result {
    Result(Ask(AnswerSide(d, input), Quantity, Side), [])
  }

  function AtQuantity(d: Dialog, input: Input): Result {
    if input.number.None? then Result(d, [])
    else Result(AfterQuantity(Fill(d, FQuantity, input, input.text, d.order.(quantity := input.number.value))), [])
  }

  function AtStopPrice(d: Dialog, input: Input): Result {
    var d1 := AnswerPrice(d, FStopPrice, input);
    Result(if d1.None? then d else AfterStopPrice(d1.value), [])
  }

  function AtPrice(d: Dialog, input: Input): Result {
    var d1 := AnswerPrice(d, FPrice, input);
    Result(if d1.None? then d else AfterPrice(d1.value), [])
  }

  function AtTimeInForce(d: Dialog, input: Input): Result {
    var word := FirstArg(input.text);
    Result(Ask(Fill(d, FTif, input, word, d.order.(tif := ToTif(word))), OrderResult, OrderReady), [])
  }

  function AtOrderResult(d: Dialog, input: Input): Result {
    var word := FirstArg(input.text);
    Result(d.(listening := false),
           if word == "$e" then [Execute(d.order)] else if word == "$c" then [Cancel] else [])
  }

  function AtDelete(d: Dialog): Result {
    if d.symbols == [] then Result(d.(listening := false), [])
    else Result(Ask(d, DelName, Delete), [])
  }

  function AtDelName(d: Dialog, input: Input): Result
    requires d.symbols != []
  {
    var d1 := d.(order := d.order.(name := input.text));
    if |d.symbols| > 1 then Result(Ask(d1, DelSymbol, DelName), [])
    else Deleted(d1.(data := d.symbols[0]), d.symbols[0])
  }

  function AtList(d: Dialog): Result
    requires d.symbols != []
  {
    if |d.symbols| > 1 then Result(Ask(d, ListSymbol, List), [])
    else Listed(d.(data := d.symbols[0]), d.symbols[0])
  }

  /** The reaction to one input, up to the next question, where no help is asked for. */
  function Direct(d: Dialog, input: Input): (r: Result)
    requires Ready(d)
    ensures Ready(r.next) && r.next.symbols == d.symbols
  {
    match d.state
    case Idle => Result(d, [])
    case Start => AtStart(d)
    case Name => AtName(d, input)
    case Symbol => Result(AnswerSymbol(d, input, FirstArg(input.text)), [])
    case InputType => Result(Ask(d, Type, InputType), [])
    case Type => AtType(d, input)
    case Side => AtSide(d, input)
    case Quantity => AtQuantity(d, input)
    case StopPrice => AtStopPrice(d, input)
    case Price => AtPrice(d, input)
    case TimeInForce => AtTimeInForce(d, input)
    case OrderReady => Result(Ask(d, OrderResult, OrderReady), [])
    case OrderResult => AtOrderResult(d, input)
    case Delete => AtDelete(d)
    case DelName => AtDelName(d, input)
    case DelSymbol => Deleted(d, input.text)
    case DelReady => Result(d.(listening := false), [DeleteOrder(d.order)])
    case List => AtList(d)
    case ListSymbol => Listed(d, input.text)
  }

  /** The help text is shown, and the previous question is put again with an empty answer. */
  function AfterHelp(d: Dialog): (r: Result)
    requires Ready(d) && (d.state.Type? || d.state.TimeInForce?)
    ensures Ready(r.next) && r.next.symbols == d.symbols
  {
    Direct(d.(state := d.prev, prev := d.state, repeat := true), Input("", None))
  }

  predicate HelpWanted(d: Dialog, input: Input) {
    (d.state.Type? || d.state.TimeInForce?) && AsksHelp(input.text)
  }

  /** The reaction to one input. */
  function Answer(d: Dialog, input: Input): (r: Result)
    requires Ready(d)
    ensures Ready(r.next) && r.next.symbols == d.symbols
  {
    if HelpWanted(d, input) then AfterHelp(d) else Direct(d, input)
  }

  // ----- Runs -----

  datatype Event = NewOrder | NewDelete | NewList | Enter(input: Input)

  function Step(d: Dialog, e: Event): Result
    requires Ready(d) && (e.NewList? ==> d.symbols != [])
  {
    match e
    case NewOrder => Answer(d.(state := Start, listening := true, answers := map[]), Input("", None))
    case NewDelete => Answer(d.(state := Delete, listening := true), Input("", None))
    case NewList => Answer(d.(state := List, listening := true), Input("", None))
    case Enter(input) => Answer(d, input)
  }
}
