/** What the words of the order dialog mean, and what its deletion and list dialogs send. */
module OrderDialogWords {
  import opened Wrappers
  import opened OrderDialog
  import opened OrderDialogRuns

  /** The first word ends before the first blank. */
  lemma {:induction false} FirstWord(text: string)
    ensures var word := FirstArg(text);
            ' ' !in word &&
            (text == word || (|word| < |text| && text[..|word|] == word && text[|word|] == ' '))
  {
    if text != "" && text[0] != ' ' {
      FirstWord(text[1..]);
      var rest := FirstArg(text[1..]);
      assert text == [text[0]] + text[1..];
    }
  }

  function Word(answers: map<Field, Input>, field: Field): string
    requires field in answers
  {
    FirstArg(answers[field].text)
  }

  predicate SideMeans(side: OrderSide, word: string) {
    side == BUY <==> word == "BUY"
  }

  predicate TypeMeans(t: OrderType, word: string) {
    && (t == LIMIT <==> word == "LIMIT") && (t == MARKET <==> word == "MARKET")
    && (t == STOP_LOSS <==> word == "STOP_LOSS") && (t == STOP_LOSS_LIMIT <==> word == "STOP_LOSS_LIMIT")
    && (t == TAKE_PROFIT <==> word == "TAKE_PROFIT") && (t == LIMIT_MAKER <==> word == "LIMIT_MAKER")
    && (t == UNKNOWN <==>
        word !in ["LIMIT", "MARKET", "STOP_LOSS", "STOP_LOSS_LIMIT", "TAKE_PROFIT", "LIMIT_MAKER"])
  }

  predicate TifMeans(tif: Tif, word: string) {
    && (tif == GTC <==> word == "GTC") && (tif == IOC <==> word == "IOC") && (tif == FOK <==> word == "FOK")
    && (tif == UNK <==> word !in ["GTC", "IOC", "FOK"])
  }

  lemma WordMeanings(word: string)
    ensures SideMeans(ToSide(word), word) && TypeMeans(ToType(word), word) && TifMeans(ToTif(word), word)
  {
  }

  /** Each field that was answered has the meaning of its answer, each other one its earlier value. */
  predicate Means(o: Order, before: Order, symbols: seq<string>, a: map<Field, Input>) {
    && (if FName in a then o.name == a[FName].text else o.name == before.name)
    && (if FSymbol in a
        then o.symbol == (if |symbols| > 1 then Word(a, FSymbol) else a[FSymbol].text) + "USDT"
        else o.symbol == before.symbol)
    && (if FType in a then TypeMeans(o.orderType, Word(a, FType)) else o.orderType == before.orderType)
    && (if FSide in a then SideMeans(o.side, Word(a, FSide)) else o.side == before.side)
    && (if FTif in a then TifMeans(o.tif, Word(a, FTif)) else o.tif == before.tif)
    && (if FQuantity in a then Some(o.quantity) == a[FQuantity].number else o.quantity == before.quantity)
    && (if FPrice in a then Some(o.price) == a[FPrice].number else o.price == before.price)
    && (if FStopPrice in a then Some(o.stopPrice) == a[FStopPrice].number else o.stopPrice == before.stopPrice)
  }

  lemma AppliedMeans(o: Order, symbols: seq<string>, a: map<Field, Input>)
    requires Numbers(a)
    ensures Means(Applied(o, symbols, a), o, symbols, a)
  {
    if FType in a { WordMeanings(Word(a, FType)); }
    if FSide in a { WordMeanings(Word(a, FSide)); }
    if FTif in a { WordMeanings(Word(a, FTif)); }
    hide FirstArg, ToType, ToSide, ToTif, TypeMeans, TifMeans, SideMeans;
  }

  /** At every point of every dialog the order's fields mean what was answered. */
  lemma OrderMeansAnswers(before: Dialog, inputs: seq<Input>)
    requires Ready(before)
    ensures var d := After(Begin(before), inputs); Means(d.order, before.order, before.symbols, d.answers)
  {
    RunFaithful(before, inputs);
    hide After, Begin, Applied, Means, Numbers, ShownAll, BlankView;
    var d := After(Begin(before), inputs);
    AppliedMeans(before.order, before.symbols, d.answers);
  }

  /** A sent order's fields mean what was answered. */
  lemma {:induction false} SentMeansAnswers(before: Dialog, inputs: seq<Input>, input: Input, order: Order)
    requires Ready(before)
    requires Answer(After(Begin(before), inputs), input).out == [Execute(order)]
    ensures Means(order, before.order, before.symbols, After(Begin(before), inputs).answers)
  {
    RunFaithful(before, inputs);
    SentOrder(before, inputs, input, order);
    hide Answer, After, Begin, Means, Applied, Numbers, ShownAll, BlankView;
    OrderMeansAnswers(before, inputs);
  }

  // ----- Deletions -----

  function BeginDeletion(d: Dialog): (r: Dialog)
    requires Ready(d)
    ensures Ready(r) && r.symbols == d.symbols
  {
    Step(d, NewDelete).next
  }

  function Named(d: Dialog, name: string, pair: string): Order {
    d.order.(name := name, symbol := pair)
  }

  /** A deletion is sent with the name and the pair that were typed in this dialog; until then the dialog
      listens and sends nothing. */
  lemma DeletionSent(d: Dialog, name: Input, pair: Input)
    requires Ready(d) && |d.symbols| > 1
    ensures var d0 := BeginDeletion(d);
            var r1 := Answer(d0, name);
            var r2 := Answer(r1.next, pair);
            && Step(d, NewDelete).out == [] && d0.listening
            && r1.out == [] && r1.next.listening
            && r2.out == [DeleteOrder(Named(d, name.text, pair.text + "USDT"))] && !r2.next.listening
  {
    hide FirstArg, AfterHelp;
  }

  /** With a single symbol the pair is not asked for. */
  lemma DeletionOfOnlyPair(d: Dialog, name: Input)
    requires |d.symbols| == 1
    ensures var r := Answer(BeginDeletion(d), name);
            && Step(d, NewDelete).out == []
            && r.out == [DeleteOrder(Named(d, name.text, d.symbols[0] + "USDT"))] && !r.next.listening
  {
    hide FirstArg, AfterHelp;
  }

  lemma NothingToDelete(d: Dialog)
    requires d.symbols == [] && Ready(d)
    ensures Step(d, NewDelete).out == [] && !BeginDeletion(d).listening
  {
    hide FirstArg, AfterHelp;
  }

  lemma DeletionRepeats(d: Dialog, input: Input)
    requires Ready(d) && d.state.DelReady?
    ensures Answer(d, input) == OrderDialog.Result(d.(listening := false), [DeleteOrder(d.order)])
  {
    hide FirstArg, AfterHelp;
  }

  function Copies(o: Output, n: nat): seq<Output> {
    if n == 0 then [] else Copies(o, n - 1) + [o]
  }

  lemma DeletionDone(d: Dialog, name: Input, pair: Input)
    requires Ready(d) && |d.symbols| > 1
    ensures var r := After(BeginDeletion(d), [name, pair]);
            r.state.DelReady? && r.order == Named(d, name.text, pair.text + "USDT")
    ensures Outputs(BeginDeletion(d), [name, pair]) == [DeleteOrder(Named(d, name.text, pair.text + "USDT"))]
  {
    var d0 := BeginDeletion(d);
    assert After(d0, []) == d0 && Outputs(d0, []) == [];
    Extend(d0, [], name);
    Extend(d0, [name], pair);
    assert [] + [name] == [name] && [name] + [pair] == [name, pair];
    DeletionSent(d, name, pair);
    DeletionState(d, name, pair);
  }

  lemma DeletionState(d: Dialog, name: Input, pair: Input)
    requires Ready(d) && |d.symbols| > 1
    ensures var r := Answer(Answer(BeginDeletion(d), name).next, pair).next;
            r.state.DelReady? && r.order == Named(d, name.text, pair.text + "USDT")
  {
    hide FirstArg, AfterHelp;
  }

  /** Whatever is typed after it reaches the dialog only sends the same deletion again. */
  lemma {:induction false} OnlyThisDeletion(d: Dialog, inputs: seq<Input>)
    requires Ready(d) && |d.symbols| > 1 && |inputs| >= 2
    ensures var o := Named(d, inputs[0].text, inputs[1].text + "USDT");
            && Outputs(BeginDeletion(d), inputs) == Copies(DeleteOrder(o), |inputs| - 1)
            && After(BeginDeletion(d), inputs).state.DelReady? && After(BeginDeletion(d), inputs).order == o
    decreases |inputs|
  {
    hide Answer, BeginDeletion, After, Outputs;
    var d0 := BeginDeletion(d);
    var o := DeleteOrder(Named(d, inputs[0].text, inputs[1].text + "USDT"));
    if |inputs| == 2 {
      assert inputs == [inputs[0], inputs[1]];
      DeletionDone(d, inputs[0], inputs[1]);
      assert Copies(o, 0) + [o] == [o];
    } else {
      var n := |inputs| - 1;
      OnlyThisDeletion(d, inputs[..n]);
      DeletionRepeats(After(d0, inputs[..n]), inputs[n]);
      Extend(d0, inputs[..n], inputs[n]);
      assert inputs[..n] + [inputs[n]] == inputs;
    }
  }

  // ----- Lists -----

  /** The list is requested for the symbol that was typed in this dialog, which is over then. */
  lemma ListSent(d: Dialog, symbol: Input)
    requires Ready(d) && |d.symbols| > 1
    ensures var r0 := Step(d, NewList);
            var r1 := Answer(r0.next, symbol);
            && r0.out == [] && r0.next.listening
            && r1.out == [RequestList(symbol.text)] && r1.next.state == Idle && !r1.next.listening
            && r1.next.order == d.order
  {
    hide FirstArg, AfterHelp;
  }

  lemma ListOfOnlySymbol(d: Dialog)
    requires |d.symbols| == 1
    ensures var r := Step(d, NewList);
            r.out == [RequestList(d.symbols[0])] && r.next.state == Idle && !r.next.listening && r.next.order == d.order
  {
    hide FirstArg, AfterHelp;
  }
}
