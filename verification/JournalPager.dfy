/** The trade journal: a cursor that consumes the rows of a query, and the loop that packs the rows
    into as few messages as their size limit allows. Texts are byte strings. */
module JournalPager {
  import opened Wrappers

  const MAX_TEXT_MSG_SIZE: nat := 4096

  type Row = map<string, string>

  // ----- The cursor -----

  /** The result of a query. The cursor is either at the end or on the first row, which `Next`
      erases before it moves on. */
  class Database {
    var queryResult: seq<Row>
    var onRow: bool
    ghost var visited: seq<Row>

    /** The rows that the cursor has not reached yet. */
    ghost function Ahead(): seq<Row>
      requires Valid()
      reads this
    {
      if onRow then queryResult[1..] else queryResult
    }

    ghost predicate Valid()
      reads this
    {
      onRow ==> queryResult != [] && visited != [] && visited[|visited| - 1] == queryResult[0]
    }

    constructor ()
      ensures Valid() && Ahead() == [] && visited == []
    {
      queryResult, onRow, visited := [], false, [];
    }

    /** Runs a query; `rows` is what it finds, and a query may fail after finding some. */
    method Exec(rows: seq<Row>, ok: bool) returns (done: bool)
      modifies this
      ensures Valid() && Ahead() == rows && visited == [] && done == ok && !onRow
    {
      queryResult := rows;
      onRow := false;
      visited := [];
      done := ok;
    }

    /** Moves to the next row, if there is one; rows visited and rows ahead stay the same list. */
    method Next() returns (more: bool)
      requires Valid()
      modifies this
      ensures Valid() && more == onRow && (more <==> old(Ahead()) != [])
      ensures visited + Ahead() == old(visited + Ahead())
      ensures |visited| == |old(visited)| + if more then 1 else 0
    {
      assert visited + Ahead() == if Ahead() == [] then visited else (visited + [Ahead()[0]]) + Ahead()[1..];
      if onRow {
        queryResult := queryResult[1..];
      }
      onRow := queryResult != [];
      more := onRow;
      if more {
        visited := visited + [queryResult[0]];
      }
    }

    /** Reads a column as a value of type `T`; `cast` is None where the text is no such value, `zero` is
        the type's own default. The caller's default stands in for a missing row and for a text that
        cannot be read, but not for a missing column. */
    method GetValue<T>(name: string, defVal: T, zero: T, cast: string -> Option<T>) returns (value: T, ok: bool)
      requires Valid()
      ensures ok <==> onRow && name in queryResult[0] && cast(queryResult[0][name]).Some?
      ensures ok ==> Some(value) == cast(queryResult[0][name])
      ensures !ok ==> value == if onRow && name !in queryResult[0] then zero else defVal
    {
      if !onRow {
        return defVal, false;
      }
      if name !in queryResult[0] {
        return zero, false;
      }
      var read := cast(queryResult[0][name]);
      if read.Some? {
        return read.value, true;
      }
      return defVal, false;
    }

    /** A text reads as itself. */
    method GetText(name: string) returns (text: string)
      requires Valid()
      ensures text == if onRow then Column(queryResult[0], name) else ""
    {
      var ok;
      text, ok := GetValue<string>(name, "", "", s => Some(s));
    }
  }

  function Column(row: Row, name: string): string {
    if name in row then row[name] else ""
  }

  function RowText(row: Row): string {
    Column(row, "dt") + " " + Column(row, "symbol") + " " + Column(row, "message") + "\n"
  }

  function RowTexts(rows: seq<Row>): seq<string> {
    if rows == [] then [] else [RowText(rows[0])] + RowTexts(rows[1..])
  }

  /** Date, symbol and message stand in a row's text in this order, a blank after each of the first two
      and a line end after the last; a missing column leaves nothing between them. */
  lemma RowTextSpelledOut(row: Row)
    ensures var text := RowText(row);
            var dt := if "dt" in row then row["dt"] else "";
            var symbol := if "symbol" in row then row["symbol"] else "";
            var message := if "message" in row then row["message"] else "";
            var i := |dt|;
            var j := i + 1 + |symbol|;
            var k := j + 1 + |message|;
            && |text| == k + 1
            && text[..i] == dt && text[i] == ' '
            && text[i + 1..j] == symbol && text[j] == ' '
            && text[j + 1..k] == message && text[k] == '\n'
  {
    var dt, symbol, message := Column(row, "dt"), Column(row, "symbol"), Column(row, "message");
    assert RowText(row) == dt + " " + symbol + " " + message + "\n";
    hide RowText;
    ThreeParts(dt, symbol, message);
  }

  lemma ThreeParts(a: string, b: string, c: string)
    ensures var text := a + " " + b + " " + c + "\n";
            var i := |a|;
            var j := i + 1 + |b|;
            var k := j + 1 + |c|;
            && |text| == k + 1
            && text[..i] == a && text[i] == ' ' && text[i + 1..j] == b && text[j] == ' '
            && text[j + 1..k] == c && text[k] == '\n'
  {
    var ab := a + " " + b;
    assert ab[..|a|] == a && ab[|a| + 1..] == b;
    var abc := ab + " " + c;
    assert abc[..|ab|] == ab && abc[|ab| + 1..] == c;
  }

  // ----- The greedy split -----

  function Join(texts: seq<string>): string {
    if texts == [] then "" else texts[0] + Join(texts[1..])
  }

  function Flatten(groups: seq<seq<string>>): seq<string> {
    if groups == [] then [] else groups[0] + Flatten(groups[1..])
  }

  function JoinEach(groups: seq<seq<string>>): seq<string> {
    if groups == [] then [] else [Join(groups[0])] + JoinEach(groups[1..])
  }

  /** Continues the group `current` with row texts, and opens a new group whenever the next text no
      longer fits. */
  function Greedy(current: seq<string>, texts: seq<string>): (groups: seq<seq<string>>)
    ensures groups != []
    decreases |texts|
  {
    if texts == [] then [current]
    else if |texts[0]| + |Join(current)| > MAX_TEXT_MSG_SIZE then [current] + Greedy([texts[0]], texts[1..])
    else Greedy(current + [texts[0]], texts[1..])
  }

  /** What is sent: the header and the rows, or the header and a note that there are none. */
  function Messages(header: string, note: string, rows: seq<Row>): seq<string> {
    if rows == [] then [header + note] else JoinEach(Greedy([header], RowTexts(rows)))
  }

  lemma {:induction false} JoinConcat(a: seq<string>, b: seq<string>)
    ensures Join(a + b) == Join(a) + Join(b)
    decreases |a|
  {
    if a == [] {
      assert a + b == b;
    } else {
      assert (a + b)[1..] == a[1..] + b;
      JoinConcat(a[1..], b);
    }
  }

  lemma JoinOne(t: string)
    ensures Join([t]) == t
  {
    assert [t][1..] == [];
  }

  /** No text is split, dropped, doubled or moved. */
  lemma {:induction false} GreedyFlattens(current: seq<string>, texts: seq<string>)
    ensures Flatten(Greedy(current, texts)) == current + texts
    decreases |texts|
  {
    if texts == [] {
      assert [current][1..] == [];
    } else {
      GreedyFlattens([texts[0]], texts[1..]);
      GreedyFlattens(current + [texts[0]], texts[1..]);
      assert texts == [texts[0]] + texts[1..];
      assert ([current] + Greedy([texts[0]], texts[1..]))[1..] == Greedy([texts[0]], texts[1..]);
      assert (current + [texts[0]]) + texts[1..] == current + ([texts[0]] + texts[1..]);
    }
  }

  lemma {:induction false} JoinOfFlatten(groups: seq<seq<string>>)
    ensures Join(Flatten(groups)) == Join(JoinEach(groups))
  {
    if groups != [] {
      JoinOfFlatten(groups[1..]);
      JoinConcat(groups[0], Flatten(groups[1..]));
    }
  }

  /** Every message is whole: read one after the other, the messages are the header and all rows. */
  lemma MessagesJoin(header: string, note: string, rows: seq<Row>)
    ensures Join(Messages(header, note, rows)) == header + (if rows == [] then note else Join(RowTexts(rows)))
  {
    if rows == [] {
      JoinOne(header + note);
    } else {
      GreedyFlattens([header], RowTexts(rows));
      JoinOfFlatten(Greedy([header], RowTexts(rows)));
      JoinConcat([header], RowTexts(rows));
      JoinOne(header);
    }
  }

  /** A message has at most 4096 bytes. */
  predicate Fits(texts: seq<string>) {
    forall i :: 0 <= i < |texts| ==> |texts[i]| <= 4096
  }

  lemma {:induction false} GreedyFitsExactly(current: seq<string>, texts: seq<string>)
    ensures Fits(JoinEach(Greedy(current, texts))) <==> |Join(current)| <= MAX_TEXT_MSG_SIZE && Fits(texts)
    decreases |texts|
  {
    if texts == [] {
      assert [current][1..] == [];
      assert JoinEach([current]) == [Join(current)] + [];
      FitsCons(Join(current), []);
    } else {
      var t := texts[0];
      assert texts == [t] + texts[1..];
      assert Fits(texts) <==> |t| <= MAX_TEXT_MSG_SIZE && Fits(texts[1..]);
      if |t| + |Join(current)| > MAX_TEXT_MSG_SIZE {
        GreedyFitsExactly([t], texts[1..]);
        JoinOne(t);
        var rest := Greedy([t], texts[1..]);
        assert ([current] + rest)[1..] == rest;
        FitsCons(Join(current), JoinEach(rest));
      } else {
        GreedyFitsExactly(current + [t], texts[1..]);
        JoinConcat(current, [t]);
        JoinOne(t);
      }
    }
  }

  lemma FitsCons(t: string, ts: seq<string>)
    ensures Fits([t] + ts) <==> |t| <= MAX_TEXT_MSG_SIZE && Fits(ts)
  {
    if Fits([t] + ts) {
      assert |([t] + ts)[0]| <= MAX_TEXT_MSG_SIZE;
      forall i | 0 <= i < |ts| ensures |ts[i]| <= MAX_TEXT_MSG_SIZE {
        assert ([t] + ts)[i + 1] == ts[i];
      }
    }
  }

  /** No message is too long exactly when neither the header nor a row is, and without rows exactly when
      the header and the note together are not. */
  lemma MessagesFitExactly(header: string, note: string, rows: seq<Row>)
    ensures Fits(Messages(header, note, rows)) <==>
            if rows == [] then |header| + |note| <= 4096
            else |header| <= 4096 && Fits(RowTexts(rows))
  {
    if rows == [] {
      FitsCons(header + note, []);
      assert Messages(header, note, rows) == [header + note] + [];
    } else {
      GreedyFitsExactly([header], RowTexts(rows));
      JoinOne(header);
    }
  }

  // ----- Optimality -----

  /** The greedy split never needs more groups than any legal split of the same texts: `rest` is what
      is left of the other split's current group, which already holds `used` bytes. A greedy group
      that holds no more than `used` keeps up; one that holds more falls behind by at most one group. */
  lemma {:induction false} GreedyKeepsUp(current: seq<string>, texts: seq<string>, used: nat,
                                         rest: seq<string>, others: seq<seq<string>>)
    requires texts == rest + Flatten(others)
    requires used + |Join(rest)| <= MAX_TEXT_MSG_SIZE && Fits(JoinEach(others))
    ensures |Greedy(current, texts)| <= 2 + |others|
    ensures |Join(current)| <= used ==> |Greedy(current, texts)| <= 1 + |others|
    decreases |texts|, |others|
  {
    if texts == [] {
    } else if rest == [] {
      assert Fits(JoinEach(others[1..])) && |Join(others[0])| <= MAX_TEXT_MSG_SIZE by {
        FitsCons(Join(others[0]), JoinEach(others[1..]));
      }
      if others[0] == [] {
        GreedyKeepsUp(current, texts, used, [], others[1..]);
      } else {
        NextGroup(current, texts, others);
      }
    } else {
      var t := texts[0];
      assert t == rest[0] && texts[1..] == rest[1..] + Flatten(others);
      assert Join(rest) == t + Join(rest[1..]);
      JoinOne(t);
      JoinConcat(current, [t]);
      if |t| + |Join(current)| > MAX_TEXT_MSG_SIZE {
        GreedyKeepsUp([t], texts[1..], used + |t|, rest[1..], others);
      } else {
        GreedyKeepsUp(current + [t], texts[1..], used + |t|, rest[1..], others);
      }
    }
  }

  /** The other split opens a group: it takes the first text of that group into an empty one. */
  lemma {:induction false} NextGroup(current: seq<string>, texts: seq<string>, others: seq<seq<string>>)
    requires others != [] && others[0] != [] && texts == Flatten(others)
    requires |Join(others[0])| <= MAX_TEXT_MSG_SIZE && Fits(JoinEach(others[1..]))
    ensures |Greedy(current, texts)| <= 1 + |others|
    decreases |texts|, 0
  {
    var t, rest := texts[0], others[0][1..];
    assert t == others[0][0] && texts[1..] == rest + Flatten(others[1..]);
    JoinOne(t);
    JoinConcat(current, [t]);
    if |t| + |Join(current)| > MAX_TEXT_MSG_SIZE {
      GreedyKeepsUp([t], texts[1..], |t|, rest, others[1..]);
    } else {
      GreedyKeepsUp(current + [t], texts[1..], |t|, rest, others[1..]);
    }
  }

  lemma {:induction false} GreedyIsFewest(header: string, texts: seq<string>, split: seq<seq<string>>)
    requires split != [] && split[0] != [] && Flatten(split) == [header] + texts && Fits(JoinEach(split))
    ensures |Greedy([header], texts)| <= |split|
  {
    var rest := split[0][1..];
    assert split[0] == [split[0][0]] + rest;
    assert [header] + texts == [split[0][0]] + (rest + Flatten(split[1..]));
    assert ([header] + texts)[0] == header && ([header] + texts)[1..] == texts;
    assert texts == rest + Flatten(split[1..]);
    JoinOne(header);
    FitsCons(Join(split[0]), JoinEach(split[1..]));
    GreedyKeepsUp([header], texts, |header|, rest, split[1..]);
  }

  /** The texts that must not be split: the header and the rows, or the header with the note. */
  function Pieces(header: string, note: string, rows: seq<Row>): seq<string> {
    if rows == [] then [header + note] else [header] + RowTexts(rows)
  }

  /** No split of these texts into messages of legal size has fewer messages. */
  lemma {:induction false} FewestMessages(header: string, note: string, rows: seq<Row>, split: seq<seq<string>>)
    requires Flatten(split) == Pieces(header, note, rows) && Fits(JoinEach(split))
    ensures |Messages(header, note, rows)| <= |split|
  {
    if rows == [] {
      assert split != [];
    } else {
      hide Flatten, JoinEach, Fits, Greedy, RowTexts, WithoutEmptyHead;
      JoinEachLength(Greedy([header], RowTexts(rows)));
      DropEmptyHead(split);
      GreedyIsFewest(header, RowTexts(rows), WithoutEmptyHead(split));
    }
  }

  lemma {:induction false} JoinEachLength(groups: seq<seq<string>>)
    ensures |JoinEach(groups)| == |groups|
  {
    if groups != [] {
      JoinEachLength(groups[1..]);
    }
  }

  function WithoutEmptyHead(split: seq<seq<string>>): seq<seq<string>> {
    if split == [] || split[0] != [] then split else WithoutEmptyHead(split[1..])
  }

  lemma {:induction false} DropEmptyHead(split: seq<seq<string>>)
    requires Flatten(split) != [] && Fits(JoinEach(split))
    ensures var s := WithoutEmptyHead(split);
            s != [] && s[0] != [] && |s| <= |split| && Flatten(s) == Flatten(split) && Fits(JoinEach(s))
  {
    if split[0] == [] {
      FitsCons(Join(split[0]), JoinEach(split[1..]));
      assert Flatten(split) == Flatten(split[1..]);
      DropEmptyHead(split[1..]);
    }
  }

  // ----- The loop -----

  /** Sends the journal, or a note about the failed query. Each row is visited once, in order. */
  method OnStatReady(db: Database, rows: seq<Row>, ok: bool, header: string, note: string, failure: string)
    returns (sent: seq<string>)
    modifies db
    ensures sent == if ok then Messages(header, note, rows) else [failure]
    ensures ok ==> db.visited == rows
  {
    var done := db.Exec(rows, ok);
    if !done {
      return [failure];
    }
    sent := SendRows(db, rows, header, note);
  }

  method SendRows(db: Database, ghost rows: seq<Row>, header: string, note: string) returns (sent: seq<string>)
    requires db.Valid() && db.Ahead() == rows && db.visited == []
    modifies db
    ensures sent == Messages(header, note, rows) && db.visited == rows
  {
    hide Greedy, JoinEach, Join, RowTexts, RowText;
    var mdata := header;
    var count := 0;
    sent := [];
    ghost var group, texts := [header], RowTexts(rows);
    JoinOne(header);
    assert rows[0..] == rows;
    var more := db.Next();
    while more
      invariant db.Valid() && more == db.onRow && db.visited + db.Ahead() == rows
      invariant !more ==> db.Ahead() == []
      invariant |db.visited| == if more then count + 1 else count
      invariant mdata == Join(group)
      invariant count <= |rows| && texts == RowTexts(rows[count..])
      invariant sent + JoinEach(Greedy(group, texts)) == JoinEach(Greedy([header], RowTexts(rows)))
      invariant count == 0 ==> mdata == header && sent == []
      decreases |rows| - count
    {
      assert rows[count] == db.visited[count] == db.queryResult[0];
      NextRow(rows, count);
      count := count + 1;
      texts := RowTexts(rows[count..]);
      var temp := CurrentText(db);
      PackOne(group, temp, texts, sent);
      if MAX_TEXT_MSG_SIZE < |temp| + |mdata| {
        sent := sent + [mdata];
        mdata := "";
        group := [];
      }
      mdata := mdata + temp;
      group := group + [temp];
      more := db.Next();
    }
    assert db.visited == rows;
    assert rows[count..] == [];
    PackNone(group, sent);
    if count == 0 {
      mdata := mdata + note;
    }
    sent := sent + [mdata];
  }

  method CurrentText(db: Database) returns (temp: string)
    requires db.Valid() && db.onRow
    ensures temp == RowText(db.queryResult[0])
  {
    var dt := db.GetText("dt");
    temp := dt + " ";
    var symbol := db.GetText("symbol");
    temp := temp + symbol + " ";
    var message := db.GetText("message");
    temp := temp + message + "\n";
  }

  lemma NextRow(rows: seq<Row>, i: nat)
    requires i < |rows|
    ensures RowTexts(rows[i..]) == [RowText(rows[i])] + RowTexts(rows[i + 1..])
  {
    assert rows[i..][1..] == rows[i + 1..];
  }

  /** One more row text, in the words of the loop. */
  lemma PackOne(group: seq<string>, t: string, rest: seq<string>, sent: seq<string>)
    ensures var fits := |t| + |Join(group)| <= MAX_TEXT_MSG_SIZE;
            var before := if fits then sent else sent + [Join(group)];
            var group' := if fits then group else [];
            sent + JoinEach(Greedy(group, [t] + rest)) == before + JoinEach(Greedy(group' + [t], rest)) &&
            Join(group' + [t]) == Join(group') + t && Join([]) == ""
  {
    assert ([t] + rest)[1..] == rest;
    JoinConcat(group, [t]);
    JoinOne(t);
    if |t| + |Join(group)| > MAX_TEXT_MSG_SIZE {
      assert Greedy(group, [t] + rest)[1..] == Greedy([t], rest);
      assert [] + [t] == [t];
    }
  }

  lemma PackNone(group: seq<string>, sent: seq<string>)
    ensures sent + JoinEach(Greedy(group, RowTexts([]))) == sent + [Join(group)]
  {
    assert [group][1..] == [];
    assert JoinEach([group]) == [Join(group)] + [];
  }
}
