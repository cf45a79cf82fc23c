/** src/utils/fileParser.js: parseTSVContent reads pasted tab-separated
    text with a header row naming the columns 语料名称 (corpus name) and
    文字内容 (text content), keeps the rows whose trimmed name and text are
    both present, and aggregateDataByText merges the rows that share a text
    into one entry whose name lists every distinct name once, joined with
    '&', in the order first seen. */
module FileParser {
  import opened Common

  const NAME_HEADER: string := "语料名称"
  const TEXT_HEADER: string := "文字内容"

  /** One data row: the corpus name (`index`) and its text. */
  datatype Row = Row(index: string, text: string)

  datatype ParseError =
    | EmptyContent     // nothing but whitespace was pasted
    | MissingDataRows  // fewer than two lines: no header and data row
    | MissingHeaders   // the header lacks one of the two column names
    | NoValidData      // no row had both a name and a text

  // ---------------------------------------------------------------------------
  // Aggregation by text
  // ---------------------------------------------------------------------------

  /** The texts of the parts, trimmed, the empty ones dropped. */
  function TrimmedNonEmpty(parts: seq<string>): seq<string> {
    if parts == [] then []
    else (if Trim(parts[0]) == "" then [] else [Trim(parts[0])]) + TrimmedNonEmpty(parts[1..])
  }

  /** The names a name field lists: item.index.split('&') trimmed, the
      empty pieces dropped. */
  function NamePieces(index: string): seq<string> {
    TrimmedNonEmpty(Split(index, '&'))
  }

  function Texts(rows: seq<Row>): (r: seq<string>)
    ensures |r| == |rows| && forall i | 0 <= i < |rows| :: r[i] == rows[i].text
  {
    seq(|rows|, i requires 0 <= i < |rows| => rows[i].text)
  }

  /** Every name listed, in order, by the rows whose text is t. */
  function NamesFor(rows: seq<Row>, t: string): seq<string> {
    if rows == [] then []
    else
      var last := rows[|rows| - 1];
      NamesFor(rows[..|rows| - 1], t) + (if last.text == t then NamePieces(last.index) else [])
  }

  /** The name of the entry for text t: the distinct names, first seen
      first, joined with '&'. */
  function CombinedName(rows: seq<Row>, t: string): string {
    Join(Distinct(NamesFor(rows, t)), "&")
  }

  /** One entry per key, in the order of the keys, dropping the keys whose
      combined name is empty. */
  function Collect(keys: seq<string>, rows: seq<Row>): seq<Row> {
    if keys == [] then []
    else
      var t := keys[|keys| - 1];
      Collect(keys[..|keys| - 1], rows) + (if CombinedName(rows, t) != "" then [Row(CombinedName(rows, t), t)] else [])
  }

  /** What aggregateDataByText returns: the Map's keys are the distinct
      texts in the order first seen. */
  function Aggregated(rows: seq<Row>): seq<Row> {
    Collect(Distinct(Texts(rows)), rows)
  }

  lemma TextsPrefix(rows: seq<Row>, i: nat)
    requires i < |rows|
    ensures Texts(rows[..i + 1]) == Texts(rows[..i]) + [rows[i].text]
  {
  }

  lemma {:induction false} NamesForAbsent(rows: seq<Row>, t: string)
    requires t !in Texts(rows)
    ensures NamesFor(rows, t) == []
  {
    if rows != [] {
      var init := rows[..|rows| - 1];
      assert Texts(rows) == Texts(init) + [rows[|rows| - 1].text];
      NamesForAbsent(init, t);
    }
  }

  /** Adding the names of one piece list to the set of names, one at a time. */
  lemma NamesForSnoc(rows: seq<Row>, i: nat, t: string)
    requires i < |rows|
    ensures NamesFor(rows[..i + 1], t)
      == NamesFor(rows[..i], t) + (if rows[i].text == t then NamePieces(rows[i].index) else [])
  {
    assert rows[..i + 1][..i] == rows[..i];
  }

  /** The Map's sets after one more row: only the set of that row's text
      changes. */
  lemma NamesStep(rows: seq<Row>, i: nat, before: map<string, seq<string>>, after: map<string, seq<string>>)
    requires i < |rows|
    requires forall t | t in before :: before[t] == Distinct(NamesFor(rows[..i], t))
    requires rows[i].text in after && after[rows[i].text] == Distinct(NamesFor(rows[..i], rows[i].text) + NamePieces(rows[i].index))
    requires forall t | t in after && t != rows[i].text :: t in before && after[t] == before[t]
    ensures forall t | t in after :: after[t] == Distinct(NamesFor(rows[..i + 1], t))
  {
    forall t | t in after ensures after[t] == Distinct(NamesFor(rows[..i + 1], t)) {
      NamesForSnoc(rows, i, t);
      if t != rows[i].text {
        var n := NamesFor(rows[..i], t);
        assert n + [] == n;
      }
    }
  }

  /** The Map's keys after one more row. */
  lemma KeysStep(rows: seq<Row>, i: nat)
    requires i < |rows|
    ensures var d := Distinct(Texts(rows[..i]));
      Distinct(Texts(rows[..i + 1])) == if rows[i].text in d then d else d + [rows[i].text]
  {
    TextsPrefix(rows, i);
    DistinctSnoc(Texts(rows[..i]), rows[i].text);
  }

  /** names.forEach(name => set.add(name)): the Set, as the distinct
      names seen so far in insertion order, after adding the pieces. */
  method AddNames(known: seq<string>, pieces: seq<string>, ghost seen: seq<string>) returns (r: seq<string>)
    requires known == Distinct(seen)
    ensures r == Distinct(seen + pieces)
  {
    r := known;
    var j := 0;
    assert seen + pieces[..0] == seen;
    while j < |pieces|
      invariant 0 <= j <= |pieces|
      invariant r == Distinct(seen + pieces[..j])
    {
      assert (seen + pieces[..j]) + [pieces[j]] == seen + pieces[..j + 1];
      DistinctSnoc(seen + pieces[..j], pieces[j]);
      if pieces[j] !in r {
        r := r + [pieces[j]];
      }
      j := j + 1;
    }
    assert pieces[..j] == pieces;
  }

  /** The first half of aggregateDataByText: a Map from text to a Set of
      names, filled row by row. The Map's key order is modelled by `keys`,
      a Set's insertion order by the sequence it maps to. */
  method GroupNames(dataList: seq<Row>) returns (keys: seq<string>, names: map<string, seq<string>>)
    ensures keys == Distinct(Texts(dataList))
    ensures forall t :: t in names <==> t in keys
    ensures forall t | t in names :: names[t] == Distinct(NamesFor(dataList, t))
  {
    keys := [];
    names := map[];
    var i := 0;
    while i < |dataList|
      invariant 0 <= i <= |dataList|
      invariant keys == Distinct(Texts(dataList[..i]))
      invariant forall t :: t in names <==> t in keys
      invariant forall t | t in names :: names[t] == Distinct(NamesFor(dataList[..i], t))
    {
      var item := dataList[i];
      var normalizedText := item.text;
      ghost var seen := NamesFor(dataList[..i], normalizedText);
      KeysStep(dataList, i);
      var known: seq<string> := [];
      if normalizedText in names {
        known := names[normalizedText];
      } else {
        keys := keys + [normalizedText];
        NamesForAbsent(dataList[..i], normalizedText);
      }
      var added := AddNames(known, NamePieces(item.index), seen);
      ghost var before := names;
      names := names[normalizedText := added];
      NamesStep(dataList, i, before, names);
      i := i + 1;
    }
    assert dataList[..i] == dataList;
  }

  /** aggregateDataByText: the names grouped by text, then one entry per
      key, in key order, whose joined names are not empty. */
  method AggregateDataByText(dataList: seq<Row>) returns (result: seq<Row>)
    ensures result == Aggregated(dataList)
  {
    var keys, names := GroupNames(dataList);
    result := [];
    var k := 0;
    while k < |keys|
      invariant 0 <= k <= |keys|
      invariant result == Collect(keys[..k], dataList)
    {
      assert keys[..k + 1][..k] == keys[..k];
      var combinedName := Join(names[keys[k]], "&");
      if combinedName != "" {
        result := result + [Row(combinedName, keys[k])];
      }
      k := k + 1;
    }
    assert keys[..k] == keys;
  }

  // ---------------------------------------------------------------------------
  // What the aggregation promises
  // ---------------------------------------------------------------------------

  /** Every entry of Collect carries one of the keys and its combined
      name, which is not empty; a key is carried iff its name is not empty. */
  lemma {:induction false} CollectEntries(keys: seq<string>, rows: seq<Row>)
    ensures var r := Collect(keys, rows);
      (forall i | 0 <= i < |r| :: r[i].text in keys && r[i].index == CombinedName(rows, r[i].text) && r[i].index != "")
      && (forall t :: t in Texts(r) <==> t in keys && CombinedName(rows, t) != "")
  {
    if keys != [] {
      var init := keys[..|keys| - 1];
      var t := keys[|keys| - 1];
      CollectEntries(init, rows);
      assert keys == init + [t];
      var r0 := Collect(init, rows);
      var r := Collect(keys, rows);
      if CombinedName(rows, t) != "" {
        assert r == r0 + [Row(CombinedName(rows, t), t)];
        assert Texts(r) == Texts(r0) + [t];
      } else {
        assert r == r0;
      }
    }
  }

  /** With distinct keys, the entries follow the order of the keys, so no
      text has two entries. */
  lemma {:induction false} CollectOrder(keys: seq<string>, rows: seq<Row>)
    requires NoDuplicates(keys)
    ensures var r := Collect(keys, rows);
      forall i, j | 0 <= i < j < |r| :: r[i].text in keys && r[j].text in keys && IndexOf(keys, r[i].text) < IndexOf(keys, r[j].text)
  {
    if keys != [] {
      var init := keys[..|keys| - 1];
      var t := keys[|keys| - 1];
      assert keys == init + [t];
      CollectOrder(init, rows);
      CollectEntries(init, rows);
      var r0 := Collect(init, rows);
      forall x | x in init ensures IndexOf(keys, x) == IndexOf(init, x) < |init| {
        IndexOfPrefix(keys, |init|, x);
      }
      assert t !in init;
      assert IndexOf(keys, t) == |init|;
    }
  }

  /** aggregateDataByText yields one entry per distinct text whose names
      are not all empty, in the order the texts first appear, each named by
      its combined name; no text has two entries. */
  lemma AggregatedEntries(rows: seq<Row>)
    ensures var r := Aggregated(rows);
      (forall i | 0 <= i < |r| :: r[i].text in Texts(rows) && r[i].index == CombinedName(rows, r[i].text) && r[i].index != "")
      && (forall t :: t in Texts(r) <==> t in Texts(rows) && CombinedName(rows, t) != "")
      && (forall i, j | 0 <= i < j < |r| :: IndexOf(Texts(rows), r[i].text) < IndexOf(Texts(rows), r[j].text))
  {
    var keys := Distinct(Texts(rows));
    DistinctNoDuplicates(Texts(rows));
    var r := Aggregated(rows);
    CollectEntries(keys, rows);
    CollectOrder(keys, rows);
    DistinctOrder(Texts(rows));
    forall i, j | 0 <= i < j < |r| ensures IndexOf(Texts(rows), r[i].text) < IndexOf(Texts(rows), r[j].text) {
      var a := IndexOf(keys, r[i].text);
      var b := IndexOf(keys, r[j].text);
      assert keys[a] == r[i].text && keys[b] == r[j].text;
    }
  }

  /** A trimmed text holds no character the text does not. */
  lemma TrimChars(s: string, c: char)
    requires c !in s
    ensures c !in Trim(s)
  {
    TrimIsInfix(s);
    var k := |s| - |TrimStart(s)|;
    var t := Trim(s);
    forall m | 0 <= m < |t| ensures t[m] != c {
      assert t[m] == s[k + m];
    }
  }

  predicate NamePiece(x: string) {
    x != "" && Trim(x) == x && '&' !in x
  }

  predicate AllNamePieces(xs: seq<string>) {
    forall i | 0 <= i < |xs| :: NamePiece(xs[i])
  }

  lemma AllNamePiecesConcat(a: seq<string>, b: seq<string>)
    requires AllNamePieces(a) && AllNamePieces(b)
    ensures AllNamePieces(a + b)
  {
    forall i | 0 <= i < |a + b| ensures NamePiece((a + b)[i]) {
      if i < |a| { assert (a + b)[i] == a[i]; } else { assert (a + b)[i] == b[i - |a|]; }
    }
  }

  /** The pieces of a name field are non-empty, trimmed and free of '&'. */
  lemma {:induction false} TrimmedNonEmptyShape(parts: seq<string>)
    requires forall i | 0 <= i < |parts| :: '&' !in parts[i]
    ensures AllNamePieces(TrimmedNonEmpty(parts))
  {
    if parts != [] {
      TrimmedNonEmptyShape(parts[1..]);
      var t := Trim(parts[0]);
      TrimIdempotent(parts[0]);
      TrimChars(parts[0], '&');
      var head := if t == "" then [] else [t];
      assert AllNamePieces(head);
      AllNamePiecesConcat(head, TrimmedNonEmpty(parts[1..]));
    }
  }

  lemma {:induction false} NamesForShape(rows: seq<Row>, t: string)
    ensures AllNamePieces(NamesFor(rows, t))
  {
    if rows != [] {
      var last := rows[|rows| - 1];
      NamesForShape(rows[..|rows| - 1], t);
      TrimmedNonEmptyShape(Split(last.index, '&'));
      AllNamePiecesConcat(NamesFor(rows[..|rows| - 1], t), if last.text == t then NamePieces(last.index) else []);
    }
  }

  lemma {:induction false} JoinNonEmpty(parts: seq<string>, sep: string)
    requires parts != [] && parts[0] != ""
    ensures Join(parts, sep) != ""
  {
    if |parts| > 1 {
      assert Join(parts, sep) == parts[0] + sep + Join(parts[1..], sep);
    }
  }

  /** An entry's name is empty exactly when none of its rows lists a name;
      when it is not, splitting it on '&' gives the distinct names, each
      non-empty and trimmed, in the order first seen. */
  lemma CombinedNameSplits(rows: seq<Row>, t: string)
    ensures CombinedName(rows, t) == "" <==> NamesFor(rows, t) == []
    ensures CombinedName(rows, t) != "" ==>
      var d := Distinct(NamesFor(rows, t));
      Split(CombinedName(rows, t), '&') == d
      && (forall i | 0 <= i < |d| :: d[i] != "" && Trim(d[i]) == d[i])
      && (forall x :: x in d <==> x in NamesFor(rows, t))
  {
    var n := NamesFor(rows, t);
    var d := Distinct(n);
    NamesForShape(rows, t);
    forall i | 0 <= i < |d| ensures NamePiece(d[i]) {
      assert d[i] in d;
      var k :| 0 <= k < |n| && n[k] == d[i];
    }
    if n != [] {
      assert n[0] in d;
      JoinNonEmpty(d, "&");
      SplitJoin(d, '&');
    }
  }

  // ---------------------------------------------------------------------------
  // Tab-separated input
  // ---------------------------------------------------------------------------

  /** text.split(/\r?\n/): the pieces between line feeds, a carriage return
      right before a line feed dropped with it. */
  function SplitLines(s: string): (r: seq<string>)
    ensures |r| >= 1
  {
    var p := Split(s, '\n');
    seq(|p|, i requires 0 <= i < |p| =>
      if i < |p| - 1 && p[i] != [] && p[i][|p[i]| - 1] == '\r' then p[i][..|p[i]| - 1] else p[i])
  }

  /** The header cells: the first line split on tabs, each trimmed. */
  function Headers(line: string): (r: seq<string>)
    ensures |r| == |Split(line, '\t')|
    ensures forall i | 0 <= i < |r| :: r[i] == Trim(Split(line, '\t')[i])
  {
    var cells := Split(line, '\t');
    seq(|cells|, i requires 0 <= i < |cells| => Trim(cells[i]))
  }

  function Max(a: nat, b: nat): nat {
    if a < b then b else a
  }

  /** The row one data line gives, if any: it needs a cell past both column
      indices, and a name and a text that are not empty once trimmed. */
  function RowOf(line: string, nameIndex: nat, textIndex: nat): seq<Row> {
    var cells := Split(line, '\t');
    if |cells| <= Max(nameIndex, textIndex) then []
    else
      var name := Trim(cells[nameIndex]);
      var text := Trim(cells[textIndex]);
      if name != "" && text != "" then [Row(name, text)] else []
  }

  /** The rows the data lines give, in order. */
  function ValidRows(lines: seq<string>, nameIndex: nat, textIndex: nat): seq<Row> {
    if lines == [] then []
    else ValidRows(lines[..|lines| - 1], nameIndex, textIndex) + RowOf(lines[|lines| - 1], nameIndex, textIndex)
  }

  /** The rows of pasted tab-separated text before aggregation, or the
      error it is rejected with. */
  function Extract(content: string): Result<seq<Row>, ParseError> {
    if Trim(content) == "" then Err(EmptyContent)
    else
      var lines := SplitLines(Trim(content));
      if |lines| < 2 then Err(MissingDataRows)
      else
        var h := Headers(lines[0]);
        if NAME_HEADER !in h || TEXT_HEADER !in h then Err(MissingHeaders)
        else
          var rows := ValidRows(lines[1..], IndexOf(h, NAME_HEADER), IndexOf(h, TEXT_HEADER));
          if rows == [] then Err(NoValidData) else Ok(rows)
  }

  /** The row extraction of parseTSVContent, also what the paste dialog of
      src/pages/TtsEditor.jsx applies: a loop over the data lines pushing
      each valid row. */
  method ExtractRows(content: string) returns (r: Result<seq<Row>, ParseError>)
    ensures r == Extract(content)
  {
    if Trim(content) == "" {
      return Err(EmptyContent);
    }
    var rows := SplitLines(Trim(content));
    if |rows| < 2 {
      return Err(MissingDataRows);
    }
    var headers := Headers(rows[0]);
    if NAME_HEADER !in headers || TEXT_HEADER !in headers {
      return Err(MissingHeaders);
    }
    var nameIndex := IndexOf(headers, NAME_HEADER);
    var textIndex := IndexOf(headers, TEXT_HEADER);
    var rawData := ReadDataRows(rows, nameIndex, textIndex);
    if rawData == [] {
      return Err(NoValidData);
    }
    return Ok(rawData);
  }

  /** The loop over the lines after the header, pushing the row of each
      valid one. */
  method ReadDataRows(rows: seq<string>, nameIndex: nat, textIndex: nat) returns (rawData: seq<Row>)
    requires |rows| >= 1
    ensures rawData == ValidRows(rows[1..], nameIndex, textIndex)
  {
    rawData := [];
    var i := 1;
    while i < |rows|
      invariant 1 <= i <= |rows|
      invariant rawData == ValidRows(rows[1..i], nameIndex, textIndex)
    {
      assert rows[1..i + 1][..i - 1] == rows[1..i];
      var rowData := Split(rows[i], '\t');
      if |rowData| <= Max(nameIndex, textIndex) {
        i := i + 1;
        continue;
      }
      var name := Trim(rowData[nameIndex]);
      var text := Trim(rowData[textIndex]);
      if name != "" && text != "" {
        rawData := rawData + [Row(name, text)];
      }
      i := i + 1;
    }
    assert rows[1..i] == rows[1..];
  }

  /** parseTSVContent: the extracted rows, aggregated by text; the errors
      of the extraction are passed on. */
  method ParseTsvContent(content: string) returns (r: Result<seq<Row>, ParseError>)
    ensures Extract(content).Err? ==> r == Err(Extract(content).error)
    ensures Extract(content).Ok? ==> r == Ok(Aggregated(Extract(content).value))
  {
    var extracted := ExtractRows(content);
    if extracted.Err? {
      return Err(extracted.error);
    }
    var aggregated := AggregateDataByText(extracted.value);
    return Ok(aggregated);
  }

  /** Each data line gives at most one row, whose name and text are
      trimmed and not empty. */
  lemma {:induction false} ValidRowsShape(lines: seq<string>, nameIndex: nat, textIndex: nat)
    ensures var rows := ValidRows(lines, nameIndex, textIndex);
      |rows| <= |lines|
      && forall i | 0 <= i < |rows| :: rows[i].index != "" && rows[i].text != ""
           && Trim(rows[i].index) == rows[i].index && Trim(rows[i].text) == rows[i].text
  {
    if lines != [] {
      var line := lines[|lines| - 1];
      ValidRowsShape(lines[..|lines| - 1], nameIndex, textIndex);
      var cells := Split(line, '\t');
      if |cells| > Max(nameIndex, textIndex) {
        TrimIdempotent(cells[nameIndex]);
        TrimIdempotent(cells[textIndex]);
      }
    }
  }

  /** Pasted text is rejected when it is blank, when it has no data line,
      when the header misses a column name, and when no data line is
      valid; otherwise the rows are the valid data lines' rows, at least
      one, read at the first header cell of each column name. */
  lemma ExtractOutcomes(content: string)
    ensures Extract(content) == Err(EmptyContent) <==> IsBlank(content)
    ensures !IsBlank(content) ==>
      var lines := SplitLines(Trim(content));
      (Extract(content) == Err(MissingDataRows) <==> |lines| < 2)
      && (|lines| >= 2 ==>
        var h := Headers(lines[0]);
        (Extract(content) == Err(MissingHeaders) <==> NAME_HEADER !in h || TEXT_HEADER !in h)
        && (NAME_HEADER in h && TEXT_HEADER in h ==>
          var rows := ValidRows(lines[1..], IndexOf(h, NAME_HEADER), IndexOf(h, TEXT_HEADER));
          (Extract(content) == Err(NoValidData) <==> rows == [])
          && (rows != [] ==> Extract(content) == Ok(rows))))
    ensures Extract(content).Ok? ==>
      var rows := Extract(content).value;
      rows != [] && forall i | 0 <= i < |rows| :: (rows[i].index != "" && rows[i].text != ""
        && Trim(rows[i].index) == rows[i].index && Trim(rows[i].text) == rows[i].text)
  {
    TrimEmptyIffBlank(content);
    if Extract(content).Ok? {
      var lines := SplitLines(Trim(content));
      var h := Headers(lines[0]);
      ValidRowsShape(lines[1..], IndexOf(h, NAME_HEADER), IndexOf(h, TEXT_HEADER));
    }
  }
}
