/** CSV export of bar-chart data: RFC 4180 cell escaping, file-name sanitising,
    gathering the exportable series of several queries, and the CSV text itself. */
module BarchartCsv {
  import opened Base

  // ---------------------------------------------------------------------------
  // escapeCsvValue

  /** A cell must be quoted when it holds a comma, a double quote, CR or LF
      (rules 6 and 7 of section 2 of RFC 4180). */
  predicate NeedsQuoting(s: string) {
    ',' in s || '"' in s || '\n' in s || '\r' in s
  }

  /** Every double quote written twice. */
  function DoubleQuotes(s: string): (r: string)
    ensures |r| >= |s|
  {
    if s == [] then []
    else (if s[0] == '"' then "\"\"" else [s[0]]) + DoubleQuotes(s[1..])
  }

  /** The cell text for a value; `None` stands for `null` and `undefined`, and
      `Some(s)` for a value whose `String(value)` is `s`. */
  function EscapeCsvValue(v: Option<string>): (r: string)
    ensures v.None? ==> r == ""
    ensures v.Some? && !NeedsQuoting(v.value) ==> r == v.value
    ensures v.Some? && NeedsQuoting(v.value) ==> |r| >= |v.value| + 2 && r[0] == '"' && r[|r| - 1] == '"'
  {
    match v
    case None => ""
    case Some(s) => if NeedsQuoting(s) then "\"" + DoubleQuotes(s) + "\"" else s
  }

  /** Reading doubled quotes back as single ones (the reader's side of rule 7). */
  function Undouble(s: string): string
    decreases |s|
  {
    if s == [] then []
    else if |s| >= 2 && s[0] == '"' && s[1] == '"' then "\"" + Undouble(s[2..])
    else [s[0]] + Undouble(s[1..])
  }

  /** How a CSV reader recovers a field's text. */
  function ParseField(r: string): string {
    if |r| >= 2 && r[0] == '"' && r[|r| - 1] == '"' then Undouble(r[1..|r| - 1]) else r
  }

  lemma {:induction false} UndoubleDoubleQuotes(s: string)
    ensures Undouble(DoubleQuotes(s)) == s
  {
    if s != [] {
      UndoubleDoubleQuotes(s[1..]);
      var rest := DoubleQuotes(s[1..]);
      if s[0] == '"' {
        assert ("\"\"" + rest)[2..] == rest;
      } else {
        assert ([s[0]] + rest)[1..] == rest;
      }
    }
  }

  /** Escaping is undone by a CSV reader: the cell reads back as `String(value)`. */
  lemma EscapeRoundTrip(s: string)
    ensures ParseField(EscapeCsvValue(Some(s))) == s
  {
    if NeedsQuoting(s) {
      var r := EscapeCsvValue(Some(s));
      assert r[1..|r| - 1] == DoubleQuotes(s);
      UndoubleDoubleQuotes(s);
    } else {
      assert '"' !in s;
      if |s| >= 2 {
        assert s[0] != '"';
      }
    }
  }

  // ---------------------------------------------------------------------------
  // sanitizeFilename

  /** The characters `<>:"/\|?*` that are replaced by a space. */
  predicate Forbidden(c: char) {
    c in "<>:\"/\\|?*"
  }

  function ReplaceForbidden(s: string): (r: string)
    ensures |r| == |s|
    ensures forall i :: 0 <= i < |s| ==> r[i] == (if Forbidden(s[i]) then ' ' else s[i])
  {
    seq(|s|, i requires 0 <= i < |s| => if Forbidden(s[i]) then ' ' else s[i])
  }

  /** The index where the word starting at or before `i` ends. */
  function WordEnd(s: string, i: nat): (j: nat)
    requires i <= |s|
    ensures i <= j <= |s|
    ensures j < |s| ==> IsWhitespace(s[j])
    ensures forall k :: i <= k < j ==> !IsWhitespace(s[k])
    decreases |s| - i
  {
    if i == |s| || IsWhitespace(s[i]) then i else WordEnd(s, i + 1)
  }

  /** `s.trim().split(/\s+/).filter(w => w.length > 0)`: the maximal runs of non-whitespace. */
  function Words(s: string): (ws: seq<string>)
    ensures AllNonEmpty(ws)
    decreases |s|
  {
    if s == [] then []
    else if IsWhitespace(s[0]) then Words(s[1..])
    else
      var k := WordEnd(s, 0);
      [s[..k]] + Words(s[k..])
  }

  function Capitalize(w: string): (r: string)
    ensures |r| == |w|
  {
    if w == [] then [] else [UpperChar(w[0])] + Lower(w[1..])
  }

  /** The first word lower-cased, every later word capitalised, all joined without separator. */
  function CamelJoin(ws: seq<string>): (r: string)
  {
    if ws == [] then [] else Lower(ws[0]) + CapitalizedTail(ws[1..])
  }

  function CapitalizedTail(ws: seq<string>): string {
    if ws == [] then [] else Capitalize(ws[0]) + CapitalizedTail(ws[1..])
  }

  function SanitizeFilename(filename: string): (r: string)
  {
    CamelJoin(Words(ReplaceForbidden(filename)))
  }

  /** The characters a file name keeps: neither whitespace nor forbidden. */
  function Kept(s: string): (r: string)
  {
    if s == [] then []
    else (if IsWhitespace(s[0]) || Forbidden(s[0]) then [] else [s[0]]) + Kept(s[1..])
  }

  predicate Clean(s: string) {
    forall i :: 0 <= i < |s| ==> !IsWhitespace(s[i]) && !Forbidden(s[i])
  }

  lemma CaseKeepsClean(c: char)
    requires !IsWhitespace(c) && !Forbidden(c)
    ensures !IsWhitespace(LowerChar(c)) && !Forbidden(LowerChar(c))
    ensures !IsWhitespace(UpperChar(c)) && !Forbidden(UpperChar(c))
  {
  }

  lemma LowerClean(s: string)
    requires Clean(s)
    ensures Clean(Lower(s))
  {
    forall i | 0 <= i < |s| ensures !IsWhitespace(Lower(s)[i]) && !Forbidden(Lower(s)[i]) {
      CaseKeepsClean(s[i]);
    }
  }

  lemma CapitalizeClean(w: string)
    requires Clean(w)
    ensures Clean(Capitalize(w))
  {
    if w != [] {
      CaseKeepsClean(w[0]);
      LowerClean(w[1..]);
    }
  }

  predicate AllClean(ws: seq<string>) {
    forall i :: 0 <= i < |ws| ==> Clean(ws[i])
  }

  lemma {:induction false} CapitalizedTailClean(ws: seq<string>)
    requires AllClean(ws)
    ensures Clean(CapitalizedTail(ws))
  {
    if ws != [] {
      CapitalizeClean(ws[0]);
      CapitalizedTailClean(ws[1..]);
    }
  }

  /** The words of a string with no forbidden character are clean, and their
      concatenation is exactly the non-whitespace characters. */
  lemma {:induction false} WordsClean(s: string)
    requires forall i :: 0 <= i < |s| ==> !Forbidden(s[i])
    ensures AllClean(Words(s))
    ensures Concat(Words(s)) == Kept(s)
    decreases |s|
  {
    if s != [] {
      if IsWhitespace(s[0]) {
        assert Words(s) == Words(s[1..]);
        assert Kept(s) == Kept(s[1..]);
        WordsClean(s[1..]);
      } else {
        var k := WordEnd(s, 0);
        assert forall i :: 0 <= i < |s[k..]| ==> !Forbidden(s[k..][i]);
        WordsClean(s[k..]);
        FirstWordClean(s, k);
      }
    }
  }

  /** A string starting with a word: its words are clean and concatenate to its kept characters
      when those of the rest after the word do. */
  lemma FirstWordClean(s: string, k: nat)
    requires s != [] && !IsWhitespace(s[0]) && k == WordEnd(s, 0)
    requires forall i :: 0 <= i < |s| ==> !Forbidden(s[i])
    requires AllClean(Words(s[k..])) && Concat(Words(s[k..])) == Kept(s[k..])
    ensures AllClean(Words(s)) && Concat(Words(s)) == Kept(s)
  {
    var w, ws := s[..k], Words(s[k..]);
    WordsFront(s, k);
    assert Clean(w);
    AllCleanCons(w, ws);
    KeptPrefix(s, k);
    ConcatCons(w, ws);
  }

  /** A string that starts with a word splits into that word and the words after it. */
  lemma WordsFront(s: string, k: nat)
    requires s != [] && !IsWhitespace(s[0]) && k == WordEnd(s, 0)
    ensures Words(s) == [s[..k]] + Words(s[k..])
  {
  }

  /** A clean word in front of clean words keeps them all clean. */
  lemma AllCleanCons(w: string, ws: seq<string>)
    requires Clean(w) && AllClean(ws)
    ensures AllClean([w] + ws)
  {
    forall i | 0 <= i < |[w] + ws| ensures Clean(([w] + ws)[i]) {
      if i > 0 {
        assert ([w] + ws)[i] == ws[i - 1];
      }
    }
  }

  lemma {:induction false} KeptPrefix(s: string, k: nat)
    requires k <= |s|
    requires forall i :: 0 <= i < k ==> !IsWhitespace(s[i]) && !Forbidden(s[i])
    ensures Kept(s) == s[..k] + Kept(s[k..])
  {
    if k > 0 {
      KeptPrefix(s[1..], k - 1);
      assert s[1..][k - 1..] == s[k..];
      assert s[..k] == [s[0]] + s[1..][..k - 1];
    }
  }

  lemma {:induction false} ConcatCons(w: string, ws: seq<string>)
    ensures Concat([w] + ws) == w + Concat(ws)
    decreases |ws|
  {
    if ws != [] {
      var init := ws[..|ws| - 1];
      ConcatCons(w, init);
      assert ([w] + ws)[..|ws|] == [w] + init;
    }
  }

  lemma {:induction false} LowerAppend(a: string, b: string)
    ensures Lower(a + b) == Lower(a) + Lower(b)
  {
  }

  lemma {:induction false} CapitalizedTailLower(ws: seq<string>)
    ensures Lower(CapitalizedTail(ws)) == Lower(Concat(ws))
  {
    if ws != [] {
      CapitalizedTailLower(ws[1..]);
      ConcatCons(ws[0], ws[1..]);
      assert ws == [ws[0]] + ws[1..];
      var w := ws[0];
      LowerAppend(Capitalize(w), CapitalizedTail(ws[1..]));
      LowerAppend(w, Concat(ws[1..]));
      if w != [] {
        assert Lower(Capitalize(w)) == Lower(w);
      }
    }
  }

  /** The sanitised name holds no whitespace and none of `<>:"/\|?*`, and apart
      from letter case it is exactly the characters of the name that are neither. */
  lemma SanitizeFilenameSpec(filename: string)
    ensures Clean(SanitizeFilename(filename))
    ensures Lower(SanitizeFilename(filename)) == Lower(Kept(filename))
  {
    var s := ReplaceForbidden(filename);
    WordsClean(s);
    KeptReplace(filename);
    CamelJoinClean(Words(s));
    CamelJoinLower(Words(s));
  }

  /** Joining clean words in camel case leaves a clean string. */
  lemma CamelJoinClean(ws: seq<string>)
    requires AllClean(ws)
    ensures Clean(CamelJoin(ws))
  {
    if ws != [] {
      var head, tail := Lower(ws[0]), CapitalizedTail(ws[1..]);
      LowerClean(ws[0]);
      CapitalizedTailClean(ws[1..]);
      CleanAppend(head, tail);
    }
  }

  lemma CleanAppend(a: string, b: string)
    requires Clean(a) && Clean(b)
    ensures Clean(a + b)
  {
    forall i | 0 <= i < |a + b| ensures !IsWhitespace((a + b)[i]) && !Forbidden((a + b)[i]) {
      if i >= |a| {
        assert (a + b)[i] == b[i - |a|];
      }
    }
  }

  /** Camel-case joining changes only the case of the concatenated words. */
  lemma CamelJoinLower(ws: seq<string>)
    ensures Lower(CamelJoin(ws)) == Lower(Concat(ws))
  {
    if ws != [] {
      var w, rest := ws[0], ws[1..];
      assert ws == [w] + rest;
      CapitalizedTailLower(rest);
      LowerAppend(Lower(w), CapitalizedTail(rest));
      ConcatCons(w, rest);
      LowerAppend(w, Concat(rest));
      LowerTwice(w);
    }
  }

  lemma LowerTwice(w: string)
    ensures Lower(Lower(w)) == Lower(w)
  {
    assert forall i :: 0 <= i < |w| ==> LowerChar(LowerChar(w[i])) == LowerChar(w[i]);
  }


  lemma {:induction false} KeptReplace(s: string)
    ensures Kept(ReplaceForbidden(s)) == Kept(s)
  {
    if s != [] {
      KeptReplace(s[1..]);
      assert ReplaceForbidden(s)[1..] == ReplaceForbidden(s[1..]);
    }
  }

  // ---------------------------------------------------------------------------
  // extractExportableData

  /** Number(value) of a data point, or the reason it has none. */
  datatype Value = Null | Undefined | Numeric(n: real) | NotANumber

  /** One entry of a series: a `[timestamp, value]` tuple (any array), a `{value}` point, or anything else. */
  datatype Entry = Tuple(items: seq<Value>) | Point(value: Value) | OtherEntry

  /** A series; `values == None` when `values` is not an array. */
  datatype DataSeries = DataSeries(name: Option<string>, values: Option<seq<Entry>>)

  datatype Metadata = Metadata(fields: map<string, string>)

  datatype ExportableData = ExportableData(series: seq<DataSeries>, metadata: Option<Metadata>)

  /** A query's `data`: `None` when absent or not an object, `series == None` when it has no `series` array. */
  datatype QueryData = QueryData(series: Option<seq<DataSeries>>, metadata: Option<Metadata>)

  predicate Contributes(q: Option<QueryData>) {
    q.Some? && q.value.series.Some? && q.value.series.value != []
  }

  /** All series of the contributing queries, in query order. */
  function AllSeries(qs: seq<Option<QueryData>>): seq<DataSeries>
  {
    if qs == [] then []
    else AllSeries(qs[..|qs| - 1]) + (if Contributes(qs[|qs| - 1]) then qs[|qs| - 1].value.series.value else [])
  }

  /** The metadata of the first contributing query that has some. */
  function FirstMetadata(qs: seq<Option<QueryData>>): Option<Metadata>
  {
    if qs == [] then None
    else if Contributes(qs[0]) && qs[0].value.metadata.Some? then qs[0].value.metadata
    else FirstMetadata(qs[1..])
  }

  function FirstMetadataFrom(qs: seq<Option<QueryData>>, acc: Option<Metadata>, i: nat): Option<Metadata>
    requires i <= |qs|
  {
    if acc.Some? then acc else FirstMetadata(qs[i..])
  }

  method ExtractExportableData(queryResults: seq<Option<QueryData>>) returns (r: Option<ExportableData>)
    ensures r.None? <==> forall i :: 0 <= i < |queryResults| ==> !Contributes(queryResults[i])
    ensures r.Some? ==> r.value == ExportableData(AllSeries(queryResults), FirstMetadata(queryResults))
  {
    if |queryResults| == 0 {
      return None;
    }
    var allSeries: seq<DataSeries> := [];
    var metadata: Option<Metadata> := None;
    for i := 0 to |queryResults|
      invariant allSeries == AllSeries(queryResults[..i])
      invariant FirstMetadataFrom(queryResults, metadata, i) == FirstMetadata(queryResults)
      invariant metadata.Some? ==> exists j :: 0 <= j < i && Contributes(queryResults[j])
    {
      assert queryResults[..i + 1][..i] == queryResults[..i];
      assert queryResults[i..][1..] == queryResults[i + 1..];
      var q := queryResults[i];
      if q.Some? && q.value.series.Some? {
        var data := q.value;
        if data.series.value != [] {
          allSeries := allSeries + data.series.value;
          if metadata.None? && data.metadata.Some? {
            metadata := data.metadata;
          }
        }
      }
    }
    assert queryResults[..|queryResults|] == queryResults;
    AllSeriesEmpty(queryResults);
    if |allSeries| > 0 {
      return Some(ExportableData(allSeries, metadata));
    }
    return None;
  }

  /** No series are gathered exactly when no query has a non-empty series list. */
  lemma {:induction false} AllSeriesEmpty(qs: seq<Option<QueryData>>)
    ensures AllSeries(qs) == [] <==> forall i :: 0 <= i < |qs| ==> !Contributes(qs[i])
  {
    if qs != [] {
      AllSeriesEmpty(qs[..|qs| - 1]);
      assert forall i :: 0 <= i < |qs| - 1 ==> qs[..|qs| - 1][i] == qs[i];
    }
  }

  // ---------------------------------------------------------------------------
  // exportDataAsCSV

  /** One line of the CSV: a label and the series' first numeric value, if any. */
  datatype Row = Row(caption: string, value: Option<real>)

  /** The value of one entry, or `None` when the entry is skipped. */
  function EntryValue(e: Entry): Option<Value> {
    match e
    case Tuple(items) => if |items| >= 2 then Some(items[1]) else None
    case Point(v) => Some(v)
    case OtherEntry => None
  }

  /** The first entry whose value is a number, as the inner loop's `break` finds it. */
  function FirstNumeric(es: seq<Entry>): (r: Option<real>)
    ensures r.Some? ==> exists j :: 0 <= j < |es| && EntryValue(es[j]) == Some(Numeric(r.value))
  {
    if es == [] then None
    else match EntryValue(es[0])
      case Some(Numeric(n)) => Some(n)
      case _ => FirstNumeric(es[1..])
  }

  /** `series.name || 'Series ' + (i + 1)`: an empty name falls back too. */
  function SeriesLabel(s: DataSeries, i: nat): (caption: string)
    ensures s.name.Some? && s.name.value != [] ==> caption == s.name.value
    ensures s.name.None? || s.name.value == [] ==> caption == "Series " + NatToString(i + 1)
  {
    if s.name.Some? && s.name.value != [] then s.name.value else "Series " + NatToString(i + 1)
  }

  predicate HasValues(s: DataSeries) {
    s.values.Some? && s.values.value != []
  }

  /** One row for every series with values, in series order. */
  function Rows(series: seq<DataSeries>): seq<Row>
  {
    if series == [] then []
    else
      var i := |series| - 1;
      Rows(series[..i]) + (if HasValues(series[i]) then [Row(SeriesLabel(series[i], i), FirstNumeric(series[i].values.value))] else [])
  }

  /** The value cell: empty for `null`, otherwise `String(value)` escaped; `numberToString` is
      JavaScript's `String` on numbers. */
  function ValueCell(numberToString: real -> string, v: Option<real>): string {
    EscapeCsvValue(if v.Some? then Some(numberToString(v.value)) else None)
  }

  function RowLine(numberToString: real -> string, row: Row): string {
    EscapeCsvValue(Some(row.caption)) + "," + ValueCell(numberToString, row.value)
  }

  function RowLines(numberToString: real -> string, rows: seq<Row>): (r: seq<string>)
    ensures |r| == |rows|
    ensures forall i :: 0 <= i < |rows| ==> r[i] == RowLine(numberToString, rows[i])
  {
    seq(|rows|, i requires 0 <= i < |rows| => RowLine(numberToString, rows[i]))
  }

  const Header: string := "Label,Value\n"

  /** The CSV text: empty when nothing is exportable, else the header and the row lines joined by LF. */
  function CsvText(numberToString: real -> string, data: ExportableData): string {
    var rows := Rows(data.series);
    if data.series == [] || rows == [] then "" else Header + Join(RowLines(numberToString, rows), "\n")
  }

  /** The inner loop of exportDataAsCSV: the first entry with a numeric value. */
  method AggregateValue(es: seq<Entry>) returns (aggregated: Option<real>)
    ensures aggregated == FirstNumeric(es)
  {
    aggregated := None;
    for j := 0 to |es|
      invariant aggregated.None? ==> FirstNumeric(es) == FirstNumeric(es[j..])
    {
      var value: Value;
      match es[j] {
        case Tuple(items) =>
          if |items| < 2 {
            continue;
          }
          value := items[1];
        case Point(v) =>
          value := v;
        case OtherEntry =>
          continue;
      }
      if value.Numeric? {
        aggregated := Some(value.n);
        return;
      }
    }
  }

  /** The outer loop of exportDataAsCSV: one row per series with values. */
  method CollectRows(series: seq<DataSeries>) returns (rows: seq<Row>)
    ensures rows == Rows(series)
  {
    rows := [];
    for i := 0 to |series|
      invariant rows == Rows(series[..i])
    {
      assert series[..i + 1][..i] == series[..i];
      var s := series[i];
      if s.values.None? || s.values.value == [] {
        continue;
      }
      var aggregated := AggregateValue(s.values.value);
      rows := rows + [Row(SeriesLabel(s, i), aggregated)];
    }
    assert series[..|series|] == series;
  }

  /** The text the string accumulation of exportDataAsCSV holds after `index` lines: the header, then
      each line followed by a line feed unless it is the last. */
  function Rendered(header: string, lines: seq<string>, index: nat): string
    requires index <= |lines|
  {
    if index == 0 then header
    else if index < |lines| then Rendered(header, lines, index - 1) + lines[index - 1] + "\n"
    else Rendered(header, lines, index - 1) + lines[index - 1]
  }

  /** After at least one line, the accumulated text is the header and the lines so far joined by line
      feeds, with a line feed after them while lines remain. */
  lemma {:induction false} RenderedJoin(header: string, lines: seq<string>, index: nat)
    requires 0 < index <= |lines|
    ensures Rendered(header, lines, index)
            == header + Join(lines[..index], "\n") + (if index < |lines| then "\n" else "")
  {
    var sep := if index < |lines| then "\n" else "";
    if index == 1 {
      assert lines[..1] == [lines[0]];
      AppendEmpty(header + lines[0]);
    } else {
      RenderedJoin(header, lines, index - 1);
      var before := Join(lines[..index - 1], "\n");
      assert lines[..index][..index - 1] == lines[..index - 1];
      assert Join(lines[..index], "\n") == before + "\n" + lines[index - 1];
      assert Rendered(header, lines, index - 1) == header + before + "\n";
      AppendLineAssoc(header, before, lines[index - 1], sep);
      AppendEmpty(header + before + "\n" + lines[index - 1]);
    }
  }

  /** Re-bracketing the step of RenderedJoin. */
  lemma AppendLineAssoc(header: string, before: string, line: string, sep: string)
    ensures header + before + "\n" + line + sep == header + (before + "\n" + line) + sep
  {
  }

  /** Appending nothing leaves a text as it is. */
  lemma AppendEmpty(s: string)
    ensures s + "" == s
  {
  }

  /** The string accumulation of exportDataAsCSV. */
  method RenderRows(numberToString: real -> string, rows: seq<Row>) returns (csv: string)
    requires rows != []
    ensures csv == Header + Join(RowLines(numberToString, rows), "\n")
  {
    ghost var lines := RowLines(numberToString, rows);
    csv := Header;
    for index := 0 to |rows|
      invariant csv == Rendered(Header, lines, index)
    {
      csv := csv + RowLine(numberToString, rows[index]);
      if index < |rows| - 1 {
        csv := csv + "\n";
      }
    }
    RenderedJoin(Header, lines, |rows|);
    assert lines[..|rows|] == lines;
  }

  method ExportDataAsCsv(numberToString: real -> string, data: ExportableData) returns (csv: string)
    ensures csv == CsvText(numberToString, data)
  {
    if data.series == [] {
      return "";
    }
    var rows := CollectRows(data.series);
    if rows == [] {
      return "";
    }
    csv := RenderRows(numberToString, rows);
  }

  /** There is one CSV row for every series that has values. */
  lemma {:induction false} RowsCount(series: seq<DataSeries>)
    ensures |Rows(series)| == |set i | 0 <= i < |series| && HasValues(series[i])|
  {
    if series != [] {
      RowsCount(series[..|series| - 1]);
      WithValuesSnoc(series);
    }
  }

  /** The series with values among one series more. */
  lemma WithValuesSnoc(series: seq<DataSeries>)
    requires series != []
    ensures var n := |series| - 1;
      |set i | 0 <= i < |series| && HasValues(series[i])|
      == |set i | 0 <= i < n && HasValues(series[..n][i])| + (if HasValues(series[n]) then 1 else 0)
  {
    var n := |series| - 1;
    var before := set i | 0 <= i < n && HasValues(series[..n][i]);
    var all := set i | 0 <= i < |series| && HasValues(series[i]);
    if HasValues(series[n]) {
      assert all == before + {n};
    } else {
      assert all == before;
    }
  }

  /** The CSV never ends with a line break: the last line ends with its value cell. */
  lemma CsvNoTrailingNewline(numberToString: real -> string, data: ExportableData)
    requires CsvText(numberToString, data) != ""
    ensures CsvText(numberToString, data)[|CsvText(numberToString, data)| - 1] != '\n'
  {
    var rows := Rows(data.series);
    var body := Join(RowLines(numberToString, rows), "\n");
    assert rows != [] && CsvText(numberToString, data) == Header + body;
    LinesEnd(numberToString, rows);
    AppendEnd(Header, body);
  }

  /** The joined row lines of at least one row end with something other than a line break. */
  lemma LinesEnd(numberToString: real -> string, rows: seq<Row>)
    requires rows != []
    ensures Join(RowLines(numberToString, rows), "\n") != []
    ensures Join(RowLines(numberToString, rows), "\n")[|Join(RowLines(numberToString, rows), "\n")| - 1] != '\n'
  {
    RowLineEnd(numberToString, rows[|rows| - 1]);
    JoinEnd(RowLines(numberToString, rows), "\n");
  }

  lemma AppendEnd(a: string, b: string)
    requires b != []
    ensures (a + b)[|a + b| - 1] == b[|b| - 1]
  {
  }

  /** A joined list ends with the last character of its last part. */
  lemma JoinEnd(parts: seq<string>, sep: string)
    requires parts != [] && parts[|parts| - 1] != []
    ensures Join(parts, sep) != []
    ensures Join(parts, sep)[|Join(parts, sep)| - 1] == parts[|parts| - 1][|parts[|parts| - 1]| - 1]
  {
    if |parts| > 1 {
      var front := Join(parts[..|parts| - 1], sep) + sep;
      assert Join(parts, sep) == front + parts[|parts| - 1];
    }
  }

  /** A CSV row line is never empty and never ends with a line break, whatever text the value is
      written as: a value text with a line break is quoted. */
  lemma RowLineEnd(numberToString: real -> string, row: Row)
    ensures RowLine(numberToString, row) != []
    ensures RowLine(numberToString, row)[|RowLine(numberToString, row)| - 1] != '\n'
  {
    var front := EscapeCsvValue(Some(row.caption)) + ",";
    var cell := ValueCell(numberToString, row.value);
    var line := RowLine(numberToString, row);
    assert line == front + cell;
    if cell == [] {
      assert line[|line| - 1] == ',';
    } else {
      assert line[|line| - 1] == cell[|cell| - 1];
      var text := numberToString(row.value.value);
      if !NeedsQuoting(text) {
        assert cell == text;
        assert cell[|cell| - 1] in text;
      }
    }
  }
}
