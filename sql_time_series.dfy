/** The SQL time-series query: choosing the step, rewriting the query's macros, and turning the
    rows of the answer into one series per label combination and value column. */
module SqlTimeSeries {
  import opened Base
  import opened PersesCore
  import TimeSort
  import SqlVariables

  /** A cell of a result row; `Undefined` when the row has no such column. */
  datatype Cell = Undefined | Null | Str(s: string) | Num(n: real) | DateVal(ms: real)

  type Row = map<string, Cell>

  /** `row[column]` */
  function Get(row: Row, column: string): Cell {
    if column in row then row[column] else Undefined
  }

  datatype Column = Column(name: string, typ: string)

  /** The JSON answer of the datasource proxy: its columns and, when present, its rows. */
  datatype SqlResult = SqlResult(columns: seq<Column>, rows: Option<seq<Row>>)

  datatype SqlSpec = SqlSpec(query: string, timeColumn: Option<string>, labelColumns: Option<seq<string>>,
                             valueColumns: Option<seq<string>>, timeFormat: Option<string>, minStep: Option<int>)

  /** The JavaScript conversions applied to cells: `parseFloat` (`None` for `NaN`), `String`,
      `parseInt(_, 10)` and `new Date(_).getTime()`. */
  datatype Conversions = Conversions(parseFloat: Cell -> Option<real>, toString: Cell -> string,
                                     parseInt: Cell -> int, dateMs: Cell -> real)

  /** parseTimeValue: a date cell gives its own time; otherwise the format decides, ISO 8601 when
      the format is absent or unknown. */
  function ParseTimeValue(conv: Conversions, v: Cell, format: Option<string>): (ms: real)
    ensures v.DateVal? ==> ms == v.ms
    ensures !v.DateVal? && format == Some("unix") ==> ms == conv.parseInt(v) as real * 1000.0
    ensures !v.DateVal? && format == Some("unix_ms") ==> ms == conv.parseInt(v) as real
    ensures !v.DateVal? && format != Some("unix") && format != Some("unix_ms") ==> ms == conv.dateMs(v)
  {
    if v.DateVal? then v.ms
    else match format
      case Some("unix") => conv.parseInt(v) as real * 1000.0
      case Some("unix_ms") => conv.parseInt(v) as real
      case _ => conv.dateMs(v)
  }

  /** A Unix time in seconds is the same instant as a thousand times as many milliseconds. */
  lemma UnixSecondsAreThousandMillis(conv: Conversions, v: Cell)
    ensures !v.DateVal? ==> ParseTimeValue(conv, v, Some("unix")) == 1000.0 * ParseTimeValue(conv, v, Some("unix_ms"))
    ensures v.DateVal? ==> ParseTimeValue(conv, v, Some("unix")) == ParseTimeValue(conv, v, Some("unix_ms"))
  {
  }

  const TimeKeywords: seq<string> := ["time", "timestamp", "datetime", "date", "created_at", "updated_at"]

  /** The lower-cased column name contains one of the time keywords. */
  predicate HasTimeKeyword(name: string) {
    exists k :: 0 <= k < |TimeKeywords| && Includes(Lower(name), TimeKeywords[k])
  }

  /** detectTimeColumn: the first column whose name mentions a time keyword, or none. */
  method DetectTimeColumn(columns: seq<Column>) returns (r: Option<string>)
    ensures r.None? <==> forall i :: 0 <= i < |columns| ==> !HasTimeKeyword(columns[i].name)
    ensures r.Some? ==> exists i :: (0 <= i < |columns| && columns[i].name == r.value
      && HasTimeKeyword(columns[i].name) && forall j :: 0 <= j < i ==> !HasTimeKeyword(columns[j].name))
  {
    for i := 0 to |columns|
      invariant forall j :: 0 <= j < i ==> !HasTimeKeyword(columns[j].name)
    {
      var lower := Lower(columns[i].name);
      var found := false;
      for k := 0 to |TimeKeywords|
        invariant found <==> exists m :: 0 <= m < k && Includes(lower, TimeKeywords[m])
      {
        if Includes(lower, TimeKeywords[k]) {
          found := true;
        }
      }
      if found {
        return Some(columns[i].name);
      }
    }
    return None;
  }

  /** The step in seconds: `minStep` when set and non-zero, otherwise the range in seconds divided by
      a thousand, rounded down, and at least one. */
  function Interval(minStep: Option<int>, timeRange: SqlVariables.AbsoluteTimeRange): (interval: int)
    ensures minStep.Some? && minStep.value != 0 ==> interval == minStep.value
    ensures !(minStep.Some? && minStep.value != 0) ==>
      interval >= 1
      && (interval == 1 || interval as real <= RangeSeconds(timeRange) / 1000.0 < interval as real + 1.0)
      && interval as real <= if RangeSeconds(timeRange) / 1000.0 < 1.0 then 1.0 else RangeSeconds(timeRange) / 1000.0
  {
    if minStep.Some? && minStep.value != 0 then minStep.value
    else
      var steps := (RangeSeconds(timeRange) / 1000.0).Floor;
      if steps < 1 then 1 else steps
  }

  function RangeSeconds(timeRange: SqlVariables.AbsoluteTimeRange): real {
    (timeRange.endMs - timeRange.startMs) as real / 1000.0
  }

  /** The query sent to the proxy and the step of the answer, or nothing for an empty query. */
  datatype PreparedQuery = PreparedQuery(query: string, stepMs: int)

  /** The part of getTimeSeriesData before the request: an empty query gives no series; otherwise the
      step becomes `interval * 1000` milliseconds and the macros of the query are replaced with it. */
  function PrepareQuery(spec: SqlSpec, timeRange: SqlVariables.AbsoluteTimeRange, isoString: int -> string): (r: Option<PreparedQuery>)
    ensures r.None? <==> spec.query == ""
    ensures r.Some? ==> (r.value.stepMs == Interval(spec.minStep, timeRange) * 1000
      && r.value.query == SqlVariables.ReplaceSqlBuiltinVariables(spec.query, isoString, timeRange, r.value.stepMs))
  {
    if spec.query == "" then None
    else
      var intervalMs := Interval(spec.minStep, timeRange) * 1000;
      Some(PreparedQuery(SqlVariables.ReplaceSqlBuiltinVariables(spec.query, isoString, timeRange, intervalMs), intervalMs))
  }

  /** `columns.map((col) => col.name)` */
  function Names(columns: seq<Column>): (names: seq<string>)
    ensures |names| == |columns|
    ensures forall i :: 0 <= i < |columns| ==> names[i] == columns[i].name
  {
    seq(|columns|, i requires 0 <= i < |columns| => columns[i].name)
  }

  /** The names that are neither the time column nor a label column, in order. */
  function WithoutTimeAndLabels(names: seq<string>, timeColumn: string, labelColumns: seq<string>): (r: seq<string>)
    ensures forall x :: x in r <==> x in names && x != timeColumn && x !in labelColumns
  {
    if names == [] then []
    else
      var rest := WithoutTimeAndLabels(names[1..], timeColumn, labelColumns);
      assert forall x :: x in names <==> x == names[0] || x in names[1..];
      if names[0] != timeColumn && names[0] !in labelColumns then [names[0]] + rest else rest
  }

  /** The default value columns: every column name that is neither the time column nor a label column, in order. */
  function DefaultValueColumns(columns: seq<Column>, timeColumn: string, labelColumns: seq<string>): (r: seq<string>)
    ensures forall x :: x in r <==> x in Names(columns) && x != timeColumn && x !in labelColumns
  {
    WithoutTimeAndLabels(Names(columns), timeColumn, labelColumns)
  }

  /** How rows are read: conversions, the time column and format, the label and value columns. */
  datatype Layout = Layout(conv: Conversions, timeColumn: string, timeFormat: Option<string>,
                           labelColumns: seq<string>, valueColumns: seq<string>)

  /** The labels of a row: every label column present and not `null`, as a string, in column order. */
  function RowLabels(layout: Layout, row: Row, labelColumns: seq<string>): Labels
  {
    if labelColumns == [] then []
    else
      var c := labelColumns[|labelColumns| - 1];
      var prev := RowLabels(layout, row, labelColumns[..|labelColumns| - 1]);
      if Get(row, c).Undefined? || Get(row, c).Null? then prev else Assign(prev, c, layout.conv.toString(Get(row, c)))
  }

  /** The labels that identify a series: the row's labels with `__name__` set to the value column. */
  function SeriesKey(labels: Labels, valueColumn: string): (key: Labels)
    ensures Lookup(key, "__name__") == Some(valueColumn)
  {
    Assign(labels, "__name__", valueColumn)
  }

  function RowKey(layout: Layout, row: Row, valueColumn: string): Labels {
    SeriesKey(RowLabels(layout, row, layout.labelColumns), valueColumn)
  }

  /** The point a row contributes through a value column, if its cell is a number. */
  function CellPoint(layout: Layout, row: Row, valueColumn: string): Option<Point> {
    match layout.conv.parseFloat(Get(row, valueColumn))
    case None => None
    case Some(v) => Some((ParseTimeValue(layout.conv, Get(row, layout.timeColumn), layout.timeFormat), Some(v)))
  }

  /** The points of the series `key` contributed by one row through the given value columns. */
  function RowPoints(layout: Layout, row: Row, valueColumns: seq<string>, key: Labels): seq<Point>
  {
    if valueColumns == [] then []
    else
      var c := valueColumns[|valueColumns| - 1];
      RowPoints(layout, row, valueColumns[..|valueColumns| - 1], key)
        + (if RowKey(layout, row, c) == key && CellPoint(layout, row, c).Some? then [CellPoint(layout, row, c).value] else [])
  }

  /** The points of the series `key` over the rows, in row order, before sorting. */
  function Points(layout: Layout, rows: seq<Row>, key: Labels): seq<Point>
  {
    if rows == [] then []
    else Points(layout, rows[..|rows| - 1], key) + RowPoints(layout, rows[|rows| - 1], layout.valueColumns, key)
  }

  /** The series keys the rows give rise to, whether or not their cells are numbers. */
  function RowKeys(layout: Layout, row: Row, valueColumns: seq<string>): set<Labels> {
    set c | c in valueColumns :: RowKey(layout, row, c)
  }

  function AllKeys(layout: Layout, rows: seq<Row>): set<Labels> {
    set r, c | r in rows && c in layout.valueColumns :: RowKey(layout, r, c)
  }

  /** The keys of one row through the given value columns, in column order. */
  function RowKeySeq(layout: Layout, row: Row, valueColumns: seq<string>): (keys: seq<Labels>)
    ensures |keys| == |valueColumns|
    ensures forall i :: 0 <= i < |valueColumns| ==> keys[i] == RowKey(layout, row, valueColumns[i])
  {
    seq(|valueColumns|, i requires 0 <= i < |valueColumns| => RowKey(layout, row, valueColumns[i]))
  }

  /** The key of every row and value column, rows in order and, within a row, value columns in order:
      the order in which the grouping loop meets the keys. */
  function KeySeq(layout: Layout, rows: seq<Row>): (keys: seq<Labels>)
  {
    if rows == [] then []
    else KeySeq(layout, rows[..|rows| - 1]) + RowKeySeq(layout, rows[|rows| - 1], layout.valueColumns)
  }

  /** The keys met are exactly the keys the rows give rise to. */
  lemma {:induction false} KeySeqKeys(layout: Layout, rows: seq<Row>, key: Labels)
    ensures key in KeySeq(layout, rows) <==> key in AllKeys(layout, rows)
  {
    if rows != [] {
      var init, last := rows[..|rows| - 1], rows[|rows| - 1];
      KeySeqKeys(layout, init, key);
      assert rows == init + [last];
      if key in RowKeySeq(layout, last, layout.valueColumns) {
        var i :| 0 <= i < |layout.valueColumns| && RowKeySeq(layout, last, layout.valueColumns)[i] == key;
        assert layout.valueColumns[i] in layout.valueColumns;
      }
      if key in AllKeys(layout, rows) && key !in AllKeys(layout, init) {
        var r, c :| r in rows && c in layout.valueColumns && RowKey(layout, r, c) == key;
        assert r == last;
        var i :| 0 <= i < |layout.valueColumns| && layout.valueColumns[i] == c;
        assert RowKeySeq(layout, last, layout.valueColumns)[i] == key;
      }
    }
  }

  /** Series `s` carries the `s`-th key of `keys`, and there is one series per key. */
  ghost predicate LabelsAre(series: seq<TimeSeries>, keys: seq<Labels>) {
    |series| == |keys| && forall s :: 0 <= s < |series| ==> series[s].labels == Some(keys[s])
  }

  /** Series labelled by the keys in the order they are first met come in that order. */
  lemma FirstSeenOrder(layout: Layout, rows: seq<Row>, series: seq<TimeSeries>, i: nat, j: nat)
    requires LabelsAre(series, Dedupe(KeySeq(layout, rows))) && i < j < |series|
    ensures series[i].labels.value in KeySeq(layout, rows) && series[j].labels.value in KeySeq(layout, rows)
    ensures FirstIndex(KeySeq(layout, rows), series[i].labels.value) < FirstIndex(KeySeq(layout, rows), series[j].labels.value)
  {
    var keys := KeySeq(layout, rows);
    assert Dedupe(keys)[i] in Dedupe(keys) && Dedupe(keys)[j] in Dedupe(keys);
    DedupeFirstOccurrenceOrder(keys, i, j);
  }

  lemma {:induction false} RowPointsOtherKey(layout: Layout, row: Row, valueColumns: seq<string>, key: Labels)
    requires key !in RowKeys(layout, row, valueColumns)
    ensures RowPoints(layout, row, valueColumns, key) == []
  {
    if valueColumns != [] {
      var init := valueColumns[..|valueColumns| - 1];
      assert RowKeys(layout, row, init) <= RowKeys(layout, row, valueColumns);
      RowPointsOtherKey(layout, row, init, key);
    }
  }

  /** A key that no row gives rise to has no points. */
  lemma {:induction false} PointsOtherKey(layout: Layout, rows: seq<Row>, key: Labels)
    requires key !in AllKeys(layout, rows)
    ensures Points(layout, rows, key) == []
  {
    if rows != [] {
      var init := rows[..|rows| - 1];
      assert AllKeys(layout, init) <= AllKeys(layout, rows);
      PointsOtherKey(layout, init, key);
      RowPointsOtherKey(layout, rows[|rows| - 1], layout.valueColumns, key);
    }
  }

  /** The labels of the series are exactly `keys`. */
  ghost predicate KeyedBy(series: seq<TimeSeries>, keys: set<Labels>) {
    forall key :: key in keys <==> exists s :: 0 <= s < |series| && series[s].labels == Some(key)
  }

  /** Series with the same names and labels, position by position, are well formed and keyed alike. */
  lemma SameShape(series: seq<TimeSeries>, series': seq<TimeSeries>, keys: set<Labels>)
    requires |series'| == |series|
    requires forall s :: 0 <= s < |series| ==> series'[s].labels == series[s].labels && series'[s].name == series[s].name
    requires WellFormed(series) && KeyedBy(series, keys)
    ensures WellFormed(series') && KeyedBy(series', keys)
  {
  }

  /** One series per key, with the key as its labels and its `__name__` as its name. */
  predicate WellFormed(series: seq<TimeSeries>) {
    (forall i :: 0 <= i < |series| ==> (series[i].labels.Some?
      && Lookup(series[i].labels.value, "__name__") == Some(series[i].name)))
    && forall i, j :: 0 <= i < j < |series| ==> series[i].labels != series[j].labels
  }

  /** The index of the series whose labels are `key`, or the number of series. */
  function IndexOfKey(series: seq<TimeSeries>, key: Labels): (i: nat)
    ensures i <= |series|
    ensures i < |series| ==> series[i].labels == Some(key)
    ensures i == |series| ==> forall j :: 0 <= j < |series| ==> series[j].labels != Some(key)
  {
    if series == [] then 0
    else if series[0].labels == Some(key) then 0
    else 1 + IndexOfKey(series[1..], key)
  }

  /** The series of the rows: keyed exactly by the keys the rows give rise to. */
  ghost predicate SeriesOf(layout: Layout, rows: seq<Row>, series: seq<TimeSeries>) {
    WellFormed(series)
    && KeyedBy(series, AllKeys(layout, rows))
  }

  /** `name` is the first column name that mentions a time keyword. */
  ghost predicate FirstTimeColumn(columns: seq<Column>, name: string) {
    exists i :: 0 <= i < |columns| && columns[i].name == name
      && HasTimeKeyword(columns[i].name) && forall j :: 0 <= j < i ==> !HasTimeKeyword(columns[j].name)
  }

  /** How a transform with `layout` reads the answer, and what it yields: the time column configured
      or else detected, the label columns configured or none, the value columns configured or else the
      default ones; one series per key, in the order the rows and value columns first meet the keys,
      each holding exactly the points of its key, sorted by time. */
  ghost predicate Transformed(conv: Conversions, columns: seq<Column>, rows: seq<Row>, spec: SqlSpec,
                              layout: Layout, series: seq<TimeSeries>) {
    layout.conv == conv && layout.timeFormat == spec.timeFormat
    && layout.labelColumns == spec.labelColumns.GetOr([])
    && (if spec.timeColumn.Some? && spec.timeColumn.value != "" then layout.timeColumn == spec.timeColumn.value
        else FirstTimeColumn(columns, layout.timeColumn))
    && layout.valueColumns == spec.valueColumns.GetOr(DefaultValueColumns(columns, layout.timeColumn, layout.labelColumns))
    && SeriesOf(layout, rows, series)
    && LabelsAre(series, Dedupe(KeySeq(layout, rows)))
    && forall i :: 0 <= i < |series| ==> (TimeSort.SortedByTime(series[i].values)
      && multiset(series[i].values) == multiset(Points(layout, rows, series[i].labels.value)))
  }

  /** transformToTimeSeries: no rows give no series; with neither a configured nor a detectable time
      column the transform fails; otherwise there is one series per key a row and value column give
      rise to, in the order the keys are first met, named after its value column, holding every
      numeric cell of that key as a point at the row's time, sorted by time. */
  method TransformToTimeSeries(conv: Conversions, result: SqlResult, spec: SqlSpec) returns (r: Result<seq<TimeSeries>>)
    ensures (result.rows.None? || result.rows.value == []) ==> r == Ok([])
    ensures r.Err? <==> (result.rows.Some? && result.rows.value != [] && (spec.timeColumn.None? || spec.timeColumn.value == "")
      && forall i :: 0 <= i < |result.columns| ==> !HasTimeKeyword(result.columns[i].name))
    ensures r.Err? ==> r.msg == "No time column found in query result"
    ensures r.Ok? && result.rows.Some? && result.rows.value != [] ==>
      exists layout :: Transformed(conv, result.columns, result.rows.value, spec, layout, r.value)
  {
    if result.rows.None? || result.rows.value == [] {
      return Ok([]);
    }
    var rows := result.rows.value;
    var timeColumn: string;
    if spec.timeColumn.Some? && spec.timeColumn.value != "" {
      timeColumn := spec.timeColumn.value;
    } else {
      var detected := DetectTimeColumn(result.columns);
      if detected.None? {
        return Err("No time column found in query result");
      }
      timeColumn := detected.value;
      assert FirstTimeColumn(result.columns, timeColumn);
    }
    var labelColumns := spec.labelColumns.GetOr([]);
    var valueColumns := spec.valueColumns.GetOr(DefaultValueColumns(result.columns, timeColumn, labelColumns));
    var layout := Layout(conv, timeColumn, spec.timeFormat, labelColumns, valueColumns);
    var grouped := GroupRows(layout, rows);
    var series := SortEach(grouped);
    forall i | 0 <= i < |series|
      ensures multiset(series[i].values) == multiset(Points(layout, rows, series[i].labels.value))
    {
      assert series[i].labels == grouped[i].labels;
    }
    assert SeriesOf(layout, rows, series) by {
      assert forall i :: 0 <= i < |series| ==> series[i].labels == grouped[i].labels && series[i].name == grouped[i].name;
    }
    assert LabelsAre(series, Dedupe(KeySeq(layout, rows))) by {
      assert forall i :: 0 <= i < |series| ==> series[i].labels == grouped[i].labels;
    }
    assert Transformed(conv, result.columns, rows, spec, layout, series);
    return Ok(series);
  }

  /** Every series sorted by time in place: same names, labels and points. */
  method SortEach(series0: seq<TimeSeries>) returns (series: seq<TimeSeries>)
    ensures |series| == |series0|
    ensures forall i :: 0 <= i < |series| ==> (series[i].name == series0[i].name && series[i].labels == series0[i].labels
      && TimeSort.SortedByTime(series[i].values) && multiset(series[i].values) == multiset(series0[i].values))
  {
    series := series0;
    for i := 0 to |series|
      invariant |series| == |series0|
      invariant forall j :: 0 <= j < |series| ==> (series[j].name == series0[j].name && series[j].labels == series0[j].labels
        && multiset(series[j].values) == multiset(series0[j].values))
      invariant forall j :: 0 <= j < i ==> TimeSort.SortedByTime(series[j].values)
    {
      var sorted := TimeSort.SortByTime(series[i].values);
      series := series[i := series[i].(values := sorted)];
    }
  }

  /** The labels of a row, built by assigning each present label column in turn. */
  method BuildRowLabels(layout: Layout, row: Row) returns (labels: Labels)
    ensures labels == RowLabels(layout, row, layout.labelColumns)
  {
    labels := [];
    for k := 0 to |layout.labelColumns|
      invariant labels == RowLabels(layout, row, layout.labelColumns[..k])
    {
      var c := layout.labelColumns[k];
      assert layout.labelColumns[..k + 1][..k] == layout.labelColumns[..k];
      if !(Get(row, c).Undefined? || Get(row, c).Null?) {
        labels := Assign(labels, c, layout.conv.toString(Get(row, c)));
      }
    }
    assert layout.labelColumns[..|layout.labelColumns|] == layout.labelColumns;
  }

  /** The series after the rows `done` and the first `k` value columns of `row`, keyed by `keys`. */
  ghost predicate Grouping(layout: Layout, done: seq<Row>, row: Row, k: nat, keys: set<Labels>, series: seq<TimeSeries>)
    requires k <= |layout.valueColumns|
  {
    WellFormed(series)
    && KeyedBy(series, keys)
    && forall s :: 0 <= s < |series| ==> (series[s].values
      == Points(layout, done, series[s].labels.value) + RowPoints(layout, row, layout.valueColumns[..k], series[s].labels.value))
  }

  ghost function KeysUpTo(layout: Layout, done: seq<Row>, row: Row, k: nat): set<Labels>
    requires k <= |layout.valueColumns|
  {
    AllKeys(layout, done) + RowKeys(layout, row, layout.valueColumns[..k])
  }

  /** The value-column loop for one row: a new series for a key not seen before, then the cell's
      point, if it is a number, appended to the series of its key. */
  method AddRow(layout: Layout, done: seq<Row>, row: Row, series0: seq<TimeSeries>) returns (series: seq<TimeSeries>)
    requires SeriesOf(layout, done, series0)
    requires forall s :: 0 <= s < |series0| ==> series0[s].values == Points(layout, done, series0[s].labels.value)
    requires LabelsAre(series0, Dedupe(KeySeq(layout, done)))
    ensures SeriesOf(layout, done + [row], series)
    ensures forall s :: 0 <= s < |series| ==> series[s].values == Points(layout, done + [row], series[s].labels.value)
    ensures LabelsAre(series, Dedupe(KeySeq(layout, done + [row])))
  {
    var labels := BuildRowLabels(layout, row);
    series := series0;
    RowStart(layout, done, row, series);
    for k := 0 to |layout.valueColumns|
      invariant Progress(layout, done, row, k, series)
    {
      var c := layout.valueColumns[k];
      var key := SeriesKey(labels, c);
      series := AddCell(layout, done, row, k, series, key);
    }
    RowDone(layout, done, row, series);
  }

  /** The series after the rows `done` and the first `k` value columns of `row`: grouped, and
      labelled by the keys met in the order first met. */
  ghost predicate Progress(layout: Layout, done: seq<Row>, row: Row, k: nat, series: seq<TimeSeries>)
    requires k <= |layout.valueColumns|
  {
    Grouping(layout, done, row, k, KeysUpTo(layout, done, row, k), series)
    && LabelsAre(series, Dedupe(MetUpTo(layout, done, row, k)))
  }

  /** Before the first value column of a row, the series of the rows before it are in progress. */
  lemma RowStart(layout: Layout, done: seq<Row>, row: Row, series: seq<TimeSeries>)
    requires SeriesOf(layout, done, series)
    requires forall s :: 0 <= s < |series| ==> series[s].values == Points(layout, done, series[s].labels.value)
    requires LabelsAre(series, Dedupe(KeySeq(layout, done)))
    ensures Progress(layout, done, row, 0, series)
  {
    assert layout.valueColumns[..0] == [];
    assert KeysUpTo(layout, done, row, 0) == AllKeys(layout, done);
    MetStart(layout, done, row);
    forall s | 0 <= s < |series|
      ensures series[s].values == Points(layout, done, series[s].labels.value)
        + RowPoints(layout, row, layout.valueColumns[..0], series[s].labels.value)
    {
      assert Points(layout, done, series[s].labels.value) + [] == Points(layout, done, series[s].labels.value);
    }
  }

  /** The keys met after the rows `done` and the first `k` value columns of `row`. */
  ghost function MetUpTo(layout: Layout, done: seq<Row>, row: Row, k: nat): seq<Labels>
    requires k <= |layout.valueColumns|
  {
    KeySeq(layout, done) + RowKeySeq(layout, row, layout.valueColumns[..k])
  }

  lemma MetStep(layout: Layout, done: seq<Row>, row: Row, k: nat)
    requires k < |layout.valueColumns|
    ensures MetUpTo(layout, done, row, k + 1) == MetUpTo(layout, done, row, k) + [RowKey(layout, row, layout.valueColumns[k])]
  {
    var x := RowKey(layout, row, layout.valueColumns[k]);
    RowKeySeqStep(layout, row, k);
    Associative(KeySeq(layout, done), RowKeySeq(layout, row, layout.valueColumns[..k]), [x]);
  }

  lemma RowKeySeqStep(layout: Layout, row: Row, k: nat)
    requires k < |layout.valueColumns|
    ensures RowKeySeq(layout, row, layout.valueColumns[..k + 1])
      == RowKeySeq(layout, row, layout.valueColumns[..k]) + [RowKey(layout, row, layout.valueColumns[k])]
  {
    var a, b := RowKeySeq(layout, row, layout.valueColumns[..k + 1]),
      RowKeySeq(layout, row, layout.valueColumns[..k]) + [RowKey(layout, row, layout.valueColumns[k])];
    assert forall i :: 0 <= i < k + 1 ==> a[i] == b[i];
  }

  lemma MetStart(layout: Layout, done: seq<Row>, row: Row)
    ensures MetUpTo(layout, done, row, 0) == KeySeq(layout, done)
  {
    assert RowKeySeq(layout, row, layout.valueColumns[..0]) == [];
  }

  lemma MetDone(layout: Layout, done: seq<Row>, row: Row)
    ensures MetUpTo(layout, done, row, |layout.valueColumns|) == KeySeq(layout, done + [row])
  {
    assert layout.valueColumns[..|layout.valueColumns|] == layout.valueColumns;
    assert (done + [row])[..|done|] == done;
  }

  /** A key met for the first time gets the next series, last. */
  lemma OrderNewKey(series: seq<TimeSeries>, met: seq<Labels>, key: Labels, added: TimeSeries)
    requires LabelsAre(series, Dedupe(met)) && added.labels == Some(key)
    requires forall s :: 0 <= s < |series| ==> series[s].labels != Some(key)
    ensures LabelsAre(series + [added], Dedupe(met + [key]))
  {
    DedupeSnoc(met, key);
    assert Dedupe(met + [key]) == Dedupe(met) + [key];
    var series' := series + [added];
    forall s | 0 <= s < |series'| ensures series'[s].labels == Some((Dedupe(met) + [key])[s]) {
      if s < |series| { assert series'[s] == series[s]; }
    }
  }

  /** A key met before changes no series' labels. */
  lemma OrderOldKey(series: seq<TimeSeries>, met: seq<Labels>, key: Labels, idx: nat)
    requires LabelsAre(series, Dedupe(met)) && idx < |series| && series[idx].labels == Some(key)
    ensures LabelsAre(series, Dedupe(met + [key]))
  {
    DedupeSnoc(met, key);
    assert Dedupe(met)[idx] == key;
  }

  lemma RowDone(layout: Layout, done: seq<Row>, row: Row, series: seq<TimeSeries>)
    requires Progress(layout, done, row, |layout.valueColumns|, series)
    ensures SeriesOf(layout, done + [row], series)
    ensures forall s :: 0 <= s < |series| ==> series[s].values == Points(layout, done + [row], series[s].labels.value)
    ensures LabelsAre(series, Dedupe(KeySeq(layout, done + [row])))
  {
    MetDone(layout, done, row);
    assert layout.valueColumns[..|layout.valueColumns|] == layout.valueColumns;
    assert (done + [row])[..|done|] == done;
    assert AllKeys(layout, done + [row]) == KeysUpTo(layout, done, row, |layout.valueColumns|);
  }

  /** One step of the value-column loop, for the `k`th value column whose key is `key`. */
  method AddCell(layout: Layout, done: seq<Row>, row: Row, k: nat, series0: seq<TimeSeries>, key: Labels)
    returns (series: seq<TimeSeries>)
    requires k < |layout.valueColumns| && key == RowKey(layout, row, layout.valueColumns[k])
    requires Progress(layout, done, row, k, series0)
    ensures Progress(layout, done, row, k + 1, series)
  {
    var c := layout.valueColumns[k];
    series := series0;
    var idx := IndexOfKey(series, key);
    if idx == |series| {
      series := series + [TimeSeries(c, [], Some(key))];
    }
    var point := CellPoint(layout, row, c);
    if point.Some? {
      series := series[idx := series[idx].(values := series[idx].values + [point.value])];
    }
    assert series == CellStep(series0, key, c, point);
    CellProgress(layout, done, row, k, series0, key);
  }

  /** The series after one value column whose key is `key` and whose cell gives `point`. */
  function CellStep(series0: seq<TimeSeries>, key: Labels, c: string, point: Option<Point>): seq<TimeSeries> {
    var idx := IndexOfKey(series0, key);
    var s1 := if idx == |series0| then series0 + [TimeSeries(c, [], Some(key))] else series0;
    if point.Some? then s1[idx := s1[idx].(values := s1[idx].values + [point.value])] else s1
  }

  /** One value column keeps the series in progress. */
  lemma CellProgress(layout: Layout, done: seq<Row>, row: Row, k: nat, series0: seq<TimeSeries>, key: Labels)
    requires k < |layout.valueColumns| && key == RowKey(layout, row, layout.valueColumns[k])
    requires Progress(layout, done, row, k, series0)
    ensures var c := layout.valueColumns[k];
      Progress(layout, done, row, k + 1, CellStep(series0, key, c, CellPoint(layout, row, c)))
  {
    var c := layout.valueColumns[k];
    MetStep(layout, done, row, k);
    CellLabels(series0, MetUpTo(layout, done, row, k), key, c, CellPoint(layout, row, c));
    CellGrouping(layout, done, row, k, series0, key);
  }

  /** One value column keeps the series grouped. */
  lemma CellGrouping(layout: Layout, done: seq<Row>, row: Row, k: nat, series0: seq<TimeSeries>, key: Labels)
    requires k < |layout.valueColumns| && key == RowKey(layout, row, layout.valueColumns[k])
    requires Grouping(layout, done, row, k, KeysUpTo(layout, done, row, k), series0)
    ensures var c := layout.valueColumns[k];
      Grouping(layout, done, row, k + 1, KeysUpTo(layout, done, row, k + 1), CellStep(series0, key, c, CellPoint(layout, row, c)))
  {
    var c := layout.valueColumns[k];
    KeysStep(layout, done, row, k);
    var idx := IndexOfKey(series0, key);
    var s1 := if idx == |series0| then series0 + [TimeSeries(c, [], Some(key))] else series0;
    if idx == |series0| {
      NewSeries(layout, done, row, k, series0, key);
    }
    AddPoint(layout, done, row, k, KeysUpTo(layout, done, row, k + 1), s1, idx);
  }

  /** The labels after one value column: a key met for the first time gets a new series, last, and a
      pushed point changes no labels. */
  lemma CellLabels(series0: seq<TimeSeries>, met: seq<Labels>, key: Labels, c: string, point: Option<Point>)
    requires LabelsAre(series0, Dedupe(met))
    ensures LabelsAre(CellStep(series0, key, c, point), Dedupe(met + [key]))
  {
    var idx := IndexOfKey(series0, key);
    var s1 := if idx == |series0| then series0 + [TimeSeries(c, [], Some(key))] else series0;
    if idx == |series0| {
      OrderNewKey(series0, met, key, TimeSeries(c, [], Some(key)));
    } else {
      OrderOldKey(series0, met, key, idx);
    }
    if point.Some? {
      LabelsAfterPoint(s1, idx, point.value, Dedupe(met + [key]));
    }
  }

  /** A point appended to a series changes no labels. */
  lemma LabelsAfterPoint(series: seq<TimeSeries>, idx: nat, p: Point, keys: seq<Labels>)
    requires LabelsAre(series, keys) && idx < |series|
    ensures LabelsAre(series[idx := series[idx].(values := series[idx].values + [p])], keys)
  {
  }

  lemma KeysStep(layout: Layout, done: seq<Row>, row: Row, k: nat)
    requires k < |layout.valueColumns|
    ensures KeysUpTo(layout, done, row, k + 1) == KeysUpTo(layout, done, row, k) + {RowKey(layout, row, layout.valueColumns[k])}
  {
    assert layout.valueColumns[..k + 1] == layout.valueColumns[..k] + [layout.valueColumns[k]];
  }

  /** A key not yet seen gets a new, empty series: its points so far are none. */
  lemma NewSeries(layout: Layout, done: seq<Row>, row: Row, k: nat, series: seq<TimeSeries>, key: Labels)
    requires k < |layout.valueColumns| && key == RowKey(layout, row, layout.valueColumns[k])
    requires Grouping(layout, done, row, k, KeysUpTo(layout, done, row, k), series)
    requires forall s :: 0 <= s < |series| ==> series[s].labels != Some(key)
    ensures Grouping(layout, done, row, k, KeysUpTo(layout, done, row, k) + {key},
                     series + [TimeSeries(layout.valueColumns[k], [], Some(key))])
  {
    var keys := KeysUpTo(layout, done, row, k);
    var prefix := layout.valueColumns[..k];
    assert key !in keys;
    PointsOtherKey(layout, done, key);
    RowPointsOtherKey(layout, row, prefix, key);
    var added := TimeSeries(layout.valueColumns[k], [], Some(key));
    var series' := series + [added];
    assert Lookup(key, "__name__") == Some(added.name);
    WellFormedAppend(series, added);
    KeyedAppend(series, keys, added);
    forall s | 0 <= s < |series'|
      ensures series'[s].values == Points(layout, done, series'[s].labels.value) + RowPoints(layout, row, prefix, series'[s].labels.value)
    {
      if s < |series| { assert series'[s] == series[s]; }
    }
  }

  /** A series with a fresh key, named by its own `__name__` label, keeps the series well formed. */
  lemma WellFormedAppend(series: seq<TimeSeries>, added: TimeSeries)
    requires WellFormed(series)
    requires added.labels.Some? && Lookup(added.labels.value, "__name__") == Some(added.name)
    requires forall s :: 0 <= s < |series| ==> series[s].labels != added.labels
    ensures WellFormed(series + [added])
  {
    var series' := series + [added];
    forall i | 0 <= i < |series'|
      ensures series'[i].labels.Some? && Lookup(series'[i].labels.value, "__name__") == Some(series'[i].name)
    {
      if i < |series| { assert series'[i] == series[i]; }
    }
    forall i, j | 0 <= i < j < |series'| ensures series'[i].labels != series'[j].labels {
      assert series'[i] == series[i];
      if j < |series| { assert series'[j] == series[j]; }
    }
  }

  /** Appending a series adds its labels to the keys. */
  lemma KeyedAppend(series: seq<TimeSeries>, keys: set<Labels>, added: TimeSeries)
    requires added.labels.Some?
    requires KeyedBy(series, keys)
    ensures KeyedBy(series + [added], keys + {added.labels.value})
  {
    var series' := series + [added];
    forall x ensures x in keys + {added.labels.value} <==> exists s :: 0 <= s < |series'| && series'[s].labels == Some(x) {
      if x in keys {
        var s :| 0 <= s < |series| && series[s].labels == Some(x);
        assert series'[s] == series[s];
      }
      if x == added.labels.value {
        assert series'[|series|] == added;
      }
      if exists s :: 0 <= s < |series'| && series'[s].labels == Some(x) {
        var s :| 0 <= s < |series'| && series'[s].labels == Some(x);
        if s < |series| { assert series'[s] == series[s]; }
      }
    }
  }

  /** Column `k` extends the points of the series of its key by its own point, if any, and no other. */
  lemma RowPointsStep(layout: Layout, row: Row, k: nat, key: Labels)
    requires k < |layout.valueColumns|
    ensures var c := layout.valueColumns[k];
      RowPoints(layout, row, layout.valueColumns[..k + 1], key) == RowPoints(layout, row, layout.valueColumns[..k], key)
        + (if RowKey(layout, row, c) == key && CellPoint(layout, row, c).Some? then [CellPoint(layout, row, c).value] else [])
  {
    assert layout.valueColumns[..k + 1][..k] == layout.valueColumns[..k];
  }

  lemma DistinctLabels(series: seq<TimeSeries>, i: nat, j: nat)
    requires WellFormed(series) && i < |series| && j < |series| && i != j
    ensures series[i].labels != series[j].labels
  {
    if j < i {
      assert series[j].labels != series[i].labels;
    }
  }

  lemma Associative<T>(a: seq<T>, b: seq<T>, c: seq<T>)
    ensures (a + b) + c == a + (b + c)
  {
  }

  /** Column `k` adds its point, if any, to the series of its key and to no other. */
  lemma AddPoint(layout: Layout, done: seq<Row>, row: Row, k: nat, keys: set<Labels>, series: seq<TimeSeries>, idx: nat)
    requires k < |layout.valueColumns|
    requires Grouping(layout, done, row, k, keys, series)
    requires idx < |series| && series[idx].labels == Some(RowKey(layout, row, layout.valueColumns[k]))
    ensures var point := CellPoint(layout, row, layout.valueColumns[k]);
      Grouping(layout, done, row, k + 1, keys,
               if point.Some? then series[idx := series[idx].(values := series[idx].values + [point.value])] else series)
  {
    var c := layout.valueColumns[k];
    var point := CellPoint(layout, row, c);
    var series' := if point.Some? then series[idx := series[idx].(values := series[idx].values + [point.value])] else series;
    assert |series'| == |series|;
    assert forall s :: 0 <= s < |series| ==> series'[s].labels == series[s].labels && series'[s].name == series[s].name;
    SameShape(series, series', keys);
    forall s | 0 <= s < |series'|
      ensures series'[s].values == Points(layout, done, series'[s].labels.value)
        + RowPoints(layout, row, layout.valueColumns[..k + 1], series'[s].labels.value)
    {
      var key := series[s].labels.value;
      var before := Points(layout, done, key);
      var extra := if RowKey(layout, row, c) == key && point.Some? then [point.value] else [];
      var upTo := RowPoints(layout, row, layout.valueColumns[..k], key);
      RowPointsStep(layout, row, k, key);
      assert RowPoints(layout, row, layout.valueColumns[..k + 1], key) == upTo + extra;
      assert series[s].values == before + upTo;
      if s == idx {
        assert series'[s].values == series[s].values + extra;
        Associative(before, upTo, extra);
      } else {
        DistinctLabels(series, s, idx);
        assert extra == [];
        assert upTo + extra == upTo;
        assert series'[s] == series[s];
      }
    }
  }

  /** The grouping loop of transformToTimeSeries: rows in order, value columns in order, a new series
      for a key not seen before, a point for every numeric cell. */
  method GroupRows(layout: Layout, rows: seq<Row>) returns (series: seq<TimeSeries>)
    ensures SeriesOf(layout, rows, series)
    ensures forall i :: 0 <= i < |series| ==> series[i].values == Points(layout, rows, series[i].labels.value)
    ensures LabelsAre(series, Dedupe(KeySeq(layout, rows)))
  {
    series := [];
    for i := 0 to |rows|
      invariant SeriesOf(layout, rows[..i], series)
      invariant forall s :: 0 <= s < |series| ==> series[s].values == Points(layout, rows[..i], series[s].labels.value)
      invariant LabelsAre(series, Dedupe(KeySeq(layout, rows[..i])))
    {
      assert rows[..i + 1] == rows[..i] + [rows[i]];
      series := AddRow(layout, rows[..i], rows[i], series);
    }
    assert rows[..|rows|] == rows;
  }
}
