/** The ClickHouse time-series query: the step, the labels of a row, the key and the name of a
    label set, and the grouping of the rows of an answer into sorted series. */
module ClickHouseData {
  import opened Base
  import opened PersesCore
  import KeyOrder
  import TimeSort

  /** The smallest step, fifteen seconds. */
  const DefaultMinStepMs: int := 15 * 1000

  /** `Math.ceil(x / 1000)` for an integer `x`. */
  function CeilThousandth(x: int): (c: int)
    ensures (c - 1) * 1000 < x <= c * 1000
  {
    -((-x) / 1000)
  }

  /** calculateStep: the largest of fifteen seconds, the range in milliseconds divided by a thousand
      and rounded up, and the suggested step when one is given and non-zero. */
  function CalculateStep(startMs: int, endMs: int, suggestedStepMs: Option<real>): (step: real)
    ensures step >= DefaultMinStepMs as real
    ensures step * 1000.0 >= (endMs - startMs) as real
    ensures suggestedStepMs.Some? && suggestedStepMs.value != 0.0 ==> step >= suggestedStepMs.value
    ensures step == DefaultMinStepMs as real || step == CeilThousandth(endMs - startMs) as real
      || (suggestedStepMs.Some? && suggestedStepMs.value != 0.0 && step == suggestedStepMs.value)
  {
    var calculated := CeilThousandth(endMs - startMs);
    var step := if calculated > DefaultMinStepMs then calculated else DefaultMinStepMs;
    if suggestedStepMs.Some? && suggestedStepMs.value != 0.0 && suggestedStepMs.value > step as real then suggestedStepMs.value
    else step as real
  }

  /** A cell of an answer row. */
  datatype Value = Null | Undefined | Num(n: real) | Text(s: string)

  /** The JavaScript conversions applied to cells: `String` of a number, `Number` of a string
      (`None` for `NaN`), and `new Date(_).getTime()`. */
  datatype Conversions = Conversions(numberToString: real -> string, parseNumber: string -> Option<real>,
                                     dateMs: string -> real)

  /** `String(value)` */
  function Render(conv: Conversions, v: Value): string {
    match v
    case Null => "null"
    case Undefined => "undefined"
    case Num(n) => conv.numberToString(n)
    case Text(s) => s
  }

  /** An answer row as `Object.entries(row)`. */
  type Row = seq<(string, Value)>

  /** `row[key]`: `undefined` when the row has no such column. */
  function Field(row: Row, key: string): Value {
    Lookup(row, key).GetOr(Undefined)
  }

  /** The label value of a cell: `''` for `null` and `undefined`, the cell as a string otherwise. */
  function LabelValue(conv: Conversions, v: Value): string {
    if v.Null? || v.Undefined? then "" else Render(conv, v)
  }

  /** buildLabels: every column but the timestamp and value columns, its cell as a label value. */
  function BuildLabels(conv: Conversions, row: Row, timestampCol: string, valueCol: string): (labels: Labels)
    ensures Keys(labels) == Keys(row) - {timestampCol, valueCol}
    ensures forall k :: k in Keys(labels) ==> Lookup(labels, k) == Some(LabelValue(conv, Field(row, k)))
    ensures DistinctKeys(labels)
  {
    if row == [] then []
    else
      var init := row[..|row| - 1];
      var (key, value) := row[|row| - 1];
      var prev := BuildLabels(conv, init, timestampCol, valueCol);
      BuildLabelsStep(conv, init, key, value, prev, timestampCol, valueCol);
      assert row == init + [(key, value)];
      if key != timestampCol && key != valueCol then Assign(prev, key, LabelValue(conv, value)) else prev
  }

  /** One column more: the labels of the row without it, with the column assigned unless it is the
      timestamp or value column. */
  lemma BuildLabelsStep(conv: Conversions, init: Row, key: string, value: Value, prev: Labels,
                        timestampCol: string, valueCol: string)
    requires Keys(prev) == Keys(init) - {timestampCol, valueCol}
    requires forall k :: k in Keys(prev) ==> Lookup(prev, k) == Some(LabelValue(conv, Field(init, k)))
    requires DistinctKeys(prev)
    ensures var row := init + [(key, value)];
      var labels := if key != timestampCol && key != valueCol then Assign(prev, key, LabelValue(conv, value)) else prev;
      && Keys(labels) == Keys(row) - {timestampCol, valueCol}
      && (forall k :: k in Keys(labels) ==> Lookup(labels, k) == Some(LabelValue(conv, Field(row, k))))
      && DistinctKeys(labels)
  {
    if key != timestampCol && key != valueCol {
      LabelsOfKeptColumn(conv, init, key, value, prev, timestampCol, valueCol);
    } else {
      LabelsOfSkippedColumn(conv, init, key, value, prev, timestampCol, valueCol);
    }
  }

  /** A column that becomes a label: its cell's label value is assigned, the others keep theirs. */
  lemma LabelsOfKeptColumn(conv: Conversions, init: Row, key: string, value: Value, prev: Labels,
                           timestampCol: string, valueCol: string)
    requires key != timestampCol && key != valueCol
    requires Keys(prev) == Keys(init) - {timestampCol, valueCol}
    requires forall k :: k in Keys(prev) ==> Lookup(prev, k) == Some(LabelValue(conv, Field(init, k)))
    requires DistinctKeys(prev)
    ensures var row := init + [(key, value)];
      var labels := Assign(prev, key, LabelValue(conv, value));
      && Keys(labels) == Keys(row) - {timestampCol, valueCol}
      && (forall k :: k in Keys(labels) ==> Lookup(labels, k) == Some(LabelValue(conv, Field(row, k))))
      && DistinctKeys(labels)
  {
    var row := init + [(key, value)];
    LookupAppend(init, key, value);
    var labels := Assign(prev, key, LabelValue(conv, value));
    forall k | k in Keys(labels) ensures Lookup(labels, k) == Some(LabelValue(conv, Field(row, k))) {
      if k != key {
        assert Field(row, k) == Field(init, k);
      }
    }
  }

  /** A timestamp or value column: the labels stay, and so do the cells they come from. */
  lemma LabelsOfSkippedColumn(conv: Conversions, init: Row, key: string, value: Value, prev: Labels,
                              timestampCol: string, valueCol: string)
    requires key == timestampCol || key == valueCol
    requires Keys(prev) == Keys(init) - {timestampCol, valueCol}
    requires forall k :: k in Keys(prev) ==> Lookup(prev, k) == Some(LabelValue(conv, Field(init, k)))
    ensures var row := init + [(key, value)];
      && Keys(prev) == Keys(row) - {timestampCol, valueCol}
      && (forall k :: k in Keys(prev) ==> Lookup(prev, k) == Some(LabelValue(conv, Field(row, k))))
  {
    var row := init + [(key, value)];
    LookupAppend(init, key, value);
    forall k | k in Keys(prev) ensures Lookup(prev, k) == Some(LabelValue(conv, Field(row, k))) {
      assert Field(row, k) == Field(init, k);
    }
  }

  /** The entries of a label set, ordered by key: what identifies it whatever order it was built in. */
  function CanonicalKey(labels: Labels): Labels {
    KeyOrder.SortEntries(labels)
  }

  /** `` `${k}=${v}` `` for every entry. */
  function KeyParts(entries: Labels): (parts: seq<string>)
    ensures |parts| == |entries|
    ensures forall i :: 0 <= i < |entries| ==> parts[i] == entries[i].0 + "=" + entries[i].1
  {
    seq(|entries|, i requires 0 <= i < |entries| => entries[i].0 + "=" + entries[i].1)
  }

  /** labelsToKey: the entries ordered by key, written `k=v` and joined by commas. */
  function LabelsToKey(labels: Labels): string {
    Join(KeyParts(CanonicalKey(labels)), ",")
  }

  /** The key of a label set does not depend on the order its labels were added in. */
  lemma LabelsToKeyOrderFree(a: Labels, b: Labels)
    requires DistinctKeys(a) && DistinctKeys(b)
    requires forall x :: x in a <==> x in b
    ensures LabelsToKey(a) == LabelsToKey(b)
  {
    KeyOrder.SameEntriesSameSorted(a, b);
  }

  /** Grouping by `CanonicalKey` puts two label sets in one series exactly when they hold the same labels. */
  lemma CanonicalKeyExact(a: Labels, b: Labels)
    requires DistinctKeys(a) && DistinctKeys(b)
    ensures CanonicalKey(a) == CanonicalKey(b) <==> forall x :: x in a <==> x in b
  {
    KeyOrder.SortEntriesOrderFree(a, b);
  }

  /** labelsToKey is not one-to-one: a label value holding `,` and `=` makes two different label sets
      over the same columns share a key, and so a series. With `x`, `y`, `z` set to `1`, `2`, `3`:
      `{a: "1,b=2", b: "3"}` and `{a: "1", b: "2,b=3"}` both give `a=1,b=2,b=3`. */
  lemma LabelsToKeyCollision(ka: string, kb: string, x: string, y: string, z: string)
    requires ka == "a" && kb == "b"
    ensures var a: Labels := [(ka, x + "," + kb + "=" + y), (kb, z)];
      var b: Labels := [(ka, x), (kb, y + "," + kb + "=" + z)];
      LabelsToKey(a) == LabelsToKey(b) && a != b && DistinctKeys(a) && DistinctKeys(b)
  {
    var a: Labels := [(ka, x + "," + kb + "=" + y), (kb, z)];
    var b: Labels := [(ka, x), (kb, y + "," + kb + "=" + z)];
    KeyOfTwo(a);
    KeyOfTwo(b);
    Rebracket(ka, "=", x, ",", kb, y, z);
    assert |a[0].1| > |b[0].1|;
    DistinctTwo(a);
    DistinctTwo(b);
  }

  /** The key of the labels `a` and `b`, in that order. */
  lemma KeyOfTwo(ls: Labels)
    requires |ls| == 2 && ls[0].0 == "a" && ls[1].0 == "b"
    ensures LabelsToKey(ls) == ls[0].0 + "=" + ls[0].1 + "," + (ls[1].0 + "=" + ls[1].1)
  {
    SortedTwo(ls);
    JoinTwo(KeyParts(ls), ",");
  }

  /** Two labels with different keys. */
  lemma DistinctTwo(ls: Labels)
    requires |ls| == 2 && ls[0].0 != ls[1].0
    ensures DistinctKeys(ls)
  {
  }

  /** Both keys of LabelsToKeyCollision, bracketed as KeyParts and Join build them. */
  lemma Rebracket(ka: string, eq: string, x: string, comma: string, kb: string, y: string, z: string)
    ensures ka + eq + (x + comma + kb + eq + y) + comma + (kb + eq + z)
            == ka + eq + x + comma + (kb + eq + (y + comma + kb + eq + z))
  {
  }

  lemma SortedTwo(ls: Labels)
    requires |ls| == 2 && ls[0].0 == "a" && ls[1].0 == "b"
    ensures CanonicalKey(ls) == ls
  {
    assert ls[..1] == [ls[0]];
    assert ls[..1][..0] == [];
    assert KeyOrder.SortEntries(ls[..1]) == KeyOrder.InsertEntry(ls[0], []) == [ls[0]];
    assert KeyOrder.Below(ls[0].0, ls[1].0);
    assert KeyOrder.InsertEntry(ls[1], [ls[0]]) == [ls[0]] + KeyOrder.InsertEntry(ls[1], []);
  }

  lemma JoinTwo(parts: seq<string>, sep: string)
    requires |parts| == 2
    ensures Join(parts, sep) == parts[0] + sep + parts[1]
  {
  }

  /** `` `${k}="${v}"` `` for every entry. */
  function NameParts(entries: Labels): (parts: seq<string>)
    ensures |parts| == |entries|
    ensures forall i :: 0 <= i < |entries| ==> parts[i] == entries[i].0 + "=\"" + entries[i].1 + "\""
  {
    seq(|entries|, i requires 0 <= i < |entries| => entries[i].0 + "=\"" + entries[i].1 + "\"")
  }

  /** labelsToName: `series` without labels, the value of a sole label, otherwise every label as `k="v"`. */
  function LabelsToName(labels: Labels): (name: string)
    ensures labels == [] ==> name == "series"
    ensures |labels| == 1 ==> name == labels[0].1
    ensures |labels| >= 2 ==> name == Join(NameParts(labels), ", ")
  {
    if |labels| == 0 then "series"
    else if |labels| == 1 then labels[0].1
    else Join(NameParts(labels), ", ")
  }

  const TimestampColumn := "time"
  const ValueColumn := "value"

  /** The timestamp of a row in milliseconds: a number above 10^12 is taken as milliseconds and any
      other number as seconds; anything else is read as a date. */
  function RowTimestamp(conv: Conversions, row: Row): (ms: real)
    ensures Field(row, TimestampColumn).Num? && Field(row, TimestampColumn).n > 1000000000000.0 ==> ms == Field(row, TimestampColumn).n
    ensures Field(row, TimestampColumn).Num? && Field(row, TimestampColumn).n <= 1000000000000.0 ==> ms == Field(row, TimestampColumn).n * 1000.0
    ensures !Field(row, TimestampColumn).Num? ==> ms == conv.dateMs(Render(conv, Field(row, TimestampColumn)))
  {
    match Field(row, TimestampColumn)
    case Num(n) => if n > 1000000000000.0 then n else n * 1000.0
    case v => conv.dateMs(Render(conv, v))
  }

  /** The value of a row: a number as is, a string converted, `0` when that fails or for `null` and `undefined`. */
  function RowValue(conv: Conversions, row: Row): (v: real)
    ensures Field(row, ValueColumn).Num? ==> v == Field(row, ValueColumn).n
    ensures Field(row, ValueColumn).Text? ==> v == conv.parseNumber(Field(row, ValueColumn).s).GetOr(0.0)
    ensures Field(row, ValueColumn).Null? || Field(row, ValueColumn).Undefined? ==> v == 0.0
  {
    match Field(row, ValueColumn)
    case Num(n) => n
    case Text(s) => conv.parseNumber(s).GetOr(0.0)
    case _ => 0.0
  }

  function RowLabels(conv: Conversions, row: Row): Labels {
    BuildLabels(conv, row, TimestampColumn, ValueColumn)
  }

  /** The grouping key of a row: labelsToKey of its labels. */
  function RowKey(conv: Conversions, row: Row): string {
    LabelsToKey(RowLabels(conv, row))
  }

  function RowPoint(conv: Conversions, row: Row): Point {
    (RowTimestamp(conv, row), Some(RowValue(conv, row)))
  }

  /** The points of the rows whose key is `key`, in row order. */
  function Points(conv: Conversions, rows: seq<Row>, key: string): seq<Point> {
    if rows == [] then []
    else
      var last := rows[|rows| - 1];
      Points(conv, rows[..|rows| - 1], key) + (if RowKey(conv, last) == key then [RowPoint(conv, last)] else [])
  }

  /** The keys of the rows. */
  ghost function AllKeys(conv: Conversions, rows: seq<Row>): set<string> {
    set r | r in rows :: RowKey(conv, r)
  }

  /** The key of a series. */
  function SeriesKey(s: TimeSeries): string {
    LabelsToKey(s.labels.GetOr([]))
  }

  /** Some row has exactly these labels. */
  ghost predicate FromRows(conv: Conversions, rows: seq<Row>, labels: Labels) {
    exists r :: r in rows && RowLabels(conv, r) == labels
  }

  /** The series carry labels, those of a row, and are named after them; no two share a key. */
  ghost predicate WellFormed(conv: Conversions, rows: seq<Row>, series: seq<TimeSeries>) {
    (forall i :: 0 <= i < |series| ==> (series[i].labels.Some? && series[i].name == LabelsToName(series[i].labels.value)
      && FromRows(conv, rows, series[i].labels.value)))
    && DistinctSeriesKeys(series)
  }

  ghost predicate DistinctSeriesKeys(series: seq<TimeSeries>) {
    forall i, j :: 0 <= i < j < |series| ==> SeriesKey(series[i]) != SeriesKey(series[j])
  }

  /** The keys of the series are exactly `keys`. */
  ghost predicate KeyedBy(series: seq<TimeSeries>, keys: set<string>) {
    forall key :: key in keys <==> exists s :: 0 <= s < |series| && SeriesKey(series[s]) == key
  }

  /** The total number of points of a list of series. */
  function TotalPoints(series: seq<TimeSeries>): nat {
    if series == [] then 0 else TotalPoints(series[..|series| - 1]) + |series[|series| - 1].values|
  }

  /** The key of every row, in row order. */
  function KeysOf(conv: Conversions, rows: seq<Row>): (keys: seq<string>)
    ensures |keys| == |rows| && forall i :: 0 <= i < |rows| ==> keys[i] == RowKey(conv, rows[i])
  {
    seq(|rows|, i requires 0 <= i < |rows| => RowKey(conv, rows[i]))
  }

  /** Position `j` holds a key that no earlier position holds. */
  ghost predicate FirstAt(keys: seq<string>, j: nat) {
    j < |keys| && forall k :: 0 <= k < j ==> keys[k] != keys[j]
  }

  /** Row `j` is the first of `rows` with its key. */
  ghost predicate IsFirst(conv: Conversions, rows: seq<Row>, j: nat) {
    FirstAt(KeysOf(conv, rows), j)
  }

  /** The positions of the keys that no earlier position holds, in increasing order. */
  ghost function FirstPositions(keys: seq<string>): (first: seq<nat>)
    ensures forall i :: 0 <= i < |first| ==> first[i] < |keys|
    ensures forall i, j :: 0 <= i < j < |first| ==> first[i] < first[j]
  {
    if keys == [] then []
    else
      var n := |keys| - 1;
      FirstPositions(keys[..n]) + (if FirstAt(keys, n) then [n] else [])
  }

  /** The positions of the rows whose key no earlier row has, in row order: the order in which the
      source's map receives its keys. */
  ghost function FirstIndices(conv: Conversions, rows: seq<Row>): (first: seq<nat>)
    ensures forall i :: 0 <= i < |first| ==> first[i] < |rows|
    ensures forall i, j :: 0 <= i < j < |first| ==> first[i] < first[j]
  {
    FirstPositions(KeysOf(conv, rows))
  }

  /** Series `s` carries the labels of the `s`-th row that is first with its key, and there is one
      series per such row. */
  ghost predicate InFirstOrder(conv: Conversions, rows: seq<Row>, series: seq<TimeSeries>) {
    var first := FirstIndices(conv, rows);
    |series| == |first| && forall s :: 0 <= s < |series| ==> series[s].labels == Some(RowLabels(conv, rows[first[s]]))
  }

  /** A position is listed by FirstPositions exactly when no earlier position holds its key. */
  lemma {:induction false} FirstPositionsAreFirst(keys: seq<string>, j: nat)
    ensures j in FirstPositions(keys) <==> FirstAt(keys, j)
    decreases |keys|
  {
    if keys != [] {
      var n := |keys| - 1;
      var before := FirstPositions(keys[..n]);
      var last := if FirstAt(keys, n) then [n] else [];
      assert FirstPositions(keys) == before + last;
      assert j in FirstPositions(keys) <==> j in before || j in last;
      if j < n {
        assert j !in last;
        FirstPositionsAreFirst(keys[..n], j);
        FirstAtInit(keys, j);
      } else {
        assert j !in before by {
          forall i | 0 <= i < |before| ensures before[i] != j {
            assert before[i] < n;
          }
        }
      }
    }
  }

  /** Whether a position before the last holds a first key does not depend on the last key. */
  lemma FirstAtInit(keys: seq<string>, j: nat)
    requires j + 1 < |keys|
    ensures FirstAt(keys[..|keys| - 1], j) <==> FirstAt(keys, j)
  {
    var init := keys[..|keys| - 1];
    assert forall k :: 0 <= k <= j ==> init[k] == keys[k];
  }

  /** A row is listed by FirstIndices exactly when no earlier row has its key. */
  lemma FirstIndicesAreFirst(conv: Conversions, rows: seq<Row>, j: nat)
    ensures j in FirstIndices(conv, rows) <==> IsFirst(conv, rows, j)
  {
    FirstPositionsAreFirst(KeysOf(conv, rows), j);
  }

  /** One more row adds its position to FirstIndices exactly when the rows before it lack its key. */
  lemma FirstIndicesSnoc(conv: Conversions, done: seq<Row>, row: Row)
    ensures FirstIndices(conv, done + [row])
      == FirstIndices(conv, done) + (if RowKey(conv, row) in AllKeys(conv, done) then [] else [|done|])
  {
    var keys := KeysOf(conv, done + [row]);
    var x := RowKey(conv, row);
    assert keys[..|done|] == KeysOf(conv, done);
    assert keys[|done|] == x;
    if x in AllKeys(conv, done) {
      var r :| r in done && RowKey(conv, r) == x;
      var k :| 0 <= k < |done| && done[k] == r;
      assert keys[k] == x;
      assert !FirstAt(keys, |done|);
    } else {
      forall k | 0 <= k < |done| ensures keys[k] != x {
        assert done[k] in done;
      }
      assert FirstAt(keys, |done|);
    }
  }

  /** buildTimeSeries: a missing or empty answer gives no series; otherwise there is one series per
      labelsToKey key, in the order the keys first appear, carrying the labels of the first row with
      that key and named after them, holding the point of every row with that key, sorted by time;
      there are as many points as rows.
      Rows whose label sets collide under labelsToKey share a series, as in the source. */
  method BuildTimeSeries(conv: Conversions, data: Option<seq<Row>>) returns (series: seq<TimeSeries>)
    ensures data.None? || data.value == [] ==> series == []
    ensures data.Some? ==> WellFormed(conv, data.value, series) && KeyedBy(series, AllKeys(conv, data.value))
    ensures data.Some? ==> forall i :: 0 <= i < |series| ==> (TimeSort.SortedByTime(series[i].values)
      && multiset(series[i].values) == multiset(Points(conv, data.value, SeriesKey(series[i]))))
    ensures data.Some? ==> TotalPoints(series) == |data.value|
    ensures data.Some? ==> InFirstOrder(conv, data.value, series)
  {
    if data.None? || data.value == [] {
      return [];
    }
    var rows := data.value;
    var grouped := GroupRows(conv, rows);
    series := SortEach(grouped);
    SameLengthsSameTotal(grouped, series);
    assert WellFormed(conv, rows, series) by {
      assert forall i :: 0 <= i < |series| ==> series[i].labels == grouped[i].labels && series[i].name == grouped[i].name;
    }
    forall i | 0 <= i < |series|
      ensures multiset(series[i].values) == multiset(Points(conv, rows, SeriesKey(series[i])))
    {
      assert SeriesKey(series[i]) == SeriesKey(grouped[i]);
    }
  }

  /** Every series sorted by time in place: same names, labels and points. */
  method SortEach(series0: seq<TimeSeries>) returns (series: seq<TimeSeries>)
    ensures |series| == |series0|
    ensures forall i :: 0 <= i < |series| ==> (series[i].name == series0[i].name && series[i].labels == series0[i].labels
      && TimeSort.SortedByTime(series[i].values) && multiset(series[i].values) == multiset(series0[i].values)
      && |series[i].values| == |series0[i].values|)
  {
    series := series0;
    for i := 0 to |series|
      invariant |series| == |series0|
      invariant forall j :: 0 <= j < |series| ==> (series[j].name == series0[j].name && series[j].labels == series0[j].labels
        && multiset(series[j].values) == multiset(series0[j].values) && |series[j].values| == |series0[j].values|)
      invariant forall j :: 0 <= j < i ==> TimeSort.SortedByTime(series[j].values)
    {
      var sorted := TimeSort.SortByTime(series[i].values);
      series := series[i := series[i].(values := sorted)];
    }
  }

  lemma {:induction false} SameLengthsSameTotal(a: seq<TimeSeries>, b: seq<TimeSeries>)
    requires |a| == |b| && forall i :: 0 <= i < |a| ==> |a[i].values| == |b[i].values|
    ensures TotalPoints(a) == TotalPoints(b)
  {
    if a != [] {
      SameLengthsSameTotal(a[..|a| - 1], b[..|b| - 1]);
    }
  }

  /** The series group `rows`: they are well formed and keyed by the labelsToKey keys of `rows`, and each
      holds the points of those rows of `pointRows` that have its key. */
  ghost predicate Grouped(conv: Conversions, rows: seq<Row>, pointRows: seq<Row>, series: seq<TimeSeries>) {
    WellFormed(conv, rows, series) && KeyedBy(series, AllKeys(conv, rows))
    && forall s :: 0 <= s < |series| ==> series[s].values == Points(conv, pointRows, SeriesKey(series[s]))
  }

  /** The grouping loop of buildTimeSeries: a new series for a key not seen before, then the
      row's point appended to the series of its key. */
  method GroupRows(conv: Conversions, rows: seq<Row>) returns (series: seq<TimeSeries>)
    ensures WellFormed(conv, rows, series) && KeyedBy(series, AllKeys(conv, rows))
    ensures forall s :: 0 <= s < |series| ==> series[s].values == Points(conv, rows, SeriesKey(series[s]))
    ensures TotalPoints(series) == |rows|
    ensures InFirstOrder(conv, rows, series)
  {
    series := [];
    assert AllKeys(conv, rows[..0]) == {};
    for i := 0 to |rows|
      invariant Grouped(conv, rows[..i], rows[..i], series)
      invariant TotalPoints(series) == i
      invariant InFirstOrder(conv, rows[..i], series)
    {
      PrefixStep(rows, i);
      series := AddRow(conv, rows[..i], rows[i], series);
    }
    assert rows[..|rows|] == rows;
  }

  /** The index of the series whose key is `key`, or the number of series. */
  function IndexOfKey(series: seq<TimeSeries>, key: string): (i: nat)
    ensures i <= |series|
    ensures i < |series| ==> SeriesKey(series[i]) == key
    ensures i == |series| ==> forall j :: 0 <= j < |series| ==> SeriesKey(series[j]) != key
  {
    FindKeyFrom(SeriesKeys(series), key, 0)
  }

  /** The keys of the series, in order: the keys of the source's map. */
  function SeriesKeys(series: seq<TimeSeries>): (keys: seq<string>)
    ensures |keys| == |series|
    ensures forall i :: 0 <= i < |series| ==> keys[i] == SeriesKey(series[i])
  {
    seq(|series|, i requires 0 <= i < |series| => SeriesKey(series[i]))
  }

  /** The index of the first key from `from` on that is `key`, or the number of keys. */
  function FindKeyFrom(keys: seq<string>, key: string, from: nat): (i: nat)
    requires from <= |keys|
    ensures from <= i <= |keys|
    ensures i < |keys| ==> keys[i] == key
    ensures forall j :: from <= j < i ==> keys[j] != key
    decreases |keys| - from
  {
    if from == |keys| then from
    else if keys[from] == key then from
    else FindKeyFrom(keys, key, from + 1)
  }

  /** The series with the row's point appended to the one at `idx`. */
  function WithPoint(conv: Conversions, series: seq<TimeSeries>, idx: nat, row: Row): seq<TimeSeries>
    requires idx < |series|
  {
    series[idx := series[idx].(values := series[idx].values + [RowPoint(conv, row)])]
  }

  /** The empty series for the labels of a row. */
  function NewSeriesFor(conv: Conversions, row: Row): TimeSeries {
    TimeSeries(LabelsToName(RowLabels(conv, row)), [], Some(RowLabels(conv, row)))
  }

  /** One iteration of the grouping loop. */
  method AddRow(conv: Conversions, done: seq<Row>, row: Row, series0: seq<TimeSeries>) returns (series: seq<TimeSeries>)
    requires Grouped(conv, done, done, series0) && InFirstOrder(conv, done, series0)
    ensures Grouped(conv, done + [row], done + [row], series) && InFirstOrder(conv, done + [row], series)
    ensures TotalPoints(series) == TotalPoints(series0) + 1
  {
    var labels := RowLabels(conv, row);
    var key := LabelsToKey(labels);
    series := series0;
    var idx := IndexOfKey(series, key);
    if idx == |series| {
      AddRowNew(conv, done, row, series0);
      OrderNew(conv, done, row, series0);
      series := series + [TimeSeries(LabelsToName(labels), [], Some(labels))];
    } else {
      AddRowExisting(conv, done, row, series0, idx);
      OrderExisting(conv, done, row, series0, idx);
    }
    series := series[idx := series[idx].(values := series[idx].values + [RowPoint(conv, row)])];
  }

  /** A row whose key no series has yet: a new series holding its point. */
  lemma AddRowNew(conv: Conversions, done: seq<Row>, row: Row, series0: seq<TimeSeries>)
    requires Grouped(conv, done, done, series0)
    requires forall s :: 0 <= s < |series0| ==> SeriesKey(series0[s]) != RowKey(conv, row)
    ensures var series := WithPoint(conv, series0 + [NewSeriesFor(conv, row)], |series0|, row);
      Grouped(conv, done + [row], done + [row], series) && TotalPoints(series) == TotalPoints(series0) + 1
  {
    WellFormedMore(conv, done, row, series0);
    NewSeries(conv, done, row, series0);
    AddPoint(conv, done, row, series0 + [NewSeriesFor(conv, row)], |series0|);
  }

  /** A row whose key the series at `idx` has: its point appended to that series. */
  lemma AddRowExisting(conv: Conversions, done: seq<Row>, row: Row, series0: seq<TimeSeries>, idx: nat)
    requires Grouped(conv, done, done, series0)
    requires idx < |series0| && SeriesKey(series0[idx]) == RowKey(conv, row)
    ensures var series := WithPoint(conv, series0, idx, row);
      Grouped(conv, done + [row], done + [row], series) && TotalPoints(series) == TotalPoints(series0) + 1
  {
    AllKeysAppend(conv, done, row);
    WellFormedMore(conv, done, row, series0);
    KeyAlreadyThere(series0, AllKeys(conv, done), idx);
    AddPoint(conv, done, row, series0, idx);
  }

  /** A row with a key not seen before is the next first row, and its series comes last. */
  lemma OrderNew(conv: Conversions, done: seq<Row>, row: Row, series0: seq<TimeSeries>)
    requires InFirstOrder(conv, done, series0) && KeyedBy(series0, AllKeys(conv, done))
    requires forall s :: 0 <= s < |series0| ==> SeriesKey(series0[s]) != RowKey(conv, row)
    ensures InFirstOrder(conv, done + [row], WithPoint(conv, series0 + [NewSeriesFor(conv, row)], |series0|, row))
  {
    var rows := done + [row];
    var series := WithPoint(conv, series0 + [NewSeriesFor(conv, row)], |series0|, row);
    assert rows[..|done|] == done;
    assert RowKey(conv, row) !in AllKeys(conv, done);
    FirstIndicesSnoc(conv, done, row);
    var first := FirstIndices(conv, rows);
    assert first == FirstIndices(conv, done) + [|done|];
    forall s | 0 <= s < |series| ensures series[s].labels == Some(RowLabels(conv, rows[first[s]])) {
      if s < |series0| {
        assert rows[first[s]] == done[first[s]];
      }
    }
  }

  /** A row with a key seen before adds no first row and changes no series' labels. */
  lemma OrderExisting(conv: Conversions, done: seq<Row>, row: Row, series0: seq<TimeSeries>, idx: nat)
    requires InFirstOrder(conv, done, series0) && KeyedBy(series0, AllKeys(conv, done))
    requires idx < |series0| && SeriesKey(series0[idx]) == RowKey(conv, row)
    ensures InFirstOrder(conv, done + [row], WithPoint(conv, series0, idx, row))
  {
    var rows := done + [row];
    assert rows[..|done|] == done;
    assert RowKey(conv, row) in AllKeys(conv, done);
    FirstIndicesSnoc(conv, done, row);
    var first := FirstIndices(conv, rows);
    assert first == FirstIndices(conv, done);
    forall s | 0 <= s < |series0| ensures rows[first[s]] == done[first[s]] {
    }
  }

  lemma KeyAlreadyThere(series: seq<TimeSeries>, keys: set<string>, idx: nat)
    requires KeyedBy(series, keys) && idx < |series|
    ensures KeyedBy(series, keys + {SeriesKey(series[idx])})
  {
    assert SeriesKey(series[idx]) in keys;
    assert keys + {SeriesKey(series[idx])} == keys;
  }

  lemma AllKeysAppend(conv: Conversions, done: seq<Row>, row: Row)
    ensures AllKeys(conv, done + [row]) == AllKeys(conv, done) + {RowKey(conv, row)}
  {
  }

  /** Labels taken from the rows so far are labels of the rows with one more. */
  lemma WellFormedMore(conv: Conversions, done: seq<Row>, row: Row, series: seq<TimeSeries>)
    requires WellFormed(conv, done, series)
    ensures WellFormed(conv, done + [row], series)
  {
    forall i | 0 <= i < |series| ensures FromRows(conv, done + [row], series[i].labels.value) {
      assert FromRows(conv, done, series[i].labels.value);
      var r :| r in done && RowLabels(conv, r) == series[i].labels.value;
      assert r in done + [row];
    }
  }

  /** A key not seen before gets a new, empty series. */
  lemma NewSeries(conv: Conversions, done: seq<Row>, row: Row, series: seq<TimeSeries>)
    requires WellFormed(conv, done + [row], series) && KeyedBy(series, AllKeys(conv, done))
    requires forall s :: 0 <= s < |series| ==> series[s].values == Points(conv, done, SeriesKey(series[s]))
    requires forall s :: 0 <= s < |series| ==> SeriesKey(series[s]) != RowKey(conv, row)
    ensures var series' := series + [NewSeriesFor(conv, row)];
      WellFormed(conv, done + [row], series') && KeyedBy(series', AllKeys(conv, done + [row]))
      && (forall s :: 0 <= s < |series'| ==> series'[s].values == Points(conv, done, SeriesKey(series'[s])))
      && SeriesKey(series'[|series|]) == RowKey(conv, row) && TotalPoints(series') == TotalPoints(series)
  {
    var added := NewSeriesFor(conv, row);
    var series' := series + [added];
    NewSeriesWellFormed(conv, done, row, series);
    KeyedAppend(series, AllKeys(conv, done), added);
    AllKeysAppend(conv, done, row);
    NewSeriesEmpty(conv, done, row, series);
    assert series'[..|series'| - 1] == series;
  }

  /** The new series keeps the list well formed. */
  lemma NewSeriesWellFormed(conv: Conversions, done: seq<Row>, row: Row, series: seq<TimeSeries>)
    requires WellFormed(conv, done + [row], series)
    requires forall s :: 0 <= s < |series| ==> SeriesKey(series[s]) != RowKey(conv, row)
    ensures WellFormed(conv, done + [row], series + [NewSeriesFor(conv, row)])
  {
    var added := NewSeriesFor(conv, row);
    var series' := series + [added];
    assert SeriesKey(added) == RowKey(conv, row);
    assert row in done + [row];
    assert FromRows(conv, done + [row], RowLabels(conv, row));
    forall i | 0 <= i < |series'|
      ensures series'[i].labels.Some? && series'[i].name == LabelsToName(series'[i].labels.value)
        && FromRows(conv, done + [row], series'[i].labels.value)
    {
      if i < |series| { assert series'[i] == series[i]; }
    }
    DistinctAppend(series, added);
  }

  /** A series whose key no series of the list has keeps the keys distinct. */
  lemma DistinctAppend(series: seq<TimeSeries>, added: TimeSeries)
    requires DistinctSeriesKeys(series)
    requires forall s :: 0 <= s < |series| ==> SeriesKey(series[s]) != SeriesKey(added)
    ensures DistinctSeriesKeys(series + [added])
  {
    var series' := series + [added];
    forall i, j | 0 <= i < j < |series'| ensures SeriesKey(series'[i]) != SeriesKey(series'[j]) {
      assert series'[i] == series[i];
      if j < |series| { assert series'[j] == series[j]; }
    }
  }

  /** The new series starts without points, as the rows so far hold none for its key. */
  lemma NewSeriesEmpty(conv: Conversions, done: seq<Row>, row: Row, series: seq<TimeSeries>)
    requires KeyedBy(series, AllKeys(conv, done))
    requires forall s :: 0 <= s < |series| ==> series[s].values == Points(conv, done, SeriesKey(series[s]))
    requires forall s :: 0 <= s < |series| ==> SeriesKey(series[s]) != RowKey(conv, row)
    ensures var series' := series + [NewSeriesFor(conv, row)];
      forall s :: 0 <= s < |series'| ==> series'[s].values == Points(conv, done, SeriesKey(series'[s]))
  {
    var key := RowKey(conv, row);
    var added := NewSeriesFor(conv, row);
    var series' := series + [added];
    assert SeriesKey(added) == key;
    assert key !in AllKeys(conv, done);
    PointsOtherKey(conv, done, key);
    forall s | 0 <= s < |series'| ensures series'[s].values == Points(conv, done, SeriesKey(series'[s])) {
      if s < |series| { assert series'[s] == series[s]; }
    }
  }

  lemma KeyedAppend(series: seq<TimeSeries>, keys: set<string>, added: TimeSeries)
    requires KeyedBy(series, keys)
    ensures KeyedBy(series + [added], keys + {SeriesKey(added)})
  {
    var series' := series + [added];
    forall x ensures x in keys + {SeriesKey(added)} <==> exists s :: 0 <= s < |series'| && SeriesKey(series'[s]) == x {
      if x in keys {
        var s :| 0 <= s < |series| && SeriesKey(series[s]) == x;
        assert series'[s] == series[s];
      }
      if x == SeriesKey(added) {
        assert series'[|series|] == added;
      }
      if exists s :: 0 <= s < |series'| && SeriesKey(series'[s]) == x {
        var s :| 0 <= s < |series'| && SeriesKey(series'[s]) == x;
        if s < |series| { assert series'[s] == series[s]; }
      }
    }
  }

  /** A key no row has has no points. */
  lemma {:induction false} PointsOtherKey(conv: Conversions, rows: seq<Row>, key: string)
    requires key !in AllKeys(conv, rows)
    ensures Points(conv, rows, key) == []
  {
    if rows != [] {
      var init := rows[..|rows| - 1];
      assert AllKeys(conv, init) <= AllKeys(conv, rows);
      PointsOtherKey(conv, init, key);
      assert rows[|rows| - 1] in rows;
    }
  }

  /** The row's point goes to the series of its key and to no other. */
  lemma AddPoint(conv: Conversions, done: seq<Row>, row: Row, series: seq<TimeSeries>, idx: nat)
    requires WellFormed(conv, done + [row], series) && KeyedBy(series, AllKeys(conv, done + [row]))
    requires forall s :: 0 <= s < |series| ==> series[s].values == Points(conv, done, SeriesKey(series[s]))
    requires idx < |series| && SeriesKey(series[idx]) == RowKey(conv, row)
    ensures var series' := series[idx := series[idx].(values := series[idx].values + [RowPoint(conv, row)])];
      WellFormed(conv, done + [row], series') && KeyedBy(series', AllKeys(conv, done + [row]))
      && (forall s :: 0 <= s < |series'| ==> series'[s].values == Points(conv, done + [row], SeriesKey(series'[s])))
      && TotalPoints(series') == TotalPoints(series) + 1
  {
    var series' := series[idx := series[idx].(values := series[idx].values + [RowPoint(conv, row)])];
    SameShape(conv, done + [row], series, series', AllKeys(conv, done + [row]));
    AddPointValues(conv, done, row, series, idx);
    TotalPointsUpdate(series, idx, RowPoint(conv, row));
  }

  /** Series with the same names and labels, position by position, are well formed and keyed alike. */
  lemma SameShape(conv: Conversions, rows: seq<Row>, series: seq<TimeSeries>, series': seq<TimeSeries>, keys: set<string>)
    requires |series'| == |series|
    requires forall s :: 0 <= s < |series| ==> series'[s].labels == series[s].labels && series'[s].name == series[s].name
    requires WellFormed(conv, rows, series) && KeyedBy(series, keys)
    ensures WellFormed(conv, rows, series') && KeyedBy(series', keys)
  {
    assert forall s :: 0 <= s < |series| ==> SeriesKey(series'[s]) == SeriesKey(series[s]);
  }

  lemma AddPointValues(conv: Conversions, done: seq<Row>, row: Row, series: seq<TimeSeries>, idx: nat)
    requires DistinctSeriesKeys(series)
    requires forall s :: 0 <= s < |series| ==> series[s].values == Points(conv, done, SeriesKey(series[s]))
    requires idx < |series| && SeriesKey(series[idx]) == RowKey(conv, row)
    ensures var series' := series[idx := series[idx].(values := series[idx].values + [RowPoint(conv, row)])];
      forall s :: 0 <= s < |series'| ==> series'[s].values == Points(conv, done + [row], SeriesKey(series'[s]))
  {
    var series' := series[idx := series[idx].(values := series[idx].values + [RowPoint(conv, row)])];
    var rows := done + [row];
    assert rows[..|done|] == done;
    forall s | 0 <= s < |series'| ensures series'[s].values == Points(conv, rows, SeriesKey(series'[s])) {
      var key := SeriesKey(series[s]);
      assert SeriesKey(series'[s]) == key;
      assert Points(conv, rows, key) == Points(conv, done, key) + (if RowKey(conv, row) == key then [RowPoint(conv, row)] else []);
      if s != idx {
        if idx < s {
          assert SeriesKey(series[idx]) != SeriesKey(series[s]);
        }
        assert Points(conv, done, key) + [] == Points(conv, done, key);
      }
    }
  }

  lemma {:induction false} TotalPointsUpdate(series: seq<TimeSeries>, idx: nat, p: Point)
    requires idx < |series|
    ensures TotalPoints(series[idx := series[idx].(values := series[idx].values + [p])]) == TotalPoints(series) + 1
  {
    var series' := series[idx := series[idx].(values := series[idx].values + [p])];
    var n := |series| - 1;
    if idx < n {
      assert series'[..n] == series[..n][idx := series[idx].(values := series[idx].values + [p])];
      TotalPointsUpdate(series[..n], idx, p);
    } else {
      assert series'[..n] == series[..n];
    }
  }

  /** Rows whose labels are the same set of labels, in whatever order, have their points in one series. */
  lemma SameLabelsOneSeries(conv: Conversions, rows: seq<Row>, series: seq<TimeSeries>, r1: Row, r2: Row)
    requires WellFormed(conv, rows, series) && KeyedBy(series, AllKeys(conv, rows))
    requires r1 in rows && r2 in rows
    requires forall x :: x in RowLabels(conv, r1) <==> x in RowLabels(conv, r2)
    ensures exists s :: 0 <= s < |series| && SeriesKey(series[s]) == RowKey(conv, r1) && SeriesKey(series[s]) == RowKey(conv, r2)
  {
    KeyOrder.SameEntriesSameSorted(RowLabels(conv, r1), RowLabels(conv, r2));
    assert RowKey(conv, r1) == RowKey(conv, r2);
    assert RowKey(conv, r1) in AllKeys(conv, rows);
  }

  /** A ClickHouse time-series answer: no series for an empty query; otherwise the step, the query
      sent and its series. */
  datatype SeriesResult = SeriesResult(series: seq<TimeSeries>, stepMs: Option<real>, executedQuery: Option<string>)

  /** getTimeSeriesData: a missing or empty query gives no series and sends nothing; otherwise the
      step is calculated, the built-in variables and then the dashboard variables are replaced, and
      the answer's rows are grouped. `replaceBuiltins`, `replaceVariables` and `query` stand for the
      variable replacement and the client call. */
  method GetTimeSeriesData(conv: Conversions, query: Option<string>, startMs: int, endMs: int, suggestedStepMs: Option<real>,
                           replaceBuiltins: (string, int, int, real) -> string, replaceVariables: string -> string,
                           send: string -> Option<seq<Row>>)
    returns (r: SeriesResult)
    ensures query.None? || query.value == "" ==> r == SeriesResult([], None, None)
    ensures query.Some? && query.value != "" ==>
      var stepMs := CalculateStep(startMs, endMs, suggestedStepMs);
      var q := replaceVariables(replaceBuiltins(query.value, startMs, endMs, stepMs));
      r.stepMs == Some(stepMs) && r.executedQuery == Some(q)
      && (send(q).Some? ==> TotalPoints(r.series) == |send(q).value| && KeyedBy(r.series, AllKeys(conv, send(q).value)))
      && (send(q).None? ==> r.series == [])
  {
    if query.None? || query.value == "" {
      return SeriesResult([], None, None);
    }
    var stepMs := CalculateStep(startMs, endMs, suggestedStepMs);
    var q := replaceBuiltins(query.value, startMs, endMs, stepMs);
    q := replaceVariables(q);
    var response := send(q);
    var series := BuildTimeSeries(conv, response);
    return SeriesResult(series, Some(stepMs), Some(q));
  }
}
