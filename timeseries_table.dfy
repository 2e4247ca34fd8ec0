/** The time series table: one row per series, its values with their timestamps when there are
    several, or its histograms with one range row per bucket; bucket ranges are written with
    interval delimiters that follow the bucket's boundary rule. */
module TimeSeriesTable {
  import opened Base

  /** Above this many series, series names are not formatted. */
  const MaxFormatableSeries := 1000

  /** A histogram bucket: its boundary rule, its bounds and its count, as text. */
  datatype BucketTuple = BucketTuple(boundaryRule: int, leftBoundary: string, rightBoundary: string, count: string)

  datatype HistogramValue = HistogramValue(count: real, sum: string, buckets: Option<seq<BucketTuple>>)

  /** A series: its name, its samples (a `None` value standing for null) and its histograms, each
      part absent when the series has none. */
  datatype TimeSeries = TimeSeries(name: string, values: Option<seq<(int, Option<real>)>>,
                                   histograms: Option<seq<(int, HistogramValue)>>)

  datatype PanelData = PanelData(data: Option<seq<TimeSeries>>)

  /** A value line: the value and, when shown, its timestamp. */
  datatype ValueLine = ValueLine(value: Option<real>, timestamp: Option<int>)

  /** A histogram sample: its total count, its sum and its range rows. */
  datatype HistogramView = HistogramView(totalCount: real, sum: string, rows: seq<(string, string)>)

  datatype Cell = ValuesCell(lines: seq<ValueLine>) | HistogramsCell(views: seq<HistogramView>)

  datatype Row = Row(name: string, isFormatted: bool, cell: Cell)

  /** The left delimiter: closed for boundary rules 1 and 3. */
  function LeftDelim(br: int): (c: char)
    ensures c == '[' <==> br == 1 || br == 3
    ensures c == '[' || c == '('
  {
    if br == 3 || br == 1 then '[' else '('
  }

  /** The right delimiter: closed for boundary rules 0 and 3. */
  function RightDelim(br: int): (c: char)
    ensures c == ']' <==> br == 0 || br == 3
    ensures c == ']' || c == ')'
  {
    if br == 3 || br == 0 then ']' else ')'
  }

  /** bucketRangeString: the delimited range of a bucket. */
  function BucketRangeString(b: BucketTuple): (r: string)
    ensures |r| == |b.leftBoundary| + |b.rightBoundary| + 6
  {
    [LeftDelim(b.boundaryRule)] + b.leftBoundary + " -> " + b.rightBoundary + [RightDelim(b.boundaryRule)]
  }

  /** The pieces of a range string can be read back: its first character says whether the range is
      closed on the left, its last whether it is closed on the right, and the bounds stand between. */
  lemma RangeStringReadsBack(b: BucketTuple)
    ensures var r := BucketRangeString(b);
      var l, rb := |b.leftBoundary|, |b.rightBoundary|;
      (r[0] == '[' <==> b.boundaryRule == 1 || b.boundaryRule == 3)
      && (r[|r| - 1] == ']' <==> b.boundaryRule == 0 || b.boundaryRule == 3)
      && r[1..1 + l] == b.leftBoundary
      && r[1 + l..5 + l] == " -> "
      && r[5 + l..5 + l + rb] == b.rightBoundary
  {
    var r := BucketRangeString(b);
    var l := |b.leftBoundary|;
    assert r == [LeftDelim(b.boundaryRule)] + b.leftBoundary + " -> " + b.rightBoundary + [RightDelim(b.boundaryRule)];
    assert r[1..1 + l] == b.leftBoundary;
    assert r[1 + l..5 + l] == " -> ";
  }

  /** The four boundary rules give four different delimiter pairs. */
  lemma DelimitersTellRulesApart(br1: int, br2: int)
    requires 0 <= br1 <= 3 && 0 <= br2 <= 3
    requires LeftDelim(br1) == LeftDelim(br2) && RightDelim(br1) == RightDelim(br2)
    ensures br1 == br2
  {
  }

  /** The series of every query result, in order. */
  function AllSeries(result: seq<PanelData>): seq<TimeSeries> {
    if result == [] then [] else result[0].data.GetOr([]) + AllSeries(result[1..])
  }

  /** The range rows of a histogram sample, one per bucket. */
  function HistogramRows(h: HistogramValue): (rows: seq<(string, string)>)
    ensures var bs := h.buckets.GetOr([]);
      |rows| == |bs| && forall i :: 0 <= i < |bs| ==> rows[i] == (BucketRangeString(bs[i]), bs[i].count)
  {
    var bs := h.buckets.GetOr([]);
    seq(|bs|, i requires 0 <= i < |bs| => (BucketRangeString(bs[i]), bs[i].count))
  }

  /** A series' value lines: each value, with its timestamp only when there are several values. */
  function ValueLines(values: seq<(int, Option<real>)>): (lines: seq<ValueLine>)
    ensures |lines| == |values|
    ensures forall i :: 0 <= i < |values| ==>
      (lines[i].value == values[i].1 && (lines[i].timestamp.Some? <==> |values| > 1)
       && (lines[i].timestamp.Some? ==> lines[i].timestamp.value == values[i].0))
  {
    var displayTimeStamps := |values| > 1;
    seq(|values|, i requires 0 <= i < |values| =>
      ValueLine(values[i].1, if displayTimeStamps then Some(values[i].0) else None))
  }

  /** The row of one series. */
  function RowOf(s: TimeSeries, isFormatted: bool): Row {
    if s.histograms.Some? then
      Row(s.name, isFormatted, HistogramsCell(seq(|s.histograms.value|, i requires 0 <= i < |s.histograms.value| =>
        var h := s.histograms.value[i].1; HistogramView(h.count, h.sum, HistogramRows(h)))))
    else Row(s.name, isFormatted, ValuesCell(ValueLines(s.values.GetOr([]))))
  }

  /** buildRows: one row per series, formatted only below the series limit; a series with histograms
      shows them, any other its values. */
  function BuildRows(series: seq<TimeSeries>): (rows: seq<Row>)
    ensures |rows| == |series|
    ensures forall i :: 0 <= i < |series| ==>
      (rows[i].name == series[i].name
       && (rows[i].isFormatted <==> |series| < MaxFormatableSeries)
       && (rows[i].cell.HistogramsCell? <==> series[i].histograms.Some?)
       && (rows[i].cell.ValuesCell? ==> |rows[i].cell.lines| == |series[i].values.GetOr([])|))
  {
    var isFormatted := |series| < MaxFormatableSeries;
    seq(|series|, i requires 0 <= i < |series| => RowOf(series[i], isFormatted))
  }

  /** The table of query results: the warning about unformatted names, and the rows. */
  function DataTable(result: seq<PanelData>): (r: (bool, seq<Row>))
    ensures var series := AllSeries(result);
      (r.0 <==> |series| >= MaxFormatableSeries) && |r.1| == |series|
  {
    var series := AllSeries(result);
    (|series| >= MaxFormatableSeries, BuildRows(series))
  }

  /** The warning shows exactly when the rows are not formatted. */
  lemma WarningIffUnformatted(result: seq<PanelData>)
    requires AllSeries(result) != []
    ensures DataTable(result).0 <==> !DataTable(result).1[0].isFormatted
  {
  }

  /** Timestamps show exactly for series with more than one value. */
  lemma TimestampsIffSeveralValues(s: TimeSeries, isFormatted: bool)
    requires s.histograms.None? && s.values.Some? && s.values.value != []
    ensures var cell := RowOf(s, isFormatted).cell;
      cell.ValuesCell? && (cell.lines[0].timestamp.Some? <==> |s.values.value| > 1)
  {
  }
}
