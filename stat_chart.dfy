/** The stat chart panel: one stat per series of every query, each showing its value (a matching
    label, a mapped value or the raw value) and, depending on the text mode, its name; the charts
    share the panel's width. */
module StatChart {
  import opened Base
  import opened PersesCore

  const MinWidth: real := 100.0
  const Spacing: real := 2.0

  /** A computed series value: a number, `null` or `undefined`. */
  datatype Calculated = Num(n: real) | Null | Undefined

  /** What a stat shows as its value: text, a number, `null` or nothing. */
  datatype Shown = Label(text: string) | Number(n: real) | NullValue | Absent

  /** A value mapping rule; the rules themselves are applied by a parameter. */
  datatype ValueMapping = ValueMapping(rule: string)

  datatype StatSeries = StatSeries(name: string, formattedName: Option<string>, values: seq<Point>, labels: Option<Labels>)

  datatype QueryResult = QueryResult(series: seq<StatSeries>)

  datatype StatChartOptions = StatChartOptions(textMode: Option<string>, metricLabel: Option<string>,
                                               mappings: Option<seq<ValueMapping>>)

  /** The pieces of the library and the theme that are not part of this model: the calculation of a
      series' value, value mapping, the regular expression built from the metric label, and the
      threshold color. */
  datatype Helpers = Helpers(calculate: StatSeries -> Calculated,
                             applyValueMapping: (real, seq<ValueMapping>) -> Shown,
                             labelMatches: (string, string) -> bool,
                             colorOf: Calculated -> string)

  datatype StatChartData = StatChartData(numericValue: Calculated, displayValue: Shown, displayName: Option<string>,
                                         seriesName: string, values: seq<Point>, color: string)

  function RawShown(v: Calculated): Shown {
    match v
    case Num(n) => Number(n)
    case Null => NullValue
    case Undefined => Absent
  }

  /** getValueOrLabel: a non-empty label wins; otherwise a number is mapped when there are mappings;
      anything else is shown as it is. */
  function ValueOrLabel(value: Calculated, mappings: Option<seq<ValueMapping>>, labelText: Option<string>,
                        applyValueMapping: (real, seq<ValueMapping>) -> Shown): (r: Shown)
    ensures labelText.Some? && labelText.value != "" ==> r == Label(labelText.value)
    ensures (labelText.None? || labelText.value == "") && (mappings.None? || mappings.value == []) ==> r == RawShown(value)
    ensures (labelText.None? || labelText.value == "") && !value.Num? ==> r == RawShown(value)
    ensures (labelText.None? || labelText.value == "") && mappings.Some? && mappings.value != [] && value.Num? ==>
      r == applyValueMapping(value.n, mappings.value)
  {
    if labelText.Some? && labelText.value != "" then Label(labelText.value)
    else if mappings.Some? && |mappings.value| > 0 && value.Num? then applyValueMapping(value.n, mappings.value)
    else RawShown(value)
  }

  /** The raw value can be read back from what is shown when nothing replaces it. */
  lemma RawValueReadsBack(value: Calculated, mappings: Option<seq<ValueMapping>>,
                          applyValueMapping: (real, seq<ValueMapping>) -> Shown)
    requires mappings.None? || mappings.value == []
    ensures var s := ValueOrLabel(value, mappings, None, applyValueMapping);
      (s.Number? <==> value.Num?) && (s.Number? ==> value == Num(s.n))
      && (s == NullValue <==> value == Null) && (s == Absent <==> value == Undefined)
  {
  }

  /** getDisplayContent: what a stat shows for each text mode; an unknown mode behaves like auto. */
  function DisplayContent(textMode: string, numericValue: Calculated, labelText: Option<string>, seriesName: string,
                          mappings: Option<seq<ValueMapping>>, isMultiSeries: bool,
                          applyValueMapping: (real, seq<ValueMapping>) -> Shown): (r: (Shown, Option<string>))
    ensures var formatted := ValueOrLabel(numericValue, mappings, labelText, applyValueMapping);
      (textMode == "value" ==> r == (formatted, None))
      && (textMode == "name" ==> r == (Label(seriesName), None))
      && (textMode == "value_and_name" ==> r == (formatted, Some(seriesName)))
      && (textMode == "none" ==> r == (Absent, None))
      && (textMode !in {"value", "name", "value_and_name", "none"} ==>
            r == (formatted, if isMultiSeries then Some(seriesName) else None))
  {
    var formattedValue := ValueOrLabel(numericValue, mappings, labelText, applyValueMapping);
    match textMode
    case "value" => (formattedValue, None)
    case "name" => (Label(seriesName), None)
    case "value_and_name" => (formattedValue, Some(seriesName))
    case "none" => (Absent, None)
    case _ => (formattedValue, if isMultiSeries then Some(seriesName) else None)
  }

  /** A name is shown exactly in 'value_and_name' mode, and in auto mode with several series; it is
      always the series name. */
  lemma NameShownIff(textMode: string, numericValue: Calculated, labelText: Option<string>, seriesName: string,
                     mappings: Option<seq<ValueMapping>>, isMultiSeries: bool,
                     applyValueMapping: (real, seq<ValueMapping>) -> Shown)
    ensures var r := DisplayContent(textMode, numericValue, labelText, seriesName, mappings, isMultiSeries, applyValueMapping);
      (r.1.Some? <==> textMode == "value_and_name" || (textMode !in {"value", "name", "value_and_name", "none"} && isMultiSeries))
      && (r.1.Some? ==> r.1.value == seriesName)
  {
  }

  /** A value is shown in every mode except 'none'; the series name stands for it in 'name' mode. */
  lemma ValueShownUnlessNone(textMode: string, numericValue: Calculated, labelText: Option<string>, seriesName: string,
                             mappings: Option<seq<ValueMapping>>, isMultiSeries: bool,
                             applyValueMapping: (real, seq<ValueMapping>) -> Shown)
    requires textMode != "none"
    ensures var r := DisplayContent(textMode, numericValue, labelText, seriesName, mappings, isMultiSeries, applyValueMapping);
      r.0 == if textMode == "name" then Label(seriesName) else ValueOrLabel(numericValue, mappings, labelText, applyValueMapping)
  {
  }

  /** getLabelValue: the value of the first label whose key the metric label's pattern matches; none
      without labels or without a (non-empty) metric label. */
  function LabelValue(fieldLabel: Option<string>, labels: Option<Labels>, labelMatches: (string, string) -> bool): (r: Option<string>)
    ensures fieldLabel.None? || fieldLabel.value == "" || labels.None? ==> r.None?
    ensures fieldLabel.Some? && fieldLabel.value != "" && labels.Some? ==>
      (r.None? <==> forall i :: 0 <= i < |labels.value| ==> !labelMatches(fieldLabel.value, labels.value[i].0))
    ensures r.Some? ==>
      exists i :: (0 <= i < |labels.value| && labels.value[i].1 == r.value
        && labelMatches(fieldLabel.value, labels.value[i].0)
        && forall j :: 0 <= j < i ==> !labelMatches(fieldLabel.value, labels.value[j].0))
  {
    if fieldLabel.None? || fieldLabel.value == "" || labels.None? then None
    else
      var first := FirstWhere(labels.value, (e: (string, string)) => labelMatches(fieldLabel.value, e.0));
      if first.Some? then Some(labels.value[first.value].1) else None
  }

  /** The series of every query, in order. */
  function AllSeries(queryResults: seq<QueryResult>): seq<StatSeries> {
    if queryResults == [] then []
    else AllSeries(queryResults[..|queryResults| - 1]) + queryResults[|queryResults| - 1].series
  }

  /** The total series count, as the sum of every query's series count. */
  function TotalSeries(queryResults: seq<QueryResult>): nat {
    if queryResults == [] then 0 else |queryResults[0].series| + TotalSeries(queryResults[1..])
  }

  lemma {:induction false} AllSeriesAppend(a: seq<QueryResult>, b: seq<QueryResult>)
    ensures AllSeries(a + b) == AllSeries(a) + AllSeries(b)
    decreases |b|
  {
    if b == [] {
      assert a + b == a;
    } else {
      var k := |b| - 1;
      assert (a + b)[..|a + b| - 1] == a + b[..k];
      assert b[..k] + [b[k]] == b;
      AllSeriesAppend(a, b[..k]);
    }
  }

  /** The series count summed over the queries is the number of series gathered. */
  lemma {:induction false} TotalSeriesCount(queryResults: seq<QueryResult>)
    ensures TotalSeries(queryResults) == |AllSeries(queryResults)|
  {
    if queryResults != [] {
      TotalSeriesCount(queryResults[1..]);
      assert queryResults == [queryResults[0]] + queryResults[1..];
      AllSeriesAppend([queryResults[0]], queryResults[1..]);
      assert AllSeries([queryResults[0]]) == queryResults[0].series by {
        assert [queryResults[0]][..0] == [];
      }
    }
  }

  /** The stat of one series. */
  function StatOf(s: StatSeries, spec: StatChartOptions, isMultiSeries: bool, h: Helpers): StatChartData {
    var numericValue := h.calculate(s);
    var labelValue := LabelValue(spec.metricLabel, s.labels, h.labelMatches);
    var formattedSeriesName := s.formattedName.GetOr(s.name);
    var content := DisplayContent(spec.textMode.GetOr("auto"), numericValue, labelValue, formattedSeriesName,
                                  spec.mappings, isMultiSeries, h.applyValueMapping);
    StatChartData(numericValue, content.0, content.1, formattedSeriesName, s.values, h.colorOf(numericValue))
  }

  /** The stats of the first `n` series, with the given multi-series flag. */
  function Stats(series: seq<StatSeries>, n: nat, spec: StatChartOptions, isMultiSeries: bool, h: Helpers): (r: seq<StatChartData>)
    requires n <= |series|
    ensures |r| == n && forall i :: 0 <= i < n ==> r[i] == StatOf(series[i], spec, isMultiSeries, h)
  {
    if n == 0 then [] else Stats(series, n - 1, spec, isMultiSeries, h) + [StatOf(series[n - 1], spec, isMultiSeries, h)]
  }

  /** The stats of a panel: one per series of every query, multi-series when there are several. */
  function StatChartDataOf(queryResults: seq<QueryResult>, spec: StatChartOptions, h: Helpers): (r: seq<StatChartData>)
    ensures var series := AllSeries(queryResults);
      |r| == |series| && forall i :: 0 <= i < |series| ==> r[i] == StatOf(series[i], spec, |series| > 1, h)
  {
    var series := AllSeries(queryResults);
    Stats(series, |series|, spec, |series| > 1, h)
  }

  /** Names in auto mode appear exactly when the panel has several series. */
  lemma AutoNamesIffMultiSeries(queryResults: seq<QueryResult>, spec: StatChartOptions, h: Helpers, i: nat)
    requires spec.textMode.None? || spec.textMode.value == "auto"
    requires i < |AllSeries(queryResults)|
    ensures var s := AllSeries(queryResults)[i];
      var r := StatChartDataOf(queryResults, spec, h)[i];
      (r.displayName.Some? <==> TotalSeries(queryResults) > 1)
      && (r.displayName.Some? ==> r.displayName.value == s.formattedName.GetOr(s.name))
  {
    TotalSeriesCount(queryResults);
  }

  /** The walk over one query's series, appending a stat for each. */
  method PushStats(result: QueryResult, spec: StatChartOptions, isMultiSeries: bool, h: Helpers, data: seq<StatChartData>)
    returns (data': seq<StatChartData>)
    ensures data' == data + Stats(result.series, |result.series|, spec, isMultiSeries, h)
  {
    data' := data;
    for k := 0 to |result.series|
      invariant data' == data + Stats(result.series, k, spec, isMultiSeries, h)
    {
      data' := data' + [StatOf(result.series[k], spec, isMultiSeries, h)];
    }
  }

  lemma StatsAppend(a: seq<StatSeries>, b: seq<StatSeries>, spec: StatChartOptions, isMultiSeries: bool, h: Helpers)
    ensures Stats(a + b, |a + b|, spec, isMultiSeries, h)
      == Stats(a, |a|, spec, isMultiSeries, h) + Stats(b, |b|, spec, isMultiSeries, h)
  {
    var l := Stats(a + b, |a + b|, spec, isMultiSeries, h);
    var r := Stats(a, |a|, spec, isMultiSeries, h) + Stats(b, |b|, spec, isMultiSeries, h);
    assert forall i :: 0 <= i < |l| ==> l[i] == r[i] by {
      forall i | 0 <= i < |l| ensures l[i] == r[i] {
        if i < |a| { assert (a + b)[i] == a[i]; } else { assert (a + b)[i] == b[i - |a|]; }
      }
    }
  }

  /** useStatChartData: counts the series of every query, then walks every series of every query. */
  method UseStatChartData(queryResults: seq<QueryResult>, spec: StatChartOptions, h: Helpers)
    returns (statChartData: seq<StatChartData>)
    ensures statChartData == StatChartDataOf(queryResults, spec, h)
  {
    var totalSeries := 0;
    for q := 0 to |queryResults|
      invariant totalSeries == |AllSeries(queryResults[..q])|
    {
      assert queryResults[..q + 1][..q] == queryResults[..q];
      totalSeries := totalSeries + |queryResults[q].series|;
    }
    assert queryResults[..|queryResults|] == queryResults;
    var isMultiSeries := totalSeries > 1;
    statChartData := [];
    for q := 0 to |queryResults|
      invariant statChartData == Stats(AllSeries(queryResults[..q]), |AllSeries(queryResults[..q])|, spec, isMultiSeries, h)
    {
      assert queryResults[..q + 1][..q] == queryResults[..q];
      StatsAppend(AllSeries(queryResults[..q]), queryResults[q].series, spec, isMultiSeries, h);
      statChartData := PushStats(queryResults[q], spec, isMultiSeries, h, statChartData);
    }
  }

  /** The width of each chart: the panel's width less the spacing, shared evenly, but never under the
      minimum when there are several charts; none when there is nothing to show. */
  function ChartWidth(width: real, count: nat): (w: Option<real>)
    ensures w.Some? <==> count > 0
    ensures count == 1 ==> w == Some(width)
    ensures count > 1 ==> w.value >= MinWidth
  {
    if count == 0 then None
    else
      var spacing := Spacing * (count - 1) as real;
      var chartWidth := (width - spacing) / count as real;
      if count > 1 && chartWidth < MinWidth then Some(MinWidth) else Some(chartWidth)
  }

  /** Unless the minimum applies, the charts and the spacing between them take up the panel's width
      exactly. */
  lemma ChartsFillWidth(width: real, count: nat)
    requires count > 0 && ChartWidth(width, count).value != MinWidth
    ensures count as real * ChartWidth(width, count).value + Spacing * (count - 1) as real == width
  {
    var spacing := Spacing * (count - 1) as real;
    var c := count as real;
    assert c * ((width - spacing) / c) == width - spacing;
  }

  /** The panel: nothing without dimensions, otherwise each stat with the shared chart width and
      whether the panel is multi-series; an empty list stands for the "No data" text. */
  function StatChartPanel(contentWidth: Option<real>, queryResults: seq<QueryResult>, spec: StatChartOptions, h: Helpers)
    : (r: Option<(bool, seq<(real, StatChartData)>)>)
    ensures r.Some? <==> contentWidth.Some?
    ensures r.Some? ==> var data := StatChartDataOf(queryResults, spec, h);
      (r.value.0 <==> |data| > 1) && |r.value.1| == |data|
      && forall i :: 0 <= i < |data| ==> r.value.1[i] == (ChartWidth(contentWidth.value, |data|).value, data[i])
  {
    if contentWidth.None? then None
    else
      var data := StatChartDataOf(queryResults, spec, h);
      var isMultiSeries := |data| > 1;
      if |data| == 0 then Some((isMultiSeries, []))
      else
        var w := ChartWidth(contentWidth.value, |data|).value;
        Some((isMultiSeries, seq(|data|, i requires 0 <= i < |data| => (w, data[i]))))
  }
}
