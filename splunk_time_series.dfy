/** The Splunk time-series query: one series per column of the first result, one point per result. */
module SplunkTimeSeries {
  import opened Base
  import opened PersesCore
  import opened SplunkClient

  /** The JavaScript conversions the query relies on: `new Date(x).getTime() / 1000` of a `_time`
      field (absent when the result has none) and `Number` of a string (`None` for `NaN`). */
  datatype Conversions = Conversions(dateSeconds: Option<Field> -> real, parseNumber: string -> Option<real>)

  /** `Number(value) || 0`: the number a value reads as, 0 for anything that is not a number. */
  function NumberOrZero(conv: Conversions, v: Option<Field>): (r: real)
    ensures v.None? || v == Some(Null) ==> r == 0.0
    ensures v.Some? && v.value.Num? ==> r == v.value.n
    ensures v.Some? && v.value.Str? && conv.parseNumber(v.value.s).None? ==> r == 0.0
    ensures v.Some? && v.value.Str? && conv.parseNumber(v.value.s).Some? ==> r == conv.parseNumber(v.value.s).value
  {
    match v
    case None => 0.0
    case Some(Null) => 0.0
    case Some(Num(n)) => n
    case Some(Str(s)) => conv.parseNumber(s).GetOr(0.0)
    case Some(Bool(b)) => if b then 1.0 else 0.0
    case Some(Obj(_)) => 0.0
  }

  /** The keys of a result other than `_time`, in order. */
  function MetricKeys(first: Record): (keys: seq<string>)
    ensures forall k :: k in keys <==> k in Keys(first) && k != "_time"
    ensures |keys| <= |first|
  {
    if first == [] then []
    else
      var rest := MetricKeys(first[..|first| - 1]);
      var k := first[|first| - 1].0;
      assert forall x :: x in Keys(first) <==> x in Keys(first[..|first| - 1]) || x == k by {
        forall x ensures x in Keys(first) <==> x in Keys(first[..|first| - 1]) || x == k {
          if x in Keys(first) {
            var i :| 0 <= i < |first| && first[i].0 == x;
            if i < |first| - 1 { assert first[..|first| - 1][i].0 == x; }
          }
          if x in Keys(first[..|first| - 1]) {
            var i :| 0 <= i < |first| - 1 && first[..|first| - 1][i].0 == x;
            assert first[i].0 == x;
          }
          if x == k { assert first[|first| - 1].0 == x; }
        }
      }
      if k != "_time" then rest + [k] else rest
  }

  /** The point of one result in the series of `key`. */
  function PointOf(conv: Conversions, result: Record, key: string): Point {
    (conv.dateSeconds(Lookup(result, "_time")), Some(NumberOrZero(conv, Lookup(result, key))))
  }

  /** convertResultsToTimeSeries */
  function ConvertResultsToTimeSeries(conv: Conversions, results: Results): (series: seq<TimeSeries>)
  {
    var rs := AsArray(results);
    if rs == [] then []
    else
      var keys := MetricKeys(rs[0]);
      seq(|keys|, i requires 0 <= i < |keys| =>
        TimeSeries(keys[i], seq(|rs|, j requires 0 <= j < |rs| => PointOf(conv, rs[j], keys[i])), Some([("metric", keys[i])])))
  }

  /** No results give no series; otherwise there is one series per key of the first result other
      than `_time`, named and labelled `metric` after it, with one point per result in order: the
      result's time in seconds and the key's value as a number, 0 where it is not one. */
  lemma SeriesShape(conv: Conversions, results: Results)
    ensures AsArray(results) == [] ==> ConvertResultsToTimeSeries(conv, results) == []
    ensures var rs := AsArray(results); var series := ConvertResultsToTimeSeries(conv, results);
      rs != [] ==>
        (forall name :: (exists i :: 0 <= i < |series| && series[i].name == name) <==> name in Keys(rs[0]) && name != "_time")
        && forall i :: 0 <= i < |series| ==>
          series[i].labels == Some([("metric", series[i].name)]) && |series[i].values| == |rs|
          && forall j :: 0 <= j < |rs| ==>
            series[i].values[j].0 == conv.dateSeconds(Lookup(rs[j], "_time"))
            && series[i].values[j].1 == Some(NumberOrZero(conv, Lookup(rs[j], series[i].name)))
  {
    var rs := AsArray(results);
    if rs != [] {
      var series := ConvertResultsToTimeSeries(conv, results);
      var keys := MetricKeys(rs[0]);
      forall name ensures (exists i :: 0 <= i < |series| && series[i].name == name) <==> name in Keys(rs[0]) && name != "_time" {
        if name in keys {
          var i :| 0 <= i < |keys| && keys[i] == name;
          assert series[i].name == name;
        }
      }
    }
  }

  /** A single result object converts like a list holding only it. */
  lemma SingleResult(conv: Conversions, r: Record)
    ensures ConvertResultsToTimeSeries(conv, One(r)) == ConvertResultsToTimeSeries(conv, Many([r]))
  {
  }

  /** A Splunk time-series query: the search, and the time bounds that override the window's. */
  datatype QuerySpec = QuerySpec(query: Option<string>, earliest: Option<string>, latest: Option<string>)

  datatype TimeSeriesData = TimeSeriesData(series: seq<TimeSeries>, startMs: int, endMs: int, stepMs: int,
                                           executedQuery: Option<string>)

  /** The default step, one minute. */
  const DefaultStepMs := 60000

  /** The search that reaches Splunk: an export search when some allowed endpoint is an export one,
      else a job whose results are read once it is done. */
  function SearchCall(query: string, spec: QuerySpec, startMs: int, endMs: int, viaExport: bool): (c: Call)
    ensures (c.CreateJob? || c.ExportSearch?) && c.search == query && c.outputMode.None?
    ensures c.ExportSearch? <==> viaExport
    ensures c.earliest == Some(TimeBound(spec.earliest, startMs)) && c.latest == Some(TimeBound(spec.latest, endMs))
  {
    var earliest, latest := TimeBound(spec.earliest, startMs), TimeBound(spec.latest, endMs);
    if viaExport then ExportSearch(query, Some(earliest), Some(latest), None)
    else CreateJob(query, Some(earliest), Some(latest), None)
  }

  /** The results a search yields: the export answer, or the results of the created job. */
  function SearchResults(server: Server, call: Call): Results {
    if call.ExportSearch? then server.results(call)
    else server.results(JobResults(server.jobId(call), None, None, None))
  }

  /** getSplunkTimeSeriesData: an empty query gives no series and the one-minute step without a
      search; otherwise the query, after variable replacement, is searched over the window and its
      results converted, with the suggested step or one minute. Polling for the job is left out:
      the job's results are read as if it were done. */
  function GetSplunkTimeSeriesData(conv: Conversions, spec: QuerySpec, startMs: int, endMs: int,
                                   suggestedStepMs: Option<int>, replaceVariables: string -> string,
                                   endpoints: seq<Option<string>>, server: Server): (r: TimeSeriesData)
    ensures r.startMs == startMs && r.endMs == endMs
    ensures !Given(spec.query) ==> r.series == [] && r.stepMs == DefaultStepMs && r.executedQuery.None?
    ensures Given(spec.query) ==>
      var q := replaceVariables(spec.query.value);
      r.executedQuery == Some(q)
      && r.stepMs == (if suggestedStepMs.Some? && suggestedStepMs.value != 0 then suggestedStepMs.value else DefaultStepMs)
      && r.series == ConvertResultsToTimeSeries(conv,
           SearchResults(server, SearchCall(q, spec, startMs, endMs, HasEndpoint(endpoints, "/export"))))
  {
    if !Given(spec.query) then TimeSeriesData([], startMs, endMs, DefaultStepMs, None)
    else
      var q := replaceVariables(spec.query.value);
      var call := SearchCall(q, spec, startMs, endMs, HasEndpoint(endpoints, "/export"));
      var step := if suggestedStepMs.Some? && suggestedStepMs.value != 0 then suggestedStepMs.value else DefaultStepMs;
      TimeSeriesData(ConvertResultsToTimeSeries(conv, SearchResults(server, call)), startMs, endMs, step, Some(q))
  }
}
