/** The Splunk log query: each result becomes a log entry whose line is its raw event and whose
    labels are its other fields; a datasource that only allows the index endpoint lists the indexes. */
module SplunkLogData {
  import opened Base
  import opened PersesCore
  import opened SplunkClient

  /** The JavaScript conversions the query relies on: `new Date(x).getTime() / 1000` of a `_time`
      field, `String` of a number and `JSON.stringify` of a result. */
  datatype Conversions = Conversions(dateSeconds: Option<Field> -> real, numberToString: real -> string,
                                     stringify: Record -> string)

  /** JavaScript truthiness of a field that may be absent. */
  predicate Truthy(v: Option<Field>) {
    match v
    case None => false
    case Some(Null) => false
    case Some(Str(s)) => s != ""
    case Some(Num(n)) => n != 0.0
    case Some(Bool(b)) => b
    case Some(Obj(_)) => true
  }

  /** A field as text: strings as they are, numbers through `String`, objects as their JSON. */
  function Render(conv: Conversions, v: Field): string {
    match v
    case Null => "null"
    case Str(s) => s
    case Num(n) => conv.numberToString(n)
    case Bool(b) => if b then "true" else "false"
    case Obj(json) => json
  }

  /** The entries of a record whose key is not in `drop`, values rendered, in order. */
  function LabelsWithout(conv: Conversions, r: Record, drop: set<string>): (ls: Labels)
    ensures forall i :: 0 <= i < |ls| ==> ls[i].0 !in drop
    ensures forall k :: k in Keys(ls) <==> k in Keys(r) && k !in drop
    ensures forall k, v :: (k, v) in r && k !in drop ==> (k, Render(conv, v)) in ls
    ensures |ls| <= |r|
  {
    if r == [] then []
    else
      var rest := LabelsWithout(conv, r[..|r| - 1], drop);
      var (k, v) := r[|r| - 1];
      assert forall x :: x in r <==> x in r[..|r| - 1] || x == r[|r| - 1];
      assert forall x :: x in Keys(r) <==> x in Keys(r[..|r| - 1]) || x == k by {
        forall x ensures x in Keys(r) <==> x in Keys(r[..|r| - 1]) || x == k {
          if x in Keys(r) {
            var i :| 0 <= i < |r| && r[i].0 == x;
            if i < |r| - 1 { assert r[..|r| - 1][i].0 == x; }
          }
          if x in Keys(r[..|r| - 1]) {
            var i :| 0 <= i < |r| - 1 && r[..|r| - 1][i].0 == x;
            assert r[i].0 == x;
          }
          if x == k { assert r[|r| - 1].0 == x; }
        }
      }
      if k !in drop then
        var ls := rest + [(k, Render(conv, v))];
        assert forall x :: x in Keys(ls) <==> x in Keys(rest) || x == k by {
          forall x ensures x in Keys(ls) <==> x in Keys(rest) || x == k {
            if x in Keys(ls) {
              var i :| 0 <= i < |ls| && ls[i].0 == x;
              if i < |rest| { assert rest[i].0 == x; }
            }
            if x in Keys(rest) {
              var i :| 0 <= i < |rest| && rest[i].0 == x;
              assert ls[i].0 == x;
            }
            if x == k { assert ls[|rest|].0 == x; }
          }
        }
        ls
      else rest
  }

  /** The entry of one result: its time in seconds, its `_raw` text or else its JSON, and every
      other field as a label. */
  function EntryOf(conv: Conversions, r: Record): (e: LogEntry)
    ensures e.timestamp == Seconds(conv.dateSeconds(Lookup(r, "_time")))
    ensures Truthy(Lookup(r, "_raw")) ==> e.line == Render(conv, Lookup(r, "_raw").value)
    ensures !Truthy(Lookup(r, "_raw")) ==> e.line == conv.stringify(r)
    ensures e.labels.Some? && forall k :: k in Keys(e.labels.value) <==> k in Keys(r) && k != "_time" && k != "_raw"
  {
    var raw := Lookup(r, "_raw");
    LogEntry(Seconds(conv.dateSeconds(Lookup(r, "_time"))),
             if Truthy(raw) then Render(conv, raw.value) else conv.stringify(r),
             Some(LabelsWithout(conv, r, {"_time", "_raw"})))
  }

  /** convertResultsToLogs: one entry per result, in order, and their count. */
  function ConvertResultsToLogs(conv: Conversions, results: Results): (logs: LogsData)
    ensures Mapped(AsArray(results), logs.entries, r => EntryOf(conv, r))
    ensures logs.totalCount == |logs.entries| == |AsArray(results)|
  {
    var rs := AsArray(results);
    LogsData(seq(|rs|, i requires 0 <= i < |rs| => EntryOf(conv, rs[i])), |rs|)
  }

  /** The entry of one index: the time of the query, the index name, and its other fields. */
  function IndexEntry(conv: Conversions, nowSeconds: real, index: Record): (e: LogEntry)
    ensures e.timestamp == Seconds(nowSeconds)
    ensures Lookup(index, "name").Some? ==> e.line == Render(conv, Lookup(index, "name").value)
    ensures e.labels.Some? && forall k :: k in Keys(e.labels.value) <==> k in Keys(index) && k != "name"
  {
    var name := Lookup(index, "name");
    LogEntry(Seconds(nowSeconds), if name.Some? then Render(conv, name.value) else "",
             Some(LabelsWithout(conv, index, {"name"})))
  }

  /** Where a log query is sent. */
  datatype Route = ExportRoute | IndexesRoute | JobRoute

  /** An export search when an allowed endpoint is an export one or the datasource is reached
      directly; else the index list when an allowed endpoint is the index one; else a search job. */
  function RouteOf(endpoints: seq<Option<string>>, directUrl: bool): (r: Route)
    ensures r == ExportRoute <==> HasEndpoint(endpoints, "/export") || directUrl
    ensures r == IndexesRoute <==> !HasEndpoint(endpoints, "/export") && !directUrl && HasEndpoint(endpoints, "/indexes")
  {
    if HasEndpoint(endpoints, "/export") || directUrl then ExportRoute
    else if HasEndpoint(endpoints, "/indexes") || directUrl then IndexesRoute
    else JobRoute
  }

  /** The `directUrl` test of the index branch never decides anything: a direct datasource has
      already taken the export branch. */
  lemma DirectNeverListsIndexes(endpoints: seq<Option<string>>)
    ensures RouteOf(endpoints, true) == ExportRoute
  {
  }

  /** A Splunk log query: the search, and the time bounds that override the window's. */
  datatype QuerySpec = QuerySpec(query: Option<string>, earliest: Option<string>, latest: Option<string>)

  datatype LogResult = LogResult(logs: LogsData, startMs: int, endMs: int, executedQuery: Option<string>)

  /** getSplunkLogData: an empty query gives no logs and sends nothing; otherwise the query, after
      variable replacement, goes the route the datasource allows: the index list (every index an
      entry, or none without an `entry` list), or an export or job search whose results are
      converted. Polling for the job is left out: the job's results are read as if it were done. */
  function GetSplunkLogData(conv: Conversions, spec: QuerySpec, startMs: int, endMs: int, nowSeconds: real,
                            replaceVariables: string -> string, endpoints: seq<Option<string>>, directUrl: bool,
                            server: Server): (r: LogResult)
    ensures r.startMs == startMs && r.endMs == endMs
    ensures !Given(spec.query) ==> r.logs == LogsData([], 0) && r.executedQuery.None?
    ensures Given(spec.query) ==> r.executedQuery == Some(replaceVariables(spec.query.value))
    ensures r.logs.totalCount == |r.logs.entries|
    ensures Given(spec.query) && RouteOf(endpoints, directUrl) == IndexesRoute ==>
      (server.indexes.None? ==> r.logs.entries == [])
      && (server.indexes.Some? ==> Mapped(server.indexes.value, r.logs.entries, i => IndexEntry(conv, nowSeconds, i)))
    ensures Given(spec.query) && RouteOf(endpoints, directUrl) == ExportRoute ==>
      var search := ExportSearch(replaceVariables(spec.query.value), Some(TimeBound(spec.earliest, startMs)),
                                 Some(TimeBound(spec.latest, endMs)), None);
      r.logs == ConvertResultsToLogs(conv, server.results(search))
    ensures Given(spec.query) && RouteOf(endpoints, directUrl) == JobRoute ==>
      var job := CreateJob(replaceVariables(spec.query.value), Some(TimeBound(spec.earliest, startMs)),
                           Some(TimeBound(spec.latest, endMs)), None);
      r.logs == ConvertResultsToLogs(conv, server.results(JobResults(server.jobId(job), None, None, None)))
  {
    if !Given(spec.query) then LogResult(LogsData([], 0), startMs, endMs, None)
    else
      var q := replaceVariables(spec.query.value);
      var earliest, latest := TimeBound(spec.earliest, startMs), TimeBound(spec.latest, endMs);
      match RouteOf(endpoints, directUrl)
      case ExportRoute =>
        var results := server.results(ExportSearch(q, Some(earliest), Some(latest), None));
        LogResult(ConvertResultsToLogs(conv, results), startMs, endMs, Some(q))
      case IndexesRoute =>
        var indexes := server.indexes.GetOr([]);
        var entries := seq(|indexes|, i requires 0 <= i < |indexes| => IndexEntry(conv, nowSeconds, indexes[i]));
        LogResult(LogsData(entries, |entries|), startMs, endMs, Some(q))
      case JobRoute =>
        var job := CreateJob(q, Some(earliest), Some(latest), None);
        var results := server.results(JobResults(server.jobId(job), None, None, None));
        LogResult(ConvertResultsToLogs(conv, results), startMs, endMs, Some(q))
  }
}
