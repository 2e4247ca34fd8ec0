/** The request side of the Splunk REST client: where each call goes and which parameters it sends.
    Sending the request and reading the answer are not modelled, except for how the export answer's
    text is split into results. */
module SplunkClient {
  import opened Base

  /** A value in a Splunk answer object; `Obj` is a nested object or array, held as its JSON text. */
  datatype Field = Null | Str(s: string) | Num(n: real) | Bool(b: bool) | Obj(json: string)

  /** An answer object as its entries. */
  type Record = seq<(string, Field)>

  /** The `results` of an answer: a list, or a single object. */
  datatype Results = Many(items: seq<Record>) | One(item: Record)

  /** `Array.isArray(results) ? results : [results]` */
  function AsArray(results: Results): (rs: seq<Record>)
    ensures results.One? ==> rs == [results.item]
    ensures results.Many? ==> rs == results.items
  {
    match results
    case Many(items) => items
    case One(item) => [item]
  }

  /** What the Splunk server answers: the job id of a created job, the results of a search or job,
      and the `entry` list of the index answer if it has one. */
  datatype Server = Server(jobId: Call -> string, results: Call -> Results, indexes: Option<seq<Record>>)

  /** Some allowed endpoint pattern contains `fragment`; patterns may be absent. */
  predicate HasEndpoint(patterns: seq<Option<string>>, fragment: string) {
    exists i :: 0 <= i < |patterns| && patterns[i].Some? && Includes(patterns[i].value, fragment)
  }

  /** `Math.floor(ms / 1000)`: whole seconds, rounded down. */
  function FloorSeconds(ms: int): (s: int)
    ensures s * 1000 <= ms < (s + 1) * 1000
  {
    ms / 1000
  }

  /** A search's time bound: the one the query gives when not empty, else the window's, in whole seconds. */
  function TimeBound(given: Option<string>, ms: int): (r: string)
    ensures Given(given) ==> r == given.value
    ensures !Given(given) ==> r == IntToString(FloorSeconds(ms))
  {
    if Given(given) then given.value else IntToString(FloorSeconds(ms))
  }

  /** `new URL(reference, base)`: a reference to resolve against a base. */
  datatype UrlRef = UrlRef(reference: string, base: string)

  function DropLeadingSlash(s: string): string {
    if s != [] && s[0] == '/' then s[1..] else s
  }

  function DropTrailingSlash(s: string): string {
    if s != [] && s[|s| - 1] == '/' then s[..|s| - 1] else s
  }

  /** The relative join of buildUrl: exactly one `/` between the datasource URL and the path, when
      each has at most one at the seam. */
  function JoinPath(base: string, path: string): (r: string)
    ensures r == DropTrailingSlash(base) + "/" + DropLeadingSlash(path)
  {
    if base != [] && base[|base| - 1] == '/' && path != [] && path[0] == '/' then
      assert base == DropTrailingSlash(base) + "/";
      base + path[1..]
    else if !(base != [] && base[|base| - 1] == '/') && !(path != [] && path[0] == '/') then
      base + "/" + path
    else if base != [] && base[|base| - 1] == '/' then
      assert base == DropTrailingSlash(base) + "/";
      base + path
    else
      assert path == "/" + DropLeadingSlash(path);
      base + path
  }

  /** Joining keeps both sides: the datasource URL is a prefix and the path a suffix of the result. */
  lemma JoinPathKeepsParts(base: string, path: string)
    ensures StartsWith(JoinPath(base, path), DropTrailingSlash(base))
    ensures var r := JoinPath(base, path); var p := DropLeadingSlash(path);
      |p| < |r| && r[|r| - |p|..] == p && r[|r| - |p| - 1] == '/'
  {
    var r := JoinPath(base, path);
    var b, p := DropTrailingSlash(base), DropLeadingSlash(path);
    assert r == b + "/" + p;
    assert r[..|b|] == b;
    assert r[|r| - |p|..] == p;
  }

  predicate IsAbsoluteHttp(url: string) {
    StartsWith(url, "http://") || StartsWith(url, "https://")
  }

  /** buildUrl: an `http://` or `https://` datasource URL resolves the path against itself; any
      other is joined with the path and resolved against the page origin. */
  function BuildUrl(path: string, datasourceUrl: string, origin: string): (r: UrlRef)
    ensures IsAbsoluteHttp(datasourceUrl) ==> r.reference == path && r.base == datasourceUrl
    ensures !IsAbsoluteHttp(datasourceUrl) ==>
      r.base == origin && r.reference == DropTrailingSlash(datasourceUrl) + "/" + DropLeadingSlash(path)
  {
    if IsAbsoluteHttp(datasourceUrl) then UrlRef(path, datasourceUrl)
    else UrlRef(JoinPath(datasourceUrl, path), origin)
  }

  /** A string parameter counts when it is present and not empty. */
  predicate Given(s: Option<string>) {
    s.Some? && s.value != ""
  }

  /** `params.output_mode || 'json'` */
  function OutputMode(mode: Option<string>): (r: string)
    ensures r != ""
    ensures Given(mode) ==> r == mode.value
  {
    if Given(mode) then mode.value else "json"
  }

  /** The form of createJob and exportSearch: the search, then the time bounds that are given, then
      the output mode. */
  function SearchForm(search: string, earliest: Option<string>, latest: Option<string>, outputMode: Option<string>)
    : (form: seq<(string, string)>)
    ensures |form| == 2 + (if Given(earliest) then 1 else 0) + (if Given(latest) then 1 else 0)
    ensures form[0] == ("search", search)
    ensures form[|form| - 1] == ("output_mode", OutputMode(outputMode))
    ensures Given(earliest) ==> form[1] == ("earliest_time", earliest.value)
    ensures forall i :: 0 <= i < |form| && form[i].0 == "earliest_time" ==> Given(earliest)
    ensures forall i :: 0 <= i < |form| && form[i].0 == "latest_time" ==> Given(latest) && form[i].1 == latest.value
  {
    [("search", search)]
    + (if Given(earliest) then [("earliest_time", earliest.value)] else [])
    + (if Given(latest) then [("latest_time", latest.value)] else [])
    + [("output_mode", OutputMode(outputMode))]
  }

  /** The query of getJobResults and getJobEvents: the output mode, then `count` and `offset` when
      they are present and not zero. */
  function ResultsQuery(outputMode: Option<string>, count: Option<int>, offset: Option<int>): (q: seq<(string, string)>)
    ensures |q| >= 1 && q[0] == ("output_mode", OutputMode(outputMode))
    ensures (exists i :: 0 <= i < |q| && q[i].0 == "count") <==> count.Some? && count.value != 0
    ensures (exists i :: 0 <= i < |q| && q[i].0 == "offset") <==> offset.Some? && offset.value != 0
    ensures forall i :: 0 <= i < |q| && q[i].0 == "count" ==> q[i].1 == IntToString(count.value)
    ensures forall i :: 0 <= i < |q| && q[i].0 == "offset" ==> q[i].1 == IntToString(offset.value)
  {
    var q := [("output_mode", OutputMode(outputMode))]
      + (if count.Some? && count.value != 0 then [("count", IntToString(count.value))] else [])
      + (if offset.Some? && offset.value != 0 then [("offset", IntToString(offset.value))] else []);
    assert count.Some? && count.value != 0 ==> q[1].0 == "count";
    assert offset.Some? && offset.value != 0 ==> q[|q| - 1].0 == "offset";
    q
  }

  /** The calls of the client. */
  datatype Call =
    | CreateJob(search: string, earliest: Option<string>, latest: Option<string>, outputMode: Option<string>)
    | JobStatus(jobId: string)
    | JobResults(jobId: string, outputMode: Option<string>, count: Option<int>, offset: Option<int>)
    | JobEvents(jobId: string, outputMode: Option<string>, count: Option<int>, offset: Option<int>)
    | ExportSearch(search: string, earliest: Option<string>, latest: Option<string>, outputMode: Option<string>)
    | Indexes

  datatype Method = Get | Post

  /** A request: method, URL, query parameters appended to the URL and form fields in the body. */
  datatype Request = Request(verb: Method, url: UrlRef, query: seq<(string, string)>, form: seq<(string, string)>)

  /** The endpoint of each call. */
  function Endpoint(call: Call): string {
    match call
    case CreateJob(_, _, _, _) => "/services/search/v2/jobs"
    case JobStatus(id) => "/services/search/v2/jobs/" + id
    case JobResults(id, _, _, _) => "/services/search/v2/jobs/" + id + "/results"
    case JobEvents(id, _, _, _) => "/services/search/v2/jobs/" + id + "/events"
    case ExportSearch(_, _, _, _) => "/services/search/v2/jobs/export"
    case Indexes => "/services/data/indexes"
  }

  /** The request each client call sends: searches are POSTed as forms, the rest are GETs whose
      parameters go in the URL; every call asks for some output mode, `json` unless told otherwise. */
  function RequestOf(call: Call, datasourceUrl: string, origin: string): (r: Request)
    ensures r.url == BuildUrl(Endpoint(call), datasourceUrl, origin)
    ensures r.verb == Post <==> call.CreateJob? || call.ExportSearch?
    ensures r.verb == Post ==> r.query == [] && |r.form| >= 2 && r.form[0] == ("search", call.search)
    ensures r.verb == Get ==> r.form == [] && |r.query| >= 1 && r.query[0].0 == "output_mode"
    ensures (call.JobStatus? || call.Indexes?) ==> |r.query| >= 1 && r.query[0] == ("output_mode", "json")
    ensures call.Indexes? ==> r.query == [("output_mode", "json"), ("count", "0")]
  {
    var url := BuildUrl(Endpoint(call), datasourceUrl, origin);
    match call
    case CreateJob(s, e, l, m) => Request(Post, url, [], SearchForm(s, e, l, m))
    case JobStatus(_) => Request(Get, url, [("output_mode", "json")], [])
    case JobResults(_, m, c, o) => Request(Get, url, ResultsQuery(m, c, o), [])
    case JobEvents(_, m, c, o) => Request(Get, url, ResultsQuery(m, c, o), [])
    case ExportSearch(s, e, l, m) => Request(Post, url, [], SearchForm(s, e, l, m))
    case Indexes => Request(Get, url, [("output_mode", "json"), ("count", "0")], [])
  }

  /** The lines of a text that hold something besides white space. */
  function NonBlank(lines: seq<string>): (r: seq<string>)
    ensures forall l :: l in r <==> l in lines && Trim(l) != ""
    ensures |r| <= |lines|
  {
    if lines == [] then []
    else
      var rest := NonBlank(lines[..|lines| - 1]);
      assert forall l :: l in lines <==> l in lines[..|lines| - 1] || l == lines[|lines| - 1];
      if Trim(lines[|lines| - 1]) != "" then rest + [lines[|lines| - 1]] else rest
  }

  /** The results of an export answer: the trimmed text split at line feeds, blank lines dropped,
      and the `result` of each remaining line as `parse` reads it. */
  function ExportResults<R(==)>(text: string, parse: string -> R): (results: seq<R>)
    ensures Mapped(NonBlank(Split(Trim(text), '\n')), results, parse)
  {
    ParseAll(NonBlank(Split(Trim(text), '\n')), parse)
  }

  function ParseAll<R(==)>(lines: seq<string>, parse: string -> R): (results: seq<R>)
    ensures Mapped(lines, results, parse)
  {
    seq(|lines|, i requires 0 <= i < |lines| => parse(lines[i]))
  }

  /** A text whose lines are all filled gives one result per line. */
  lemma ExportOneResultPerLine<R>(lines: seq<string>, parse: string -> R)
    requires lines != []
    requires forall i :: 0 <= i < |lines| ==> '\n' !in lines[i] && Trim(lines[i]) != ""
    requires Trim(Join(lines, "\n")) == Join(lines, "\n")
    ensures Mapped(lines, ExportResults(Join(lines, "\n"), parse), parse)
  {
    SplitJoin(lines, '\n');
    assert Split(Join(lines, "\n"), '\n') == lines;
    NonBlankAll(lines);
  }

  lemma {:induction false} NonBlankAll(lines: seq<string>)
    requires forall i :: 0 <= i < |lines| ==> Trim(lines[i]) != ""
    ensures NonBlank(lines) == lines
  {
    if lines != [] {
      var init, last := lines[..|lines| - 1], lines[|lines| - 1];
      PrefixStep(lines, |lines| - 1);
      assert lines[..|lines|] == lines;
      NonBlankAll(init);
      NonBlankSnoc(init, last);
    }
  }

  /** A filled line added at the end of a text is kept. */
  lemma NonBlankSnoc(init: seq<string>, last: string)
    requires Trim(last) != ""
    ensures NonBlank(init + [last]) == NonBlank(init) + [last]
  {
    assert (init + [last])[..|init|] == init;
  }
}
