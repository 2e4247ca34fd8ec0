/** The InfluxDB datasource client of the browser plugin: the read-only query guard, and which
    query functions a client gets for each version and what each sends. */
module InfluxDBDatasource {
  import opened Base

  /** The keywords a write statement starts with. */
  const WriteKeywords: seq<string> := ["INSERT", "WRITE", "DELETE", "DROP", "ALTER", "CREATE", "TRUNCATE", "UPDATE"]

  /** Case-insensitive equality of characters for an ASCII upper-case letter `k`, as a
      non-Unicode `/i` regular expression compares them. */
  predicate SameLetter(c: char, k: char) {
    c == k || c == LowerChar(k)
  }

  /** `/^\s*KEYWORD\s/i` on a trimmed query: the keyword in any case, then a white-space character. */
  predicate StartsWithKeyword(q: string, kw: string) {
    |kw| < |q| && (forall i :: 0 <= i < |kw| ==> SameLetter(q[i], kw[i])) && IsWhitespace(q[|kw|])
  }

  /** A query is a write statement when its trimmed text starts with some write keyword. */
  predicate IsWrite(query: string) {
    exists i :: 0 <= i < |WriteKeywords| && StartsWithKeyword(Trim(query), WriteKeywords[i])
  }

  /** `s.toUpperCase()` on ASCII letters. */
  function Upper(s: string): (r: string)
    ensures |r| == |s|
  {
    seq(|s|, i requires 0 <= i < |s| => UpperChar(s[i]))
  }

  /** The error thrown for a write statement, naming its first space-separated word. */
  function WriteError(trimmed: string): string {
    var first := Upper(Split(trimmed, ' ')[0]);
    var word := if first != "" then first else "UNKNOWN";
    "Write operations are not allowed. Query cannot start with: " + word + ". "
      + "Only read-only queries (SELECT, SHOW, etc.) are permitted."
  }

  /** validateReadOnlyQuery: tries each write pattern in order on the trimmed query and throws on the
      first that matches; `None` when none does. */
  method ValidateReadOnlyQuery(query: string) returns (err: Option<string>)
    ensures err.None? <==> !IsWrite(query)
    ensures err.Some? ==> err.value == WriteError(Trim(query))
  {
    var trimmed := Trim(query);
    for i := 0 to |WriteKeywords|
      invariant forall j :: 0 <= j < i ==> !StartsWithKeyword(trimmed, WriteKeywords[j])
    {
      if StartsWithKeyword(trimmed, WriteKeywords[i]) {
        return Some(WriteError(trimmed));
      }
    }
    return None;
  }

  /** Read statements pass: a trimmed query whose first letter is `s` or `S` (as SELECT and SHOW
      are) starts with no write keyword, since none of them begins with that letter. */
  lemma ReadStatementsPass(query: string)
    requires Trim(query) != [] && (Trim(query)[0] == 'S' || Trim(query)[0] == 's')
    ensures !IsWrite(query)
  {
    var t := Trim(query);
    forall i | 0 <= i < |WriteKeywords| ensures !StartsWithKeyword(t, WriteKeywords[i]) {
      var kw := WriteKeywords[i];
      assert kw[0] != 'S';
      assert !SameLetter(t[0], kw[0]);
    }
  }

  /** A write statement is rejected whatever its case and the white space around it. */
  lemma WriteStatementRejected(query: string, k: nat)
    requires k < |WriteKeywords|
    requires StartsWithKeyword(Trim(query), WriteKeywords[k])
    ensures IsWrite(query)
  {
  }

  /** The datasource spec as the browser sees it. */
  datatype InfluxSpec = InfluxSpec(version: string, directUrl: Option<string>, database: Option<string>,
                                   organization: Option<string>, bucket: Option<string>)

  /** The query functions a client may carry. */
  datatype QueryFunction = QueryV1 | QueryV3SQL | QueryV3Flux

  datatype Client = Client(datasourceUrl: string, functions: set<QueryFunction>)

  /** JavaScript truthiness of an optional string. */
  predicate Filled(s: Option<string>) {
    s.Some? && s.value != ""
  }

  /** createClient: the direct URL when the spec has one (even an empty one), else the proxy URL; no
      URL, or an empty one, is an error. A version-1 client can only run InfluxQL queries, a
      version-3 client SQL and Flux queries, and a client of any other version none. */
  function CreateClient(spec: InfluxSpec, proxyUrl: Option<string>): (r: Result<Client>)
    ensures r.Err? <==> !(if spec.directUrl.Some? then spec.directUrl.value != "" else Filled(proxyUrl))
    ensures r.Err? ==> r.msg == "No URL specified for InfluxDB client"
    ensures r.Ok? ==> r.value.datasourceUrl == (if spec.directUrl.Some? then spec.directUrl.value else proxyUrl.value)
    ensures r.Ok? && spec.version == "v1" ==> r.value.functions == {QueryV1}
    ensures r.Ok? && spec.version == "v3" ==> r.value.functions == {QueryV3SQL, QueryV3Flux}
    ensures r.Ok? && spec.version != "v1" && spec.version != "v3" ==> r.value.functions == {}
  {
    var url := if spec.directUrl.Some? then spec.directUrl else proxyUrl;
    if !Filled(url) then Err("No URL specified for InfluxDB client")
    else
      var functions := if spec.version == "v1" then {QueryV1}
                       else if spec.version == "v3" then {QueryV3SQL, QueryV3Flux}
                       else {};
      Ok(Client(url.value, functions))
  }

  /** The direct URL wins over the proxy URL whenever it is filled. */
  lemma DirectUrlFirst(spec: InfluxSpec, proxyUrl: Option<string>)
    requires Filled(spec.directUrl)
    ensures CreateClient(spec, proxyUrl).Ok? && CreateClient(spec, proxyUrl).value.datasourceUrl == spec.directUrl.value
  {
  }

  /** An empty direct URL is not replaced by the proxy URL: `??` only skips an absent value. */
  lemma EmptyDirectUrlFails(spec: InfluxSpec, proxyUrl: Option<string>)
    requires spec.directUrl == Some("")
    ensures CreateClient(spec, proxyUrl).Err?
  {
  }

  /** A request: method, path resolved against the datasource URL, URL parameters and body. */
  datatype Body = NoBody | SqlBody(query: string) | FluxForm(org: string, query: string)
  datatype Request = Request(post: bool, path: string, base: string, params: seq<(string, string)>, body: Body)

  /** queryV1: needs a database from the call or the spec; the call's wins. */
  function QueryV1Request(spec: InfluxSpec, datasourceUrl: string, query: string, database: string): (r: Result<Request>)
    ensures r.Err? <==> !Filled(spec.database) && database == ""
    ensures r.Ok? ==> !r.value.post && r.value.path == "/query" && r.value.base == datasourceUrl
    ensures r.Ok? ==> r.value.params == [("db", if database != "" then database else spec.database.value), ("q", query)]
  {
    if !Filled(spec.database) && database == "" then Err("Database is required for InfluxDB v1")
    else Ok(Request(false, "/query", datasourceUrl,
                    [("db", if database != "" then database else spec.database.value), ("q", query)], NoBody))
  }

  /** queryV3SQL: the read-only guard, then a POST of the query as JSON. */
  method QueryV3SQLRequest(datasourceUrl: string, query: string) returns (r: Result<Request>)
    ensures r.Err? <==> IsWrite(query)
    ensures r.Err? ==> r.msg == WriteError(Trim(query))
    ensures r.Ok? ==> r.value == Request(true, "/api/v2/query", datasourceUrl, [], SqlBody(query))
  {
    var err := ValidateReadOnlyQuery(query);
    if err.Some? {
      return Err(err.value);
    }
    return Ok(Request(true, "/api/v2/query", datasourceUrl, [], SqlBody(query)));
  }

  /** queryV3Flux: the organization check first, then the read-only guard, then a POST of the
      organization and query as a form. */
  method QueryV3FluxRequest(spec: InfluxSpec, datasourceUrl: string, query: string) returns (r: Result<Request>)
    ensures !Filled(spec.organization) ==> r == Err("Organization is required for InfluxDB v3 Flux")
    ensures Filled(spec.organization) ==> (r.Err? <==> IsWrite(query))
    ensures Filled(spec.organization) && r.Err? ==> r.msg == WriteError(Trim(query))
    ensures r.Ok? ==> r.value == Request(true, "/api/v2/query", datasourceUrl, [], FluxForm(spec.organization.value, query))
  {
    if !Filled(spec.organization) {
      return Err("Organization is required for InfluxDB v3 Flux");
    }
    var err := ValidateReadOnlyQuery(query);
    if err.Some? {
      return Err(err.value);
    }
    return Ok(Request(true, "/api/v2/query", datasourceUrl, [], FluxForm(spec.organization.value, query)));
  }
}
