/** The Loki log query: flattening the streams of a response into log entries. */
module LokiLogData {
  import opened Base
  import opened PersesCore
  import opened LokiTypes

  /** convertStreamsToLogs: every stream value becomes one entry, stream by stream and in
      value order, carrying its stream's labels; the count is the number of entries. */
  method ConvertStreamsToLogs(streams: seq<StreamResult>) returns (logs: LogsData)
    ensures logs.entries == StreamsLogs(streams)
    ensures logs.totalCount == |logs.entries| == ValueCount(streams)
  {
    var entries: seq<LogEntry> := [];
    for i := 0 to |streams|
      invariant entries == StreamsLogs(streams[..i])
    {
      var stream := streams[i];
      ghost var before := entries;
      for j := 0 to |stream.values|
        invariant entries == before + StreamLogs(stream)[..j]
      {
        entries := entries + [StreamEntry(stream, stream.values[j])];
        assert StreamLogs(stream)[..j + 1] == StreamLogs(stream)[..j] + [StreamLogs(stream)[j]];
      }
      assert StreamLogs(stream)[..|stream.values|] == StreamLogs(stream);
      assert streams[..i + 1] == streams[..i] + [stream];
      StreamsLogsAppend(streams[..i], stream);
    }
    assert streams[..|streams|] == streams;
    StreamsLogsCount(streams);
    logs := LogsData(entries, |entries|);
  }

  datatype LogQueryResult = LogQueryResult(logs: LogsData, executedQuery: Option<string>)

  const NoLogs := LogsData([], 0)

  /** getLokiLogData: a missing or empty query gives no logs and sends nothing; otherwise the
      interpolated query is sent and a streams answer is flattened, any other answer gives no logs.
      `interpolate` stands for variable replacement, `queryRange` for the client call. */
  method GetLokiLogData(query: Option<string>, interpolate: string -> string, queryRange: string -> ResponseData)
    returns (r: LogQueryResult)
    ensures query.None? || query.value == "" ==> r == LogQueryResult(NoLogs, None)
    ensures query.Some? && query.value != "" ==>
      match queryRange(interpolate(query.value))
      case Streams(streams) =>
        r.logs == LogsData(StreamsLogs(streams), ValueCount(streams)) && r.executedQuery == Some(interpolate(query.value))
      case _ => r == LogQueryResult(NoLogs, None)
  {
    if query.None? || query.value == "" {
      return LogQueryResult(NoLogs, None);
    }
    var q := interpolate(query.value);
    var response := queryRange(q);
    if response.Streams? {
      var logs := ConvertStreamsToLogs(response.streams);
      return LogQueryResult(logs, Some(q));
    }
    return LogQueryResult(NoLogs, None);
  }
}
