/** The Loki query-range response shapes shared by the Loki query plugins. */
module LokiTypes {
  import opened Base
  import opened PersesCore

  /** One stream: its labels and its `[timestamp, line]` values, the timestamp a count of nanoseconds. */
  datatype StreamResult = StreamResult(stream: Labels, values: seq<(nat, string)>)

  /** One matrix series: its metric labels and its `[seconds, value]` samples, the value still a string. */
  datatype MatrixResult = MatrixResult(metric: Labels, values: seq<(real, string)>)

  /** `response.data`, told apart by its `resultType`. */
  datatype ResponseData = Streams(streams: seq<StreamResult>) | Matrix(matrix: seq<MatrixResult>) | OtherResult(resultType: string)

  /** `Number(s)` of a sample value; `None` is `NaN`. */
  type NumberParser = string -> Option<real>

  const NanosPerSecond: real := 1000000000.0

  /** The log entry made of one stream value. */
  function StreamEntry(s: StreamResult, v: (nat, string)): LogEntry {
    LogEntry(Seconds(v.0 as real / NanosPerSecond), v.1, Some(s.stream))
  }

  /** The log entries of one stream, in value order. */
  function StreamLogs(s: StreamResult): (r: seq<LogEntry>)
    ensures |r| == |s.values|
    ensures forall j :: 0 <= j < |s.values| ==> r[j] == StreamEntry(s, s.values[j])
  {
    seq(|s.values|, j requires 0 <= j < |s.values| => StreamEntry(s, s.values[j]))
  }

  /** The log entries of all streams, stream by stream. */
  function StreamsLogs(streams: seq<StreamResult>): seq<LogEntry>
  {
    if streams == [] then [] else StreamsLogs(streams[..|streams| - 1]) + StreamLogs(streams[|streams| - 1])
  }

  /** The total number of values over all streams. */
  function ValueCount(streams: seq<StreamResult>): nat
  {
    if streams == [] then 0 else ValueCount(streams[..|streams| - 1]) + |streams[|streams| - 1].values|
  }

  /** There is one entry per stream value. */
  lemma {:induction false} StreamsLogsCount(streams: seq<StreamResult>)
    ensures |StreamsLogs(streams)| == ValueCount(streams)
  {
    if streams != [] {
      StreamsLogsCount(streams[..|streams| - 1]);
    }
  }

  /** Value `j` of stream `i` becomes the entry at the number of values before stream `i`, plus `j`,
      and carries the labels of stream `i`. */
  lemma {:induction false} StreamsLogsAt(streams: seq<StreamResult>, i: nat, j: nat)
    requires i < |streams| && j < |streams[i].values|
    ensures ValueCount(streams[..i]) + j < |StreamsLogs(streams)|
    ensures StreamsLogs(streams)[ValueCount(streams[..i]) + j] == StreamEntry(streams[i], streams[i].values[j])
    ensures StreamsLogs(streams)[ValueCount(streams[..i]) + j].labels == Some(streams[i].stream)
    decreases |streams|
  {
    var init := streams[..|streams| - 1];
    StreamsLogsCount(init);
    if i == |streams| - 1 {
      assert streams[..i] == init;
    } else {
      assert init[..i] == streams[..i];
      StreamsLogsAt(init, i, j);
    }
  }

  lemma StreamsLogsAppend(streams: seq<StreamResult>, s: StreamResult)
    ensures StreamsLogs(streams + [s]) == StreamsLogs(streams) + StreamLogs(s)
  {
    assert (streams + [s])[..|streams|] == streams;
  }

  /** `${k}=${v}` */
  function MetricPair(kv: (string, string)): string {
    kv.0 + "=" + kv.1
  }

  /** A matrix series' name: its `k=v` pairs in entry order, joined by `, `. */
  function MetricName(metric: Labels): (r: string)
    ensures metric == [] ==> r == ""
    ensures |metric| == 1 ==> r == metric[0].0 + "=" + metric[0].1
  {
    Join(seq(|metric|, i requires 0 <= i < |metric| => MetricPair(metric[i])), ", ")
  }

  /** One more label adds `, k=v` to the end of the name. */
  lemma MetricNameAppend(metric: Labels, kv: (string, string))
    requires metric != []
    ensures MetricName(metric + [kv]) == MetricName(metric) + ", " + MetricPair(kv)
  {
    var ls := metric + [kv];
    var parts := seq(|ls|, i requires 0 <= i < |ls| => MetricPair(ls[i]));
    assert parts[..|parts| - 1] == seq(|metric|, i requires 0 <= i < |metric| => MetricPair(metric[i]));
  }
}
