/** The Loki time-series query: a matrix answer becomes series, a streams answer becomes logs. */
module LokiData {
  import opened Base
  import opened PersesCore
  import opened LokiTypes
  import LokiLogData

  /** The series made of one matrix result: named by its labels, one point per sample. */
  function MatrixSeries(number: NumberParser, m: MatrixResult): (s: TimeSeries)
    ensures s.name == MetricName(m.metric) && s.labels == Some(m.metric)
    ensures |s.values| == |m.values|
    ensures forall j :: 0 <= j < |m.values| ==> s.values[j] == (m.values[j].0, number(m.values[j].1))
  {
    TimeSeries(MetricName(m.metric),
               seq(|m.values|, j requires 0 <= j < |m.values| => (m.values[j].0, number(m.values[j].1))),
               Some(m.metric))
  }

  /** convertMatrixToTimeSeries: one series per matrix result, in order. */
  function ConvertMatrixToTimeSeries(number: NumberParser, matrix: seq<MatrixResult>): (r: seq<TimeSeries>)
    ensures |r| == |matrix|
    ensures forall i :: 0 <= i < |matrix| ==> r[i] == MatrixSeries(number, matrix[i])
  {
    seq(|matrix|, i requires 0 <= i < |matrix| => MatrixSeries(number, matrix[i]))
  }

  datatype TimeSeriesResult = TimeSeriesResult(series: seq<TimeSeries>, logs: Option<LogsData>,
                                               resultType: string, executedQuery: Option<string>)

  /** getLokiData: a missing or empty query gives no series of type `matrix`; a matrix answer gives
      its series, a streams answer no series and its logs, anything else an empty matrix. */
  method GetLokiData(number: NumberParser, query: Option<string>, interpolate: string -> string,
                     queryRange: string -> ResponseData)
    returns (r: TimeSeriesResult)
    ensures query.None? || query.value == "" ==> r == TimeSeriesResult([], None, "matrix", None)
    ensures query.Some? && query.value != "" ==>
      match queryRange(interpolate(query.value))
      case Matrix(matrix) =>
        r == TimeSeriesResult(ConvertMatrixToTimeSeries(number, matrix), None, "matrix", Some(interpolate(query.value)))
      case Streams(streams) =>
        r == TimeSeriesResult([], Some(LogsData(StreamsLogs(streams), ValueCount(streams))), "streams",
                              Some(interpolate(query.value)))
      case OtherResult(_) => r == TimeSeriesResult([], None, "matrix", None)
  {
    if query.None? || query.value == "" {
      return TimeSeriesResult([], None, "matrix", None);
    }
    var q := interpolate(query.value);
    var response := queryRange(q);
    if response.Matrix? {
      return TimeSeriesResult(ConvertMatrixToTimeSeries(number, response.matrix), None, "matrix", Some(q));
    }
    if response.Streams? {
      var logs := LokiLogData.ConvertStreamsToLogs(response.streams);
      return TimeSeriesResult([], Some(logs), "streams", Some(q));
    }
    return TimeSeriesResult([], None, "matrix", None);
  }
}
