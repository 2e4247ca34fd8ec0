/** The Loki table query: any answer is turned into a matrix, log lines one sample each,
    and the matrix into series that keep their non-numeric samples as log lines. */
module LokiTimeSeries {
  import opened Base
  import opened PersesCore
  import opened LokiTypes

  /** The matrix result made of one stream value: the stream's labels and a single sample. */
  function LineResult(s: StreamResult, v: (nat, string)): MatrixResult {
    MatrixResult(s.stream, [(v.0 as real / NanosPerSecond, v.1)])
  }

  /** The matrix results of all streams, one per value, stream by stream. */
  function FlatResults(streams: seq<StreamResult>): seq<MatrixResult>
  {
    if streams == [] then []
    else
      var s := streams[|streams| - 1];
      FlatResults(streams[..|streams| - 1])
        + seq(|s.values|, j requires 0 <= j < |s.values| => LineResult(s, s.values[j]))
  }

  /** One matrix result per stream value. */
  lemma {:induction false} FlatResultsCount(streams: seq<StreamResult>)
    ensures |FlatResults(streams)| == ValueCount(streams)
  {
    if streams != [] {
      FlatResultsCount(streams[..|streams| - 1]);
    }
  }

  /** Every flattened result carries the labels of some stream and exactly one sample. */
  lemma {:induction false} FlatResultsShape(streams: seq<StreamResult>)
    ensures forall k :: 0 <= k < |FlatResults(streams)| ==>
      |FlatResults(streams)[k].values| == 1
      && exists i :: 0 <= i < |streams| && FlatResults(streams)[k].metric == streams[i].stream
  {
    if streams != [] {
      var init := streams[..|streams| - 1];
      FlatResultsShape(init);
      var flat := FlatResults(streams);
      forall k | 0 <= k < |flat|
        ensures |flat[k].values| == 1 && exists i :: 0 <= i < |streams| && flat[k].metric == streams[i].stream
      {
        if k < |FlatResults(init)| {
          assert flat[k] == FlatResults(init)[k];
          var i :| 0 <= i < |init| && flat[k].metric == init[i].stream;
          assert streams[i] == init[i];
        } else {
          assert flat[k].metric == streams[|streams| - 1].stream;
        }
      }
    }
  }

  /** convertLokiToMatrix: a matrix passes through, streams are flattened, anything else is empty. */
  method ConvertLokiToMatrix(data: ResponseData) returns (result: seq<MatrixResult>)
    ensures data.Matrix? ==> result == data.matrix
    ensures data.Streams? ==> result == FlatResults(data.streams)
    ensures data.OtherResult? ==> result == []
  {
    if data.Matrix? {
      return data.matrix;
    }
    if data.Streams? {
      var streams := data.streams;
      var flat: seq<MatrixResult> := [];
      for i := 0 to |streams|
        invariant flat == FlatResults(streams[..i])
      {
        var s := streams[i];
        ghost var before := flat;
        for j := 0 to |s.values|
          invariant flat == before + seq(j, k requires 0 <= k < j => LineResult(s, s.values[k]))
        {
          flat := flat + [LineResult(s, s.values[j])];
        }
        assert streams[..i + 1][..i] == streams[..i];
      }
      assert streams[..|streams|] == streams;
      return flat;
    }
    return [];
  }

  /** A series of the table query: points with `null` for non-numeric samples, and those samples as log lines. */
  datatype LokiSeries = LokiSeries(name: string, values: seq<Point>, logLines: seq<(real, string)>, labels: Labels)

  /** A sample as a point: milliseconds, and the number or `null`. */
  function SamplePoint(number: NumberParser, v: (real, string)): Point {
    (v.0 * 1000.0, number(v.1))
  }

  /** The non-numeric samples as `{timestamp, log}`, in order. */
  function LogLines(number: NumberParser, values: seq<(real, string)>): seq<(real, string)>
  {
    if values == [] then []
    else
      var v := values[|values| - 1];
      LogLines(number, values[..|values| - 1]) + (if number(v.1).None? then [(v.0 * 1000.0, v.1)] else [])
  }

  /** The number of `null` points. */
  function NullCount(points: seq<Point>): nat
  {
    if points == [] then 0 else NullCount(points[..|points| - 1]) + (if points[|points| - 1].1.None? then 1 else 0)
  }

  function SamplePoints(number: NumberParser, values: seq<(real, string)>): (r: seq<Point>)
    ensures |r| == |values|
    ensures forall j :: 0 <= j < |values| ==> r[j] == SamplePoint(number, values[j])
  {
    seq(|values|, j requires 0 <= j < |values| => SamplePoint(number, values[j]))
  }

  /** There is one log line per `null` point, and each log line is a sample whose text is not a number. */
  lemma {:induction false} LogLinesAreNullSamples(number: NumberParser, values: seq<(real, string)>)
    ensures |LogLines(number, values)| == NullCount(SamplePoints(number, values))
    ensures forall k :: 0 <= k < |LogLines(number, values)| ==>
      number(LogLines(number, values)[k].1).None?
      && exists j :: 0 <= j < |values| && LogLines(number, values)[k] == (values[j].0 * 1000.0, values[j].1)
  {
    if values != [] {
      var init := values[..|values| - 1];
      LogLinesAreNullSamples(number, init);
      assert SamplePoints(number, values)[..|values| - 1] == SamplePoints(number, init);
      var ll := LogLines(number, values);
      forall k | 0 <= k < |ll|
        ensures number(ll[k].1).None? && exists j :: 0 <= j < |values| && ll[k] == (values[j].0 * 1000.0, values[j].1)
      {
        if k < |LogLines(number, init)| {
          assert ll[k] == LogLines(number, init)[k];
          var j :| 0 <= j < |init| && ll[k] == (init[j].0 * 1000.0, init[j].1);
          assert values[j] == init[j];
        } else {
          assert ll[k] == (values[|values| - 1].0 * 1000.0, values[|values| - 1].1);
        }
      }
    }
  }

  /** matrixToTimeSeries: one series per matrix result, named by its labels. */
  function MatrixToTimeSeries(number: NumberParser, matrix: seq<MatrixResult>): (r: seq<LokiSeries>)
    ensures |r| == |matrix|
    ensures forall i :: 0 <= i < |matrix| ==>
      r[i].name == MetricName(matrix[i].metric) && r[i].labels == matrix[i].metric
      && r[i].values == SamplePoints(number, matrix[i].values)
      && r[i].logLines == LogLines(number, matrix[i].values)
  {
    seq(|matrix|, i requires 0 <= i < |matrix| =>
      LokiSeries(MetricName(matrix[i].metric), SamplePoints(number, matrix[i].values),
                 LogLines(number, matrix[i].values), matrix[i].metric))
  }

  /** getTimeSeriesData: a missing or empty query gives no series; otherwise the answer to the
      interpolated query is converted to a matrix and then to series. */
  method GetTimeSeriesData(number: NumberParser, query: Option<string>, interpolate: string -> string,
                           queryRange: string -> ResponseData)
    returns (series: seq<LokiSeries>)
    ensures query.None? || query.value == "" ==> series == []
    ensures query.Some? && query.value != "" ==>
      match queryRange(interpolate(query.value))
      case Matrix(matrix) => series == MatrixToTimeSeries(number, matrix)
      case Streams(streams) => series == MatrixToTimeSeries(number, FlatResults(streams))
      case OtherResult(_) => series == []
  {
    if query.None? || query.value == "" {
      return [];
    }
    var response := queryRange(interpolate(query.value));
    var matrix := ConvertLokiToMatrix(response);
    series := MatrixToTimeSeries(number, matrix);
  }
}
