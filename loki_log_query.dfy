/** The Loki log query plugin: the choice of histogram interval for the log-volume query
    and the construction of that query. */
module LokiLogQuery {
  import opened Base

  const TargetHistogramBars: real := 40.0

  datatype Interval = Interval(ms: real, name: string)

  /** The standard round intervals, ascending. */
  const StandardIntervals: seq<Interval> := [
    Interval(1000.0, "1s"), Interval(2000.0, "2s"), Interval(5000.0, "5s"), Interval(10000.0, "10s"),
    Interval(15000.0, "15s"), Interval(30000.0, "30s"), Interval(60000.0, "1m"), Interval(120000.0, "2m"),
    Interval(300000.0, "5m"), Interval(600000.0, "10m"), Interval(900000.0, "15m"), Interval(1800000.0, "30m"),
    Interval(3600000.0, "1h"), Interval(7200000.0, "2h"), Interval(21600000.0, "6h"), Interval(43200000.0, "12h"),
    Interval(86400000.0, "1d"), Interval(604800000.0, "7d"), Interval(2592000000.0, "30d")
  ]

  function BarCount(timeRangeMs: real, k: nat): real
    requires k < |StandardIntervals|
  {
    timeRangeMs / StandardIntervals[k].ms
  }

  /** Interval `k` gives between 20 and 100 bars. */
  predicate Fits(timeRangeMs: real, k: nat)
    requires k < |StandardIntervals|
  {
    20.0 <= BarCount(timeRangeMs, k) <= 100.0
  }

  function Abs(x: real): real { if x < 0.0 then -x else x }

  function Distance(timeRangeMs: real, k: nat): real
    requires k < |StandardIntervals|
  {
    Abs(BarCount(timeRangeMs, k) - TargetHistogramBars)
  }

  /** The first interval from `k` on giving 20 to 100 bars, if any. */
  function FirstFitFrom(timeRangeMs: real, k: nat): (r: Option<nat>)
    requires k <= |StandardIntervals|
    ensures r.Some? ==> k <= r.value < |StandardIntervals|
    decreases |StandardIntervals| - k
  {
    if k == |StandardIntervals| then None
    else if Fits(timeRangeMs, k) then Some(k)
    else FirstFitFrom(timeRangeMs, k + 1)
  }

  /** The first of the intervals before `n` whose bar count is closest to 40. */
  function ClosestBefore(timeRangeMs: real, n: nat): (best: nat)
    requires 0 < n <= |StandardIntervals|
    ensures best < n
  {
    if n == 1 then 0
    else
      var best := ClosestBefore(timeRangeMs, n - 1);
      if Distance(timeRangeMs, n - 1) < Distance(timeRangeMs, best) then n - 1 else best
  }

  /** The volume interval of a time range, as calculateVolumeInterval chooses it. */
  function VolumeInterval(timeRangeMs: real): string {
    match FirstFitFrom(timeRangeMs, 0)
    case Some(k) => StandardIntervals[k].name
    case None => StandardIntervals[ClosestBefore(timeRangeMs, |StandardIntervals|)].name
  }

  /** The search from `k` finds the first fitting interval from `k` on, or reports that none fits. */
  lemma {:induction false} FirstFitFromSpec(timeRangeMs: real, k: nat)
    requires k <= |StandardIntervals|
    ensures var r := FirstFitFrom(timeRangeMs, k);
      (r.Some? ==> Fits(timeRangeMs, r.value) && forall j :: k <= j < r.value ==> !Fits(timeRangeMs, j))
      && (r.None? ==> forall j :: k <= j < |StandardIntervals| ==> !Fits(timeRangeMs, j))
    decreases |StandardIntervals| - k
  {
    if k < |StandardIntervals| && !Fits(timeRangeMs, k) {
      FirstFitFromSpec(timeRangeMs, k + 1);
    }
  }

  /** The closest interval before `n`: no interval before `n` is closer, and every earlier one is farther. */
  lemma {:induction false} ClosestBeforeSpec(timeRangeMs: real, n: nat)
    requires 0 < n <= |StandardIntervals|
    ensures var best := ClosestBefore(timeRangeMs, n);
      (forall j :: 0 <= j < n ==> Distance(timeRangeMs, best) <= Distance(timeRangeMs, j))
      && (forall j :: 0 <= j < best ==> Distance(timeRangeMs, best) < Distance(timeRangeMs, j))
  {
    if n > 1 {
      var prev := ClosestBefore(timeRangeMs, n - 1);
      ClosestBeforeSpec(timeRangeMs, n - 1);
      var best := ClosestBefore(timeRangeMs, n);
      var d := Distance(timeRangeMs, best);
      forall j | 0 <= j < n ensures d <= Distance(timeRangeMs, j) {
        if j < n - 1 {
          assert Distance(timeRangeMs, prev) <= Distance(timeRangeMs, j);
        }
      }
      forall j | 0 <= j < best ensures d < Distance(timeRangeMs, j) {
        if j < prev {
          assert Distance(timeRangeMs, prev) < Distance(timeRangeMs, j);
        } else {
          assert Distance(timeRangeMs, prev) <= Distance(timeRangeMs, j);
        }
      }
    }
  }

  /** The volume interval is the smallest interval giving 20 to 100 bars; failing that, the first
      interval whose bar count is closest to 40. */
  lemma VolumeIntervalSpec(timeRangeMs: real)
    ensures exists k :: 0 <= k < |StandardIntervals| && VolumeInterval(timeRangeMs) == StandardIntervals[k].name
    ensures forall k :: (0 <= k < |StandardIntervals| && Fits(timeRangeMs, k)
                          && (forall j :: 0 <= j < k ==> !Fits(timeRangeMs, j)))
                        ==> VolumeInterval(timeRangeMs) == StandardIntervals[k].name
    ensures (forall j :: 0 <= j < |StandardIntervals| ==> !Fits(timeRangeMs, j)) ==>
      exists k :: 0 <= k < |StandardIntervals| && VolumeInterval(timeRangeMs) == StandardIntervals[k].name
        && (forall j :: 0 <= j < |StandardIntervals| ==> Distance(timeRangeMs, k) <= Distance(timeRangeMs, j))
        && (forall j :: 0 <= j < k ==> Distance(timeRangeMs, k) < Distance(timeRangeMs, j))
  {
    var r := FirstFitFrom(timeRangeMs, 0);
    FirstFitFromSpec(timeRangeMs, 0);
    if r.Some? {
      var k := r.value;
      assert VolumeInterval(timeRangeMs) == StandardIntervals[k].name;
      forall k' | 0 <= k' < |StandardIntervals| && Fits(timeRangeMs, k') && (forall j :: 0 <= j < k' ==> !Fits(timeRangeMs, j))
        ensures VolumeInterval(timeRangeMs) == StandardIntervals[k'].name
      {
        assert !(k' < k) && !(k < k');
      }
    } else {
      var best := ClosestBefore(timeRangeMs, |StandardIntervals|);
      ClosestBeforeSpec(timeRangeMs, |StandardIntervals|);
      assert VolumeInterval(timeRangeMs) == StandardIntervals[best].name;
    }
  }

  /** calculateVolumeInterval: the smallest interval giving 20 to 100 bars; failing that,
      the first interval whose bar count is closest to 40. */
  method CalculateVolumeInterval(timeRangeMs: real) returns (name: string)
    ensures name == VolumeInterval(timeRangeMs)
    ensures exists k :: 0 <= k < |StandardIntervals| && name == StandardIntervals[k].name
    ensures forall k :: (0 <= k < |StandardIntervals| && Fits(timeRangeMs, k)
                          && (forall j :: 0 <= j < k ==> !Fits(timeRangeMs, j)))
                        ==> name == StandardIntervals[k].name
    ensures (forall j :: 0 <= j < |StandardIntervals| ==> !Fits(timeRangeMs, j)) ==>
      exists k :: 0 <= k < |StandardIntervals| && name == StandardIntervals[k].name
        && (forall j :: 0 <= j < |StandardIntervals| ==> Distance(timeRangeMs, k) <= Distance(timeRangeMs, j))
        && (forall j :: 0 <= j < k ==> Distance(timeRangeMs, k) < Distance(timeRangeMs, j))
  {
    VolumeIntervalSpec(timeRangeMs);
    var fit := FirstFitting(timeRangeMs);
    if fit.Some? {
      return StandardIntervals[fit.value].name;
    }
    var best := Closest(timeRangeMs);
    name := StandardIntervals[best].name;
  }

  /** The first loop of calculateVolumeInterval: the first interval giving 20 to 100 bars, if any. */
  method FirstFitting(timeRangeMs: real) returns (r: Option<nat>)
    ensures r.Some? ==> r.value < |StandardIntervals| && Fits(timeRangeMs, r.value)
    ensures r.Some? ==> forall j :: 0 <= j < r.value ==> !Fits(timeRangeMs, j)
    ensures r.None? ==> forall j :: 0 <= j < |StandardIntervals| ==> !Fits(timeRangeMs, j)
    ensures r == FirstFitFrom(timeRangeMs, 0)
  {
    FirstFitFromSpec(timeRangeMs, 0);
    r := None;
    for k := 0 to |StandardIntervals|
      invariant FirstFitFrom(timeRangeMs, 0) == FirstFitFrom(timeRangeMs, k)
    {
      if Fits(timeRangeMs, k) {
        return Some(k);
      }
    }
  }

  /** The second loop of calculateVolumeInterval: the first interval whose bar count is closest to 40. */
  method Closest(timeRangeMs: real) returns (best: nat)
    ensures best < |StandardIntervals|
    ensures forall j :: 0 <= j < |StandardIntervals| ==> Distance(timeRangeMs, best) <= Distance(timeRangeMs, j)
    ensures forall j :: 0 <= j < best ==> Distance(timeRangeMs, best) < Distance(timeRangeMs, j)
    ensures best == ClosestBefore(timeRangeMs, |StandardIntervals|)
  {
    best := |StandardIntervals| - 1;
    var bestDistance: Option<real> := None;  // None stands for Infinity
    for k := 0 to |StandardIntervals|
      invariant k == 0 <==> bestDistance.None?
      invariant k > 0 ==> best == ClosestBefore(timeRangeMs, k) && bestDistance == Some(Distance(timeRangeMs, best))
    {
      var distance := Distance(timeRangeMs, k);
      if bestDistance.None? || distance < bestDistance.value {
        bestDistance := Some(distance);
        best := k;
      }
      assert best == ClosestBefore(timeRangeMs, k + 1);
    }
    ClosestBeforeSpec(timeRangeMs, |StandardIntervals|);
  }

  /** A one-hour range is bucketed by the minute: 60 bars, the first interval in the 20..100 band. */
  lemma OneHourUsesMinutes()
    ensures Fits(3600000.0, 6) && forall j :: 0 <= j < 6 ==> !Fits(3600000.0, j)
    ensures StandardIntervals[6].name == "1m"
    ensures VolumeInterval(3600000.0) == "1m"
  {
    assert FirstFitFrom(3600000.0, 6) == Some(6);
  }

  datatype TimeRange = TimeRange(startMs: real, endMs: real)

  datatype LogQuerySpec = LogQuerySpec(query: Option<string>, datasource: Option<string>)

  /** The `LokiTimeSeriesQuery` the volume histogram runs. */
  datatype VolumeQuery = VolumeQuery(query: string, datasource: Option<string>, step: string)

  /** `sum by (level, detected_level) (count_over_time(<query>[<interval>]))` */
  function VolumeExpression(query: string, interval: string): string {
    "sum by (level, detected_level) (count_over_time(" + query + "[" + interval + "]))"
  }

  /** The step of the volume query: the volume interval of the time range, `1m` without one. */
  method VolumeStep(timeRange: Option<TimeRange>) returns (interval: string)
    ensures timeRange.None? ==> interval == "1m"
    ensures timeRange.Some? ==> interval == VolumeInterval(timeRange.value.endMs - timeRange.value.startMs)
  {
    interval := "1m";
    if timeRange.Some? {
      var rangeMs := timeRange.value.endMs - timeRange.value.startMs;
      var name := CalculateVolumeInterval(rangeMs);
      interval := name;
    }
  }

  /** createVolumeQuery: none for a missing, empty or blank query; otherwise a count-over-time
      query at the volume interval of the time range, `1m` when there is no time range. */
  method CreateVolumeQuery(spec: LogQuerySpec, timeRange: Option<TimeRange>) returns (q: Option<VolumeQuery>)
    ensures q.None? <==> spec.query.None? || Trim(spec.query.value) == ""
    ensures q.Some? ==>
      q.value.datasource == spec.datasource && q.value.query == VolumeExpression(spec.query.value, q.value.step)
    ensures q.Some? && timeRange.None? ==> q.value.step == "1m"
    ensures q.Some? && timeRange.Some? ==>
      q.value.step == VolumeInterval(timeRange.value.endMs - timeRange.value.startMs)
  {
    if spec.query.None? || spec.query.value == "" || Trim(spec.query.value) == "" {
      return None;
    }
    var interval := VolumeStep(timeRange);
    q := Some(VolumeQuery(VolumeExpression(spec.query.value, interval), spec.datasource, interval));
  }
}
