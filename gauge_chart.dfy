/** The gauge chart panel: one gauge per series of the first query, sized to share the panel's width,
    with progress bar width and title font size scaled from the smaller chart dimension and held
    within fixed bounds. */
module GaugeChart {
  import opened Base
  import opened PersesCore

  const GaugeMinWidth: real := 90.0
  const PanelPaddingOffset: real := 20.0
  const MinProgressWidth := 10
  const MaxProgressWidth := 48
  const MinTitleSize := 10
  const MaxTitleSize := 16
  const MinValueFontSize: real := 8.0

  /** A calculation of one number from a series' points (`None` standing for null or undefined). */
  type Calculation = seq<Point> -> Option<real>

  datatype GaugeTimeSeries = GaugeTimeSeries(formattedName: Option<string>, values: seq<Point>)

  datatype TimeSeriesData = TimeSeriesData(series: Option<seq<GaugeTimeSeries>>)

  datatype QueryResult = QueryResult(data: Option<TimeSeriesData>)

  datatype LegendOptions = LegendOptions(show: Option<bool>)

  datatype GaugeSeries = GaugeSeries(value: Option<real>, labelText: string)

  /** A length that may be infinite, as a division by zero leaves it. */
  datatype Extent = Finite(x: real) | Infinite

  /** A CSS `clamp(min, ideal, max)` font size; an ideal of `Infinite` comes from a zero-length text. */
  datatype FontClamp = FontClamp(min: real, ideal: Extent, max: real)

  /** What a gauge is drawn with: its size, its data and the responsive measures. */
  datatype Gauge = Gauge(width: real, height: real, data: GaugeSeries, thresholdMax: real, axisLineWidth: int,
                         valueFontSize: FontClamp, progressWidth: int, titleFontSize: int)

  function Min(a: real, b: real): real {
    if a <= b then a else b
  }

  function MaxInt(a: int, b: int): int {
    if a >= b then a else b
  }

  function MinInt(a: int, b: int): int {
    if a <= b then a else b
  }

  /** `Math.min` of a possibly infinite width and a height. */
  function SmallerDimension(width: Extent, height: real): (m: real)
    ensures m <= height && (width.Finite? ==> m <= width.x)
    ensures m == height || (width.Finite? && m == width.x)
  {
    if width.Finite? then Min(width.x, height) else height
  }

  /** getResponsiveProgressWidth: a tenth of the smaller dimension, rounded and held within [10, 48]. */
  function ProgressWidth(width: Extent, height: real): (w: int)
    ensures MinProgressWidth <= w <= MaxProgressWidth
    ensures var ideal := Round(SmallerDimension(width, height) * 0.1);
      MinProgressWidth <= ideal <= MaxProgressWidth ==> w == ideal
  {
    MaxInt(MinProgressWidth, MinInt(MaxProgressWidth, Round(SmallerDimension(width, height) * 0.1)))
  }

  /** getResponsiveTitleFontSize: six percent of the smaller dimension, rounded and held within [10, 16]. */
  function TitleFontSize(width: Extent, height: real): (s: int)
    ensures MinTitleSize <= s <= MaxTitleSize
    ensures var ideal := Round(SmallerDimension(width, height) * 0.06);
      MinTitleSize <= ideal <= MaxTitleSize ==> s == ideal
  {
    MaxInt(MinTitleSize, MinInt(MaxTitleSize, Round(SmallerDimension(width, height) * 0.06)))
  }

  /** A larger panel never gets a thinner progress bar or a smaller title. */
  lemma ResponsiveSizesMonotone(w1: real, h1: real, w2: real, h2: real)
    requires w1 <= w2 && h1 <= h2
    ensures ProgressWidth(Finite(w1), h1) <= ProgressWidth(Finite(w2), h2)
    ensures TitleFontSize(Finite(w1), h1) <= TitleFontSize(Finite(w2), h2)
  {
    var m1, m2 := SmallerDimension(Finite(w1), h1), SmallerDimension(Finite(w2), h2);
    assert m1 <= m2;
    RoundMonotone(m1 * 0.1, m2 * 0.1);
    RoundMonotone(m1 * 0.06, m2 * 0.06);
  }

  /** getResponsiveValueFontSize: clamped between 8 and a maximum that grows with the panel (at least 24),
      ideally the width divided by the number of characters of the formatted value. */
  function ValueFontSize(valueCharacters: nat, width: real, height: real): (c: FontClamp)
    ensures c.min == MinValueFontSize && c.max >= 24.0
    ensures c.max == 24.0 || c.max == Min(width * 0.15, height * 0.2)
    ensures c.ideal.Infinite? <==> valueCharacters == 0
    ensures c.ideal.Finite? ==> c.ideal.x * valueCharacters as real == width
  {
    var availableWidth := width * 0.6;
    var charWidthRatio := 0.6;
    var ideal := if valueCharacters == 0 then Infinite
                 else Finite(availableWidth / valueCharacters as real / charWidthRatio);
    var m := Min(width * 0.15, height * 0.2);
    var dynamicMaxSize := if 24.0 >= m then 24.0 else m;
    FontClamp(MinValueFontSize, ideal, dynamicMaxSize)
  }

  /** The series of the first query, when it has any. */
  function FirstQuerySeries(queryResults: seq<QueryResult>): (r: seq<GaugeTimeSeries>)
    ensures r != [] ==> queryResults != [] && queryResults[0].data.Some? && queryResults[0].data.value.series == Some(r)
  {
    if |queryResults| > 0 && queryResults[0].data.Some? && queryResults[0].data.value.series.Some?
    then queryResults[0].data.value.series.value else []
  }

  /** The calculation by name, falling back to the default calculation for an unknown name. */
  function ChooseCalculation(calculation: string, calculations: map<string, Calculation>, defaultCalculation: Calculation)
    : (c: Calculation)
    ensures calculation in calculations ==> c == calculations[calculation]
    ensures calculation !in calculations ==> c == defaultCalculation
  {
    if calculation in calculations then calculations[calculation] else defaultCalculation
  }

  /** The gauge of one series: its calculated value and, when the legend shows, its name. */
  function GaugeOf(ts: GaugeTimeSeries, calculate: Calculation, showLegend: bool): GaugeSeries {
    GaugeSeries(calculate(ts.values), if showLegend then ts.formattedName.GetOr("") else "")
  }

  /** The gauges of the first `n` series. */
  function Gauges(series: seq<GaugeTimeSeries>, n: nat, calculate: Calculation, showLegend: bool): (r: seq<GaugeSeries>)
    requires n <= |series|
    ensures |r| == n && forall i :: 0 <= i < n ==> r[i] == GaugeOf(series[i], calculate, showLegend)
  {
    if n == 0 then [] else Gauges(series, n - 1, calculate, showLegend) + [GaugeOf(series[n - 1], calculate, showLegend)]
  }

  /** The gauge data: one gauge per series of the first query, in order; a label only when the
      legend shows, which it does unless it is switched off. */
  method GaugeData(queryResults: seq<QueryResult>, calculation: string, calculations: map<string, Calculation>,
                   defaultCalculation: Calculation, legend: Option<LegendOptions>)
    returns (seriesData: seq<GaugeSeries>)
    ensures var series := FirstQuerySeries(queryResults);
      var calculate := ChooseCalculation(calculation, calculations, defaultCalculation);
      |seriesData| == |series|
      && forall i :: 0 <= i < |series| ==>
           seriesData[i].value == calculate(series[i].values)
           && seriesData[i].labelText == (if legend.None? || legend.value.show != Some(false) then series[i].formattedName.GetOr("") else "")
  {
    var showLegend := if legend.Some? && legend.value.show.Some? then legend.value.show.value else true;
    seriesData := [];
    if |queryResults| == 0 || queryResults[0].data.None? || queryResults[0].data.value.series.None?
       || |queryResults[0].data.value.series.value| == 0 {
      return;
    }
    var calculate := ChooseCalculation(calculation, calculations, defaultCalculation);
    var series := queryResults[0].data.value.series.value;
    for k := 0 to |series|
      invariant seriesData == Gauges(series, k, calculate, showLegend)
    {
      seriesData := seriesData + [GaugeOf(series[k], calculate, showLegend)];
    }
  }

  /** The end of the last threshold segment: the configured maximum, else the default for the unit. */
  function ThresholdMax(max: Option<real>, unit: string, defaultMaxPercent: real, defaultMaxPercentDecimal: real): (m: real)
    ensures max.Some? ==> m == max.value
    ensures max.None? && unit == "percent" ==> m == defaultMaxPercent
    ensures max.None? && unit != "percent" ==> m == defaultMaxPercentDecimal
  {
    if max.Some? then max.value else if unit == "percent" then defaultMaxPercent else defaultMaxPercentDecimal
  }

  /** Each chart's width: the panel width shared by the gauges less the padding, raised to the minimum
      when there are several gauges; a division by zero gauges leaves it infinite. */
  function ChartWidth(width: real, count: nat): (w: Extent)
    ensures w.Infinite? <==> count == 0
    ensures count > 1 ==> w.x >= GaugeMinWidth
    ensures count == 1 ==> w == Finite(width - PanelPaddingOffset)
  {
    if count == 0 then Infinite
    else
      var chartWidth := width / count as real - PanelPaddingOffset;
      if chartWidth < GaugeMinWidth && count > 1 then Finite(GaugeMinWidth) else Finite(chartWidth)
  }

  /** Unless raised to the minimum, the charts with their padding take up the panel's width exactly. */
  lemma ChartsFillWidth(width: real, count: nat)
    requires count > 0 && ChartWidth(width, count).x != GaugeMinWidth
    ensures count as real * (ChartWidth(width, count).x + PanelPaddingOffset) == width
  {
    var c := count as real;
    assert c * (width / c) == width;
  }

  /** The gauges drawn for a panel of the given size; `formattedLength` gives the length of a value
      formatted for display. Without data a single empty gauge fills the panel. */
  function GaugeChartPanel(width: real, height: real, gaugeData: seq<GaugeSeries>, thresholdMax: real,
                           formattedLength: Option<real> -> nat): (r: seq<Gauge>)
    ensures gaugeData == [] ==>
      (|r| == 1 && r[0].width == width && r[0].data == GaugeSeries(None, "")
       && r[0].progressWidth == ProgressWidth(Finite(width), height))
    ensures gaugeData != [] ==>
      (|r| == |gaugeData| && forall i :: 0 <= i < |r| ==>
         (r[i].data == gaugeData[i] && r[i].width == ChartWidth(width, |gaugeData|).x
          && r[i].progressWidth == ProgressWidth(ChartWidth(width, |gaugeData|), height)))
    ensures forall i :: 0 <= i < |r| ==>
      MinProgressWidth <= r[i].progressWidth <= MaxProgressWidth && MinTitleSize <= r[i].titleFontSize <= MaxTitleSize
      && r[i].thresholdMax == thresholdMax
  {
    var chartWidth := ChartWidth(width, |gaugeData|);
    var progressWidth := ProgressWidth(chartWidth, height);
    var axisLineWidth := Round(progressWidth as real * 0.2);
    var titleFontSize := TitleFontSize(chartWidth, height);
    if |gaugeData| == 0 then
      [Gauge(width, height, GaugeSeries(None, ""), thresholdMax, axisLineWidth, ValueFontSize(formattedLength(None), width, height),
             ProgressWidth(Finite(width), height), TitleFontSize(Finite(width), height))]
    else
      seq(|gaugeData|, i requires 0 <= i < |gaugeData| =>
        Gauge(chartWidth.x, height, gaugeData[i], thresholdMax, axisLineWidth,
              ValueFontSize(formattedLength(gaugeData[i].value), chartWidth.x, height), progressWidth, titleFontSize))
  }

  /** Without data, the axis line width follows the height alone: the infinite chart width never is
      the smaller dimension. */
  lemma EmptyAxisLineFromHeight(width: real, height: real, thresholdMax: real, formattedLength: Option<real> -> nat)
    ensures GaugeChartPanel(width, height, [], thresholdMax, formattedLength)[0].axisLineWidth
      == Round(ProgressWidth(Finite(height), height) as real * 0.2)
  {
  }
}
