/** The data model of the status history chart: the x axis of every timestamp of the common time
    scale, one y-axis row per series, one item per non-null sample that falls on the x axis, and one
    color and one legend entry per distinct value. */
module StatusHistory {
  import opened Base
  import opened KeyOrder

  datatype TimeScale = TimeScale(startMs: int, endMs: int, stepMs: int)

  datatype SortOrder = Asc | Desc

  /** A series: its formatted name and its samples, a `None` value standing for null. */
  datatype Series = Series(formattedName: Option<string>, values: seq<(int, Option<real>)>)

  /** A query result: its series, absent when the result has no data or no series. */
  datatype QueryResult = QueryResult(series: Option<seq<Series>>)

  /** What a value mapping gives for a value: its text and, when the mapping sets one, its color. */
  datatype MappedValue = MappedValue(text: string, color: Option<string>)

  /** The panel options: the series sorting and the number of value mappings. */
  datatype StatusHistoryOptions = StatusHistoryOptions(sorting: Option<SortOrder>, mappingCount: nat)

  /** The helpers of the core library and the chart's color module the model stands on. */
  datatype Conversions = Conversions(
    commonTimeScale: seq<QueryResult> -> Option<TimeScale>,
    applyValueMapping: real -> MappedValue,
    colorsForValues: (seq<real>, seq<string>) -> seq<string>,
    numberToString: real -> string,
    fallbackColor: string)

  /** An item of the chart: `[x index, y index, value]` and its label. */
  datatype DataItem = DataItem(x: nat, y: nat, value: real, labelText: string)

  datatype LegendItem = LegendItem(id: string, labelText: string, color: string)

  datatype ValueColor = ValueColor(value: real, color: string)

  datatype StatusHistoryDataModel = StatusHistoryDataModel(
    legendItems: seq<LegendItem>,
    statusHistoryData: seq<DataItem>,
    xAxisCategories: seq<int>,
    yAxisCategories: seq<string>,
    timeScale: Option<TimeScale>,
    colors: seq<ValueColor>)

  // ----- the x axis -----

  /** The time scales whose timestamp loop ends: a positive step, or a start already past the end.
      With any other scale the source's loop never ends. */
  predicate LoopEnds(ts: TimeScale) {
    ts.stepMs > 0 || ts.startMs > ts.endMs
  }

  /** The timestamps from `startMs` in steps of `stepMs` up to `endMs`. */
  function Timestamps(startMs: int, endMs: int, stepMs: int): seq<int>
    requires stepMs > 0 || startMs > endMs
    decreases if startMs > endMs then 0 else endMs - startMs + 1
  {
    if startMs > endMs then [] else [startMs] + Timestamps(startMs + stepMs, endMs, stepMs)
  }

  /** The timestamps are `startMs + i * stepMs`, all at most `endMs`, and the next step would pass it. */
  lemma {:induction false} TimestampsShape(startMs: int, endMs: int, stepMs: int)
    requires stepMs > 0 || startMs > endMs
    ensures var ts := Timestamps(startMs, endMs, stepMs);
      (ts == [] <==> startMs > endMs)
      && (forall i :: 0 <= i < |ts| ==> ts[i] == startMs + i * stepMs && ts[i] <= endMs)
      && (ts != [] ==> ts[|ts| - 1] + stepMs > endMs)
    decreases if startMs > endMs then 0 else endMs - startMs + 1
  {
    if startMs <= endMs {
      var rest := Timestamps(startMs + stepMs, endMs, stepMs);
      TimestampsShape(startMs + stepMs, endMs, stepMs);
      var ts := Timestamps(startMs, endMs, stepMs);
      forall i | 1 <= i < |ts| ensures ts[i] == startMs + i * stepMs {
        assert ts[i] == rest[i - 1] == startMs + stepMs + (i - 1) * stepMs;
      }
    }
  }

  /** generateCompleteTimestamps: no time scale gives no timestamps. */
  method GenerateCompleteTimestamps(timescale: Option<TimeScale>) returns (timestamps: seq<int>)
    requires timescale.Some? ==> LoopEnds(timescale.value)
    ensures timescale.None? ==> timestamps == []
    ensures timescale.Some? ==>
      timestamps == Timestamps(timescale.value.startMs, timescale.value.endMs, timescale.value.stepMs)
  {
    if timescale.None? {
      return [];
    }
    var TimeScale(startMs, endMs, stepMs) := timescale.value;
    timestamps := [];
    var time := startMs;
    while time <= endMs
      invariant stepMs > 0 || time > endMs
      invariant timestamps + Timestamps(time, endMs, stepMs) == Timestamps(startMs, endMs, stepMs)
      decreases if time > endMs then 0 else endMs - time + 1
    {
      timestamps := timestamps + [time];
      time := time + stepMs;
    }
  }

  // ----- the series and their order -----

  /** Every series of every query result with series, in order. */
  function AllSeries(queryResults: seq<QueryResult>): seq<Series> {
    if queryResults == [] then []
    else AllSeries(queryResults[..|queryResults| - 1]) + queryResults[|queryResults| - 1].series.GetOr([])
  }

  function NameOf(s: Series): string {
    s.formattedName.GetOr("")
  }

  /** `localeCompare` on names, as an ordinal comparison. */
  function Compare(a: string, b: string): int {
    if a == b then 0 else if Below(a, b) then -1 else 1
  }

  /** The comparator as written: each name is compared with itself. */
  function AsWrittenComparator(order: SortOrder): (Series, Series) -> int {
    (a: Series, b: Series) => if order == Asc then Compare(NameOf(a), NameOf(a)) else Compare(NameOf(b), NameOf(b))
  }

  /** The comparator as intended: by name, ascending or descending. */
  function NameComparator(order: SortOrder): (Series, Series) -> int {
    (a: Series, b: Series) => if order == Asc then Compare(NameOf(a), NameOf(b)) else Compare(NameOf(b), NameOf(a))
  }

  /** `x` placed after every trailing element that the comparator does not put after it. */
  function Insert(ys: seq<Series>, x: Series, cmp: (Series, Series) -> int): (r: seq<Series>)
    ensures multiset(r) == multiset(ys) + multiset{x}
  {
    if ys == [] || cmp(ys[|ys| - 1], x) <= 0 then ys + [x]
    else
      assert ys == ys[..|ys| - 1] + [ys[|ys| - 1]];
      Insert(ys[..|ys| - 1], x, cmp) + [ys[|ys| - 1]]
  }

  /** A stable sort, as `Array.prototype.sort` is. */
  function Sort(xs: seq<Series>, cmp: (Series, Series) -> int): (r: seq<Series>)
    ensures multiset(r) == multiset(xs)
  {
    if xs == [] then []
    else
      assert xs == xs[..|xs| - 1] + [xs[|xs| - 1]];
      Insert(Sort(xs[..|xs| - 1], cmp), xs[|xs| - 1], cmp)
  }

  /** A comparator that treats every pair as equal leaves a stable sort with nothing to do. */
  lemma {:induction false} SortByEqualKeepsOrder(xs: seq<Series>, cmp: (Series, Series) -> int)
    requires forall a, b :: cmp(a, b) == 0
    ensures Sort(xs, cmp) == xs
  {
    if xs != [] {
      SortByEqualKeepsOrder(xs[..|xs| - 1], cmp);
      assert xs == xs[..|xs| - 1] + [xs[|xs| - 1]];
    }
  }

  /** The comparator as written finds every pair equal, so sorting never reorders the series. */
  lemma AsWrittenKeepsOrder(xs: seq<Series>, order: SortOrder)
    ensures Sort(xs, AsWrittenComparator(order)) == xs
  {
    forall a, b ensures AsWrittenComparator(order)(a, b) == 0 {
    }
    SortByEqualKeepsOrder(xs, AsWrittenComparator(order));
  }

  /** Sorted by a comparator: no element is put after a later one. */
  predicate SortedBy(ys: seq<Series>, cmp: (Series, Series) -> int) {
    forall i, j :: 0 <= i < j < |ys| ==> cmp(ys[i], ys[j]) <= 0
  }

  lemma CompareTransitive(a: string, b: string, c: string)
    requires Compare(a, b) <= 0 && Compare(b, c) <= 0
    ensures Compare(a, c) <= 0
  {
    if a != b && b != c && a != c {
      BelowTransitive(a, b, c);
    } else if a == c && a != b {
      BelowAsymmetric(a, b);
    }
  }

  lemma CompareFlip(a: string, b: string)
    requires Compare(a, b) > 0
    ensures Compare(b, a) <= 0
  {
    BelowTotal(a, b);
  }

  /** The name comparator, either way, is transitive. */
  lemma NameTransitive(order: SortOrder, a: Series, b: Series, c: Series)
    requires NameComparator(order)(a, b) <= 0 && NameComparator(order)(b, c) <= 0
    ensures NameComparator(order)(a, c) <= 0
  {
    if order == Asc {
      CompareTransitive(NameOf(a), NameOf(b), NameOf(c));
    } else {
      CompareTransitive(NameOf(c), NameOf(b), NameOf(a));
    }
  }

  /** The name comparator, either way, is total. */
  lemma NameFlip(order: SortOrder, a: Series, b: Series)
    requires NameComparator(order)(a, b) > 0
    ensures NameComparator(order)(b, a) <= 0
  {
    if order == Asc {
      CompareFlip(NameOf(a), NameOf(b));
    } else {
      CompareFlip(NameOf(b), NameOf(a));
    }
  }

  lemma InsertMembers(ys: seq<Series>, x: Series, cmp: (Series, Series) -> int, e: Series)
    ensures e in Insert(ys, x, cmp) <==> e in ys || e == x
  {
    assert e in Insert(ys, x, cmp) <==> e in multiset(Insert(ys, x, cmp));
    assert e in ys <==> e in multiset(ys);
  }

  lemma {:induction false} InsertSorted(ys: seq<Series>, x: Series, order: SortOrder)
    requires SortedBy(ys, NameComparator(order))
    ensures SortedBy(Insert(ys, x, NameComparator(order)), NameComparator(order))
  {
    var cmp := NameComparator(order);
    if ys != [] && cmp(ys[|ys| - 1], x) > 0 {
      var init, last := ys[..|ys| - 1], ys[|ys| - 1];
      assert SortedBy(init, cmp);
      InsertSorted(init, x, order);
      var r := Insert(init, x, cmp);
      NameFlip(order, last, x);
      assert forall k :: 0 <= k < |init| ==> init[k] == ys[k];
      InsertBelow(init, x, last, cmp);
      assert Insert(ys, x, cmp) == r + [last];
      SnocSorted(r, last, cmp);
    } else if ys != [] {
      forall i | 0 <= i < |ys| ensures cmp(ys[i], x) <= 0 {
        if i < |ys| - 1 {
          NameTransitive(order, ys[i], ys[|ys| - 1], x);
        }
      }
      SnocSorted(ys, x, cmp);
    }
  }

  /** Inserting an element into a sequence keeps every element at most `last` when the element and
      all of the sequence are. */
  lemma InsertBelow(init: seq<Series>, x: Series, last: Series, cmp: (Series, Series) -> int)
    requires forall k :: 0 <= k < |init| ==> cmp(init[k], last) <= 0
    requires cmp(x, last) <= 0
    ensures forall i :: 0 <= i < |Insert(init, x, cmp)| ==> cmp(Insert(init, x, cmp)[i], last) <= 0
  {
    var r := Insert(init, x, cmp);
    forall i | 0 <= i < |r| ensures cmp(r[i], last) <= 0 {
      InsertMembers(init, x, cmp, r[i]);
      if r[i] != x {
        var k :| 0 <= k < |init| && init[k] == r[i];
      }
    }
  }

  /** A sorted sequence stays sorted with an element behind it that nothing in it exceeds. */
  lemma SnocSorted(r: seq<Series>, last: Series, cmp: (Series, Series) -> int)
    requires SortedBy(r, cmp)
    requires forall i :: 0 <= i < |r| ==> cmp(r[i], last) <= 0
    ensures SortedBy(r + [last], cmp)
  {
    var r' := r + [last];
    forall i, j | 0 <= i < j < |r'| ensures cmp(r'[i], r'[j]) <= 0 {
      if j < |r| {
        assert r'[i] == r[i] && r'[j] == r[j];
      }
    }
  }

  /** Sorting by name gives a sorted permutation. */
  lemma {:induction false} SortSorted(xs: seq<Series>, order: SortOrder)
    ensures SortedBy(Sort(xs, NameComparator(order)), NameComparator(order))
  {
    if xs != [] {
      SortSorted(xs[..|xs| - 1], order);
      InsertSorted(Sort(xs[..|xs| - 1], NameComparator(order)), xs[|xs| - 1], order);
    }
  }

  /** With the intended comparator, sorted ascending means names ascending and sorted descending
      names descending, and no series is lost or added. */
  lemma SortByName(xs: seq<Series>, order: SortOrder)
    ensures var ys := Sort(xs, NameComparator(order));
      multiset(ys) == multiset(xs)
      && forall i, j :: 0 <= i < j < |ys| ==>
           (if order == Asc then !Below(NameOf(ys[j]), NameOf(ys[i])) else !Below(NameOf(ys[i]), NameOf(ys[j])))
  {
    SortSorted(xs, order);
    var ys := Sort(xs, NameComparator(order));
    forall i, j | 0 <= i < j < |ys|
      ensures if order == Asc then !Below(NameOf(ys[j]), NameOf(ys[i])) else !Below(NameOf(ys[i]), NameOf(ys[j]))
    {
      assert NameComparator(order)(ys[i], ys[j]) <= 0;
      if order == Asc {
        BelowAsymmetric(NameOf(ys[i]), NameOf(ys[j]));
        BelowIrreflexive(NameOf(ys[i]));
      } else {
        BelowAsymmetric(NameOf(ys[j]), NameOf(ys[i]));
        BelowIrreflexive(NameOf(ys[j]));
      }
    }
  }

  // ----- items -----

  /** `findIndex` of a timestamp on the x axis: its first position, or -1. */
  function XIndex(xAxis: seq<int>, time: int): (k: int)
    ensures -1 <= k < |xAxis|
    ensures k >= 0 ==> xAxis[k] == time && forall j :: 0 <= j < k ==> xAxis[j] != time
    ensures k == -1 <==> time !in xAxis
  {
    match FirstWhere(xAxis, (v: int) => v == time)
    case None => -1
    case Some(k) => k
  }

  /** An item's label: the mapped text when there are value mappings, else the value itself. */
  function Label(value: real, spec: StatusHistoryOptions, conv: Conversions): string {
    if spec.mappingCount > 0 then conv.applyValueMapping(value).text else conv.numberToString(value)
  }

  /** The items of the first `n` samples of a series at row `y`. */
  function SeriesItems(values: seq<(int, Option<real>)>, n: nat, y: nat, xAxis: seq<int>, spec: StatusHistoryOptions,
                       conv: Conversions): seq<DataItem>
    requires n <= |values|
  {
    if n == 0 then [] else SeriesItems(values, n - 1, y, xAxis, spec, conv) + SampleItems(values[n - 1], y, xAxis, spec, conv)
  }

  /** The item one sample gives, if its value is not null and its timestamp is on the x axis. */
  function SampleItems(sample: (int, Option<real>), y: nat, xAxis: seq<int>, spec: StatusHistoryOptions,
                       conv: Conversions): seq<DataItem>
  {
    var (time, value) := sample;
    var x := XIndex(xAxis, time);
    if value.Some? && x != -1 then [DataItem(x, y, value.value, Label(value.value, spec, conv))] else []
  }

  /** The items of the first `n` series, row by row. */
  function Items(series: seq<Series>, n: nat, xAxis: seq<int>, spec: StatusHistoryOptions, conv: Conversions): seq<DataItem>
    requires n <= |series|
  {
    if n == 0 then []
    else
      Items(series, n - 1, xAxis, spec, conv)
      + SeriesItems(series[n - 1].values, |series[n - 1].values|, n - 1, xAxis, spec, conv)
  }

  /** The item sample `k` of series `y` gives: at the sample's position on the x axis, in the
      series' row, with the sample's value and its label. */
  predicate ItemOf(series: seq<Series>, xAxis: seq<int>, spec: StatusHistoryOptions, conv: Conversions, y: nat, k: nat,
                   it: DataItem)
    requires y < |series| && k < |series[y].values|
  {
    var (time, value) := series[y].values[k];
    value.Some? && time in xAxis
    && it == DataItem(XIndex(xAxis, time), y, value.value, Label(value.value, spec, conv))
  }

  lemma SeriesItemsMeaning(series: seq<Series>, y: nat, n: nat, xAxis: seq<int>,
                           spec: StatusHistoryOptions, conv: Conversions)
    requires y < |series| && n <= |series[y].values|
    ensures forall it :: it in SeriesItems(series[y].values, n, y, xAxis, spec, conv) <==>
      exists k :: 0 <= k < n && ItemOf(series, xAxis, spec, conv, y, k, it)
  {
    forall it ensures it in SeriesItems(series[y].values, n, y, xAxis, spec, conv) <==>
      exists k :: 0 <= k < n && ItemOf(series, xAxis, spec, conv, y, k, it)
    {
      SeriesItemsHas(series, y, n, xAxis, spec, conv, it);
    }
  }

  /** An item of the first `n + 1` samples is one of the first `n` or one of sample `n`. */
  lemma SeriesItemsSnocHas(values: seq<(int, Option<real>)>, n: nat, y: nat, xAxis: seq<int>, spec: StatusHistoryOptions,
                           conv: Conversions, it: DataItem)
    requires n < |values|
    ensures it in SeriesItems(values, n + 1, y, xAxis, spec, conv)
            <==> it in SeriesItems(values, n, y, xAxis, spec, conv) || it in SampleItems(values[n], y, xAxis, spec, conv)
  {
    SeriesItemsSnoc(values, n, y, xAxis, spec, conv);
  }

  /** The items of the first `n + 1` samples: those of the first `n`, then sample `n`'s. */
  lemma SeriesItemsSnoc(values: seq<(int, Option<real>)>, n: nat, y: nat, xAxis: seq<int>, spec: StatusHistoryOptions,
                        conv: Conversions)
    requires n < |values|
    ensures SeriesItems(values, n + 1, y, xAxis, spec, conv)
            == SeriesItems(values, n, y, xAxis, spec, conv) + SampleItems(values[n], y, xAxis, spec, conv)
  {
  }

  /** Sample `k` of series `y` gives an item exactly when that item is the one `ItemOf` describes. */
  lemma SampleItemsHas(series: seq<Series>, y: nat, k: nat, xAxis: seq<int>,
                       spec: StatusHistoryOptions, conv: Conversions, it: DataItem)
    requires y < |series| && k < |series[y].values|
    ensures it in SampleItems(series[y].values[k], y, xAxis, spec, conv) <==> ItemOf(series, xAxis, spec, conv, y, k, it)
  {
  }

  /** One item is among the items of the first `n` samples exactly when one of them gives it. */
  lemma SeriesItemsHas(series: seq<Series>, y: nat, n: nat, xAxis: seq<int>,
                       spec: StatusHistoryOptions, conv: Conversions, it: DataItem)
    requires y < |series| && n <= |series[y].values|
    ensures it in SeriesItems(series[y].values, n, y, xAxis, spec, conv) <==>
      exists k :: 0 <= k < n && ItemOf(series, xAxis, spec, conv, y, k, it)
  {
    if exists k :: 0 <= k < n && ItemOf(series, xAxis, spec, conv, y, k, it) {
      var k :| 0 <= k < n && ItemOf(series, xAxis, spec, conv, y, k, it);
      var values := series[y].values;
      SampleItemsHas(series, y, k, xAxis, spec, conv, it);
      SeriesItemsSnocHas(values, k, y, xAxis, spec, conv, it);
      SeriesItemsGrow(values, y, k + 1, n, xAxis, spec, conv, it);
    }
    SeriesItemsSound(series, y, n, xAxis, spec, conv, it);
  }

  /** Every item of the first `n` samples is given by one of them. */
  lemma {:induction false} SeriesItemsSound(series: seq<Series>, y: nat, n: nat, xAxis: seq<int>,
                                            spec: StatusHistoryOptions, conv: Conversions, it: DataItem)
    requires y < |series| && n <= |series[y].values|
    ensures it in SeriesItems(series[y].values, n, y, xAxis, spec, conv) ==>
      exists k :: 0 <= k < n && ItemOf(series, xAxis, spec, conv, y, k, it)
  {
    if n > 0 && it in SeriesItems(series[y].values, n, y, xAxis, spec, conv) {
      var values := series[y].values;
      var k := n - 1;
      SeriesItemsSnocHas(values, k, y, xAxis, spec, conv, it);
      if it in SeriesItems(values, k, y, xAxis, spec, conv) {
        SeriesItemsSound(series, y, k, xAxis, spec, conv, it);
        var j :| 0 <= j < k && ItemOf(series, xAxis, spec, conv, y, j, it);
        assert j < n;
      } else {
        SampleItemsHas(series, y, k, xAxis, spec, conv, it);
        assert ItemOf(series, xAxis, spec, conv, y, k, it);
      }
    }
  }

  /** An item of the first `m` samples is an item of the first `n` for any `n` from `m` on. */
  lemma {:induction false} SeriesItemsGrow(values: seq<(int, Option<real>)>, y: nat, m: nat, n: nat, xAxis: seq<int>,
                                           spec: StatusHistoryOptions, conv: Conversions, it: DataItem)
    requires m <= n <= |values|
    requires it in SeriesItems(values, m, y, xAxis, spec, conv)
    ensures it in SeriesItems(values, n, y, xAxis, spec, conv)
    decreases n - m
  {
    if m < n {
      SeriesItemsSnocHas(values, m, y, xAxis, spec, conv, it);
      SeriesItemsGrow(values, y, m + 1, n, xAxis, spec, conv, it);
    }
  }

  /** An item exists exactly for a non-null sample whose timestamp is on the x axis; it sits at that
      timestamp's position and in its series' row. */
  lemma {:induction false} ItemsMeaning(series: seq<Series>, n: nat, xAxis: seq<int>, spec: StatusHistoryOptions,
                                        conv: Conversions)
    requires n <= |series|
    ensures forall it :: it in Items(series, n, xAxis, spec, conv) <==>
      exists y, k :: 0 <= y < n && 0 <= k < |series[y].values| && ItemOf(series, xAxis, spec, conv, y, k, it)
  {
    if n > 0 {
      ItemsMeaning(series, n - 1, xAxis, spec, conv);
      SeriesItemsMeaning(series, n - 1, |series[n - 1].values|, xAxis, spec, conv);
    }
  }

  lemma ItemsStep(series: seq<Series>, i: nat, xAxis: seq<int>, spec: StatusHistoryOptions, conv: Conversions)
    requires i < |series|
    ensures Items(series, i + 1, xAxis, spec, conv)
      == Items(series, i, xAxis, spec, conv) + SeriesItems(series[i].values, |series[i].values|, i, xAxis, spec, conv)
  {
  }

  /** The values of the items, in order. */
  function ItemValues(items: seq<DataItem>): (vs: seq<real>)
    ensures |vs| == |items| && forall i :: 0 <= i < |items| ==> vs[i] == items[i].value
  {
    seq(|items|, i requires 0 <= i < |items| => items[i].value)
  }

  // ----- colors and legend -----

  /** A value's color: the mapped color when there are value mappings and the mapping sets one,
      else the generated color at its position, else the fallback color. */
  function ValueColorOf(value: real, index: nat, generated: seq<string>, spec: StatusHistoryOptions, conv: Conversions): string {
    var valueColor := if index < |generated| then generated[index] else conv.fallbackColor;
    if spec.mappingCount > 0 then conv.applyValueMapping(value).color.GetOr(valueColor) else valueColor
  }

  /** One color per distinct value, in the same order. */
  function Colors(uniqueValues: seq<real>, themeColors: seq<string>, spec: StatusHistoryOptions, conv: Conversions)
    : (cs: seq<ValueColor>)
    ensures |cs| == |uniqueValues| && forall i :: 0 <= i < |cs| ==> cs[i].value == uniqueValues[i]
  {
    var generated := conv.colorsForValues(uniqueValues, themeColors);
    seq(|uniqueValues|, i requires 0 <= i < |uniqueValues| =>
      ValueColor(uniqueValues[i], ValueColorOf(uniqueValues[i], i, generated, spec, conv)))
  }

  /** `colors.find(...)?.color || FALLBACK_COLOR`. */
  function ColorOfValue(colors: seq<ValueColor>, value: real, conv: Conversions): string {
    match FirstWhere(colors, (c: ValueColor) => c.value == value)
    case None => conv.fallbackColor
    case Some(k) => if colors[k].color == "" then conv.fallbackColor else colors[k].color
  }

  /** One legend entry per distinct value, in the same order, colored as its value's color entry. */
  function LegendItems(uniqueValues: seq<real>, colors: seq<ValueColor>, spec: StatusHistoryOptions, conv: Conversions)
    : (ls: seq<LegendItem>)
    requires NoDuplicates(uniqueValues)
    requires |colors| == |uniqueValues| && forall i :: 0 <= i < |colors| ==> colors[i].value == uniqueValues[i]
    ensures |ls| == |uniqueValues|
    ensures forall i :: 0 <= i < |ls| ==>
      ls[i].color == (if colors[i].color == "" then conv.fallbackColor else colors[i].color)
      && ls[i].labelText == Label(uniqueValues[i], spec, conv)
      && ls[i].id == NatToString(i) + "-" + conv.numberToString(uniqueValues[i])
  {
    var ls := seq(|uniqueValues|, i requires 0 <= i < |uniqueValues| =>
      LegendItem(NatToString(i) + "-" + conv.numberToString(uniqueValues[i]), Label(uniqueValues[i], spec, conv),
                 ColorOfValue(colors, uniqueValues[i], conv)));
    assert forall i :: 0 <= i < |ls| ==> FirstWhere(colors, (c: ValueColor) => c.value == uniqueValues[i]) == Some(i);
    ls
  }

  // ----- the model -----

  /** The series in chart order: sorted with the comparator as written when a sorting is set, which
      leaves them in query order. */
  function OrderedSeries(queryResults: seq<QueryResult>, spec: StatusHistoryOptions): (r: seq<Series>)
    ensures r == AllSeries(queryResults)
  {
    var all := AllSeries(queryResults);
    if spec.sorting.Some? then
      AsWrittenKeepsOrder(all, spec.sorting.value);
      Sort(all, AsWrittenComparator(spec.sorting.value))
    else all
  }

  function Names(series: seq<Series>): (ns: seq<string>)
    ensures |ns| == |series| && forall i :: 0 <= i < |series| ==> ns[i] == NameOf(series[i])
  {
    seq(|series|, i requires 0 <= i < |series| => NameOf(series[i]))
  }

  /** The whole model for query results with their common time scale. */
  function ModelOf(queryResults: seq<QueryResult>, themeColors: seq<string>, spec: StatusHistoryOptions, conv: Conversions)
    : StatusHistoryDataModel
    requires var ts := conv.commonTimeScale(queryResults); ts.Some? ==> LoopEnds(ts.value)
  {
    if queryResults == [] then StatusHistoryDataModel([], [], [], [], None, [])
    else
      var series := OrderedSeries(queryResults, spec);
      var timeScale := conv.commonTimeScale(queryResults);
      var xAxis := if timeScale.Some? then Timestamps(timeScale.value.startMs, timeScale.value.endMs, timeScale.value.stepMs) else [];
      var items := Items(series, |series|, xAxis, spec, conv);
      var uniqueValues := Dedupe(ItemValues(items));
      DedupeNoDuplicates(ItemValues(items));
      var colors := Colors(uniqueValues, themeColors, spec, conv);
      StatusHistoryDataModel(LegendItems(uniqueValues, colors, spec, conv), items, xAxis, Names(series), timeScale, colors)
  }

  /** The reduce over the query results: every series of every result with series, in order. */
  method GatherSeries(queryResults: seq<QueryResult>) returns (allSeries: seq<Series>)
    ensures allSeries == AllSeries(queryResults)
  {
    allSeries := [];
    for q := 0 to |queryResults|
      invariant allSeries == AllSeries(queryResults[..q])
    {
      assert queryResults[..q + 1][..q] == queryResults[..q];
      if queryResults[q].series.Some? {
        allSeries := allSeries + queryResults[q].series.value;
      }
    }
    assert queryResults[..|queryResults|] == queryResults;
  }

  /** The walk over one series' samples: an item and a legend value for each non-null sample on the
      x axis. */
  method PushSeriesItems(item: Series, yIndex: nat, xAxisCategories: seq<int>, spec: StatusHistoryOptions, conv: Conversions,
                         items: seq<DataItem>, legendSet: seq<real>)
    returns (items': seq<DataItem>, legendSet': seq<real>)
    requires legendSet == Dedupe(ItemValues(items))
    ensures items' == items + SeriesItems(item.values, |item.values|, yIndex, xAxisCategories, spec, conv)
    ensures legendSet' == Dedupe(ItemValues(items'))
  {
    items', legendSet' := items, legendSet;
    var values := item.values;
    for k := 0 to |values|
      invariant Pushed(items, values, k, yIndex, xAxisCategories, spec, conv, items', legendSet')
    {
      var (time, value) := values[k];
      var itemIndexOnXaxis := XIndex(xAxisCategories, time);
      PushStep(items, values, k, yIndex, xAxisCategories, spec, conv, items', legendSet');
      if value.Some? && itemIndexOnXaxis != -1 {
        legendSet' := SetAdd(legendSet', value.value);
        items' := items' + [DataItem(itemIndexOnXaxis, yIndex, value.value, Label(value.value, spec, conv))];
      }
    }
  }

  /** The state of the walk over a series after its first `k` samples. */
  ghost predicate Pushed(items: seq<DataItem>, values: seq<(int, Option<real>)>, k: nat, y: nat, xAxis: seq<int>,
                         spec: StatusHistoryOptions, conv: Conversions, items': seq<DataItem>, legendSet': seq<real>) {
    k <= |values| && items' == items + SeriesItems(values, k, y, xAxis, spec, conv)
    && legendSet' == Dedupe(ItemValues(items'))
  }

  /** One sample more: a non-null sample on the x axis pushes its item and its value. */
  lemma PushStep(items: seq<DataItem>, values: seq<(int, Option<real>)>, k: nat, y: nat, xAxis: seq<int>,
                 spec: StatusHistoryOptions, conv: Conversions, items': seq<DataItem>, legendSet': seq<real>)
    requires k < |values| && Pushed(items, values, k, y, xAxis, spec, conv, items', legendSet')
    ensures var x := XIndex(xAxis, values[k].0); var value := values[k].1;
      if value.Some? && x != -1 then
        Pushed(items, values, k + 1, y, xAxis, spec, conv, items' + [DataItem(x, y, value.value, Label(value.value, spec, conv))],
               SetAdd(legendSet', value.value))
      else Pushed(items, values, k + 1, y, xAxis, spec, conv, items', legendSet')
  {
    var x := XIndex(xAxis, values[k].0);
    var value := values[k].1;
    if value.Some? && x != -1 {
      LegendSnoc(items', DataItem(x, y, value.value, Label(value.value, spec, conv)));
    }
  }

  /** The legend values after one item more. */
  lemma LegendSnoc(items: seq<DataItem>, it: DataItem)
    ensures Dedupe(ItemValues(items + [it])) == SetAdd(Dedupe(ItemValues(items)), it.value)
  {
    assert ItemValues(items + [it]) == ItemValues(items) + [it.value];
    DedupeSnoc(ItemValues(items), it.value);
  }

  /** The walk over the series: a y-axis row per series, then its items and legend values. */
  method WalkSeries(allSeries: seq<Series>, xAxisCategories: seq<int>, spec: StatusHistoryOptions, conv: Conversions)
    returns (yAxisCategories: seq<string>, statusHistoryData: seq<DataItem>, legendSet: seq<real>)
    ensures yAxisCategories == Names(allSeries)
    ensures statusHistoryData == Items(allSeries, |allSeries|, xAxisCategories, spec, conv)
    ensures legendSet == Dedupe(ItemValues(statusHistoryData))
  {
    statusHistoryData := [];
    yAxisCategories := [];
    legendSet := [];
    for i := 0 to |allSeries|
      invariant Walked(allSeries, i, xAxisCategories, spec, conv, yAxisCategories, statusHistoryData, legendSet)
    {
      var item := allSeries[i];
      ghost var names, items, legend := yAxisCategories, statusHistoryData, legendSet;
      yAxisCategories := yAxisCategories + [NameOf(item)];
      var yIndex := |yAxisCategories| - 1;
      statusHistoryData, legendSet := PushSeriesItems(item, yIndex, xAxisCategories, spec, conv, statusHistoryData, legendSet);
      WalkStep(allSeries, i, xAxisCategories, spec, conv, names, items, legend, statusHistoryData, legendSet);
    }
    assert allSeries[..|allSeries|] == allSeries;
  }

  /** The state of the walk after the first `i` series. */
  ghost predicate Walked(allSeries: seq<Series>, i: nat, xAxis: seq<int>, spec: StatusHistoryOptions, conv: Conversions,
                         names: seq<string>, items: seq<DataItem>, legendSet: seq<real>) {
    i <= |allSeries| && names == Names(allSeries[..i]) && items == Items(allSeries, i, xAxis, spec, conv)
    && legendSet == Dedupe(ItemValues(items))
  }

  /** One series more: its name is the next row, and its items follow. */
  lemma WalkStep(allSeries: seq<Series>, i: nat, xAxis: seq<int>, spec: StatusHistoryOptions, conv: Conversions,
                 names: seq<string>, items: seq<DataItem>, legendSet: seq<real>, items': seq<DataItem>, legendSet': seq<real>)
    requires i < |allSeries| && Walked(allSeries, i, xAxis, spec, conv, names, items, legendSet)
    requires items' == items + SeriesItems(allSeries[i].values, |allSeries[i].values|, |names|, xAxis, spec, conv)
    requires legendSet' == Dedupe(ItemValues(items'))
    ensures Walked(allSeries, i + 1, xAxis, spec, conv, names + [NameOf(allSeries[i])], items', legendSet')
  {
    NamesSnoc(allSeries, i);
    ItemsStep(allSeries, i, xAxis, spec, conv);
  }

  lemma NamesSnoc(series: seq<Series>, i: nat)
    requires i < |series|
    ensures Names(series[..i + 1]) == Names(series[..i]) + [NameOf(series[i])]
  {
    var a, b := Names(series[..i + 1]), Names(series[..i]) + [NameOf(series[i])];
    assert |a| == |b|;
    forall j | 0 <= j < |a| ensures a[j] == b[j] {
      if j < i {
        assert a[j] == NameOf(series[..i + 1][j]) == NameOf(series[j]);
      }
    }
  }

  /** useStatusHistoryDataModel: the series are gathered, passed through the sort as written (which
      keeps them in query order), and walked sample by sample. */
  method UseStatusHistoryDataModel(queryResults: seq<QueryResult>, themeColors: seq<string>, spec: StatusHistoryOptions,
                                   conv: Conversions) returns (m: StatusHistoryDataModel)
    requires var ts := conv.commonTimeScale(queryResults); ts.Some? ==> LoopEnds(ts.value)
    ensures m == ModelOf(queryResults, themeColors, spec, conv)
  {
    if |queryResults| == 0 {
      return StatusHistoryDataModel([], [], [], [], None, []);
    }
    var allSeries := GatherSeries(queryResults);
    if spec.sorting.Some? {
      allSeries := Sort(allSeries, AsWrittenComparator(spec.sorting.value));
    }
    assert allSeries == OrderedSeries(queryResults, spec);
    var timeScale := conv.commonTimeScale(queryResults);
    var xAxisCategories := GenerateCompleteTimestamps(timeScale);
    var yAxisCategories, statusHistoryData, legendSet := WalkSeries(allSeries, xAxisCategories, spec, conv);
    var uniqueValues := legendSet;
    DedupeNoDuplicates(ItemValues(statusHistoryData));
    var colors := Colors(uniqueValues, themeColors, spec, conv);
    var legendItems := LegendItems(uniqueValues, colors, spec, conv);
    return StatusHistoryDataModel(legendItems, statusHistoryData, xAxisCategories, yAxisCategories, timeScale, colors);
  }

  /** Without query results the model is empty. */
  lemma EmptyResultsEmptyModel(themeColors: seq<string>, spec: StatusHistoryOptions, conv: Conversions)
    requires var ts := conv.commonTimeScale([]); ts.Some? ==> LoopEnds(ts.value)
    ensures var m := ModelOf([], themeColors, spec, conv);
      m.legendItems == [] && m.statusHistoryData == [] && m.xAxisCategories == [] && m.yAxisCategories == []
      && m.colors == []
  {
  }

  /** The legend values of items: each value once, exactly the items' values, in first-seen order. */
  lemma LegendValues(items: seq<DataItem>)
    ensures var vs := ItemValues(items); var u := Dedupe(vs);
      NoDuplicates(u)
      && (forall v :: v in u <==> exists it :: it in items && it.value == v)
      && (forall i, j :: 0 <= i < j < |u| ==> FirstIndex(vs, u[i]) < FirstIndex(vs, u[j]))
  {
    var vs := ItemValues(items);
    DedupeNoDuplicates(vs);
    forall i, j | 0 <= i < j < |Dedupe(vs)| ensures FirstIndex(vs, Dedupe(vs)[i]) < FirstIndex(vs, Dedupe(vs)[j]) {
      DedupeFirstOccurrenceOrder(vs, i, j);
    }
    forall v ensures v in vs <==> exists it :: it in items && it.value == v {
      if v in vs {
        var i :| 0 <= i < |vs| && vs[i] == v;
        assert items[i] in items;
      }
      if exists it :: it in items && it.value == v {
        var it :| it in items && it.value == v;
        var i :| 0 <= i < |items| && items[i] == it;
        assert vs[i] == v;
      }
    }
  }

  /** The model's shape: one row per series, named in query order whatever the sorting, an item exactly for each non-null sample on the x
      axis, at its timestamp's position and in its series' row, and one color and one legend entry
      per distinct item value, in first-seen order. */
  lemma ModelShape(queryResults: seq<QueryResult>, themeColors: seq<string>, spec: StatusHistoryOptions, conv: Conversions)
    requires queryResults != []
    requires var ts := conv.commonTimeScale(queryResults); ts.Some? ==> LoopEnds(ts.value)
    ensures var m := ModelOf(queryResults, themeColors, spec, conv);
      var series := OrderedSeries(queryResults, spec);
      var vs := ItemValues(m.statusHistoryData);
      var u := Dedupe(vs);
      series == AllSeries(queryResults) && m.yAxisCategories == Names(AllSeries(queryResults))
      && (forall it :: it in m.statusHistoryData <==>
            exists y, k :: 0 <= y < |series| && 0 <= k < |series[y].values|
              && ItemOf(series, m.xAxisCategories, spec, conv, y, k, it))
      && |m.colors| == |u| == |m.legendItems|
      && (forall i :: 0 <= i < |u| ==> m.colors[i].value == u[i])
      && NoDuplicates(u)
      && (forall v :: v in u <==> exists it :: it in m.statusHistoryData && it.value == v)
      && (forall i, j :: 0 <= i < j < |u| ==> FirstIndex(vs, u[i]) < FirstIndex(vs, u[j]))
  {
    var m := ModelOf(queryResults, themeColors, spec, conv);
    var series := OrderedSeries(queryResults, spec);
    var vs := ItemValues(m.statusHistoryData);
    ItemsMeaning(series, |series|, m.xAxisCategories, spec, conv);
    LegendValues(m.statusHistoryData);
  }
}
