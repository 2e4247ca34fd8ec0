/** The exponential view of the histogram chart: buckets whose bounds grow as powers of a base,
    offset by the floored smallest lower bound of the linear buckets, and the redistribution of
    each linear bucket's count over the exponential buckets it overlaps, in proportion to the
    overlap. */
module HistogramBuckets {
  import opened Base

  const EmptyBuckets := "Buckets can not be empty or undefined"
  /** What reading a bucket past the end of the exponential buckets throws. */
  const MissingBucket := "Cannot read properties of undefined (reading 'ub')"
  /** A zero-width linear bucket spread over several buckets gives NaN counts. */
  const ZeroWidthSpread := "NaN count: a zero-width linear bucket spread over several buckets"

  type ExponentialBase = b: nat | b == 2 || b == 4 || b == 8 || b == 10 witness 2

  /** A linear bucket with its bounds and count parsed. */
  datatype LinearBucket = LinearBucket(lowerBound: real, upperBound: real, count: real)

  datatype Bucket = Bucket(lb: real, ub: real, count: real)

  function Pow(b: nat, n: nat): (p: nat)
    ensures p >= 1 || b == 0
  {
    if n == 0 then 1 else b * Pow(b, n - 1)
  }

  lemma {:induction false} PowGrows(b: ExponentialBase, n: nat)
    ensures Pow(b, n) >= 1 && Pow(b, n + 1) >= 2 * Pow(b, n)
  {
    if n > 0 {
      PowGrows(b, n - 1);
    }
  }

  function Floor(x: real): int {
    x.Floor
  }

  function Ceil(x: real): (c: int)
    ensures c as real >= x && (c - 1) as real < x
  {
    -((-x).Floor)
  }

  function Abs(x: real): real {
    if x < 0.0 then -x else x
  }

  /** `Math.min` of the lower bounds. */
  function MinLower(data: seq<LinearBucket>): (m: real)
    requires data != []
    ensures forall i :: 0 <= i < |data| ==> m <= data[i].lowerBound
    ensures exists i :: 0 <= i < |data| && m == data[i].lowerBound
  {
    if |data| == 1 then data[0].lowerBound
    else
      var rest := MinLower(data[1..]);
      assert forall i :: 1 <= i < |data| ==> data[i] == data[1..][i - 1];
      if data[0].lowerBound <= rest then data[0].lowerBound else rest
  }

  /** `Math.max` of the upper bounds. */
  function MaxUpper(data: seq<LinearBucket>): (m: real)
    requires data != []
    ensures forall i :: 0 <= i < |data| ==> data[i].upperBound <= m
    ensures exists i :: 0 <= i < |data| && m == data[i].upperBound
  {
    if |data| == 1 then data[0].upperBound
    else
      var rest := MaxUpper(data[1..]);
      assert forall i :: 1 <= i < |data| ==> data[i] == data[1..][i - 1];
      if data[0].upperBound >= rest then data[0].upperBound else rest
  }

  /** Exponential bucket `k` (from 1): from `min + base^(k-1)` to `min + base^k`, empty. */
  function ExpBucket(min: int, base: ExponentialBase, k: nat): Bucket
    requires k >= 1
  {
    Bucket((min + Pow(base, k - 1)) as real, (min + Pow(base, k)) as real, 0.0)
  }

  /** The bucket every generation starts with: `[0, 1)` for a zero minimum, else `[min, min + 1)`. */
  function FirstBucket(min: int): Bucket {
    if min == 0 then Bucket(0.0, 1.0, 0.0) else Bucket(min as real, (min + 1) as real, 0.0)
  }

  /** What the generation loop keeps decreasing. */
  function Remaining(min: int, max: int, base: ExponentialBase, n: nat, continueGenerating: bool): nat {
    if !continueGenerating then 0
    else if min + Pow(base, n) >= max then 1
    else max - min - Pow(base, n) + 1
  }

  lemma RemainingShrinks(min: int, max: int, base: ExponentialBase, n: nat)
    ensures min + Pow(base, n) < max ==> Remaining(min, max, base, n + 1, true) < Remaining(min, max, base, n, true)
  {
    PowGrows(base, n);
  }

  /** Exponential buckets `1 .. |r| - 1`, each starting below the maximum. */
  predicate GeneratedSoFar(r: seq<Bucket>, min: int, max: int, base: ExponentialBase) {
    forall k :: 1 <= k < |r| ==> r[k] == ExpBucket(min, base, k) && min + Pow(base, k - 1) < max
  }

  lemma PushKeepsGenerated(r: seq<Bucket>, min: int, max: int, base: ExponentialBase)
    requires |r| >= 1 && GeneratedSoFar(r, min, max, base) && min + Pow(base, |r| - 1) < max
    ensures GeneratedSoFar(r + [ExpBucket(min, base, |r|)], min, max, base)
  {
  }

  /** The generated buckets for a minimum and maximum: the first bucket, then exponential bucket
      `k` for every `k >= 1` whose lower bound is below the maximum, and no more. */
  predicate IsGenerated(r: seq<Bucket>, min: int, max: int, base: ExponentialBase) {
    |r| >= 1 && r[0] == FirstBucket(min)
    && GeneratedSoFar(r, min, max, base)
    && min + Pow(base, |r| - 1) >= max
  }

  /** generateExponentialBucketsWithOffset: no linear buckets is an error; otherwise the buckets
      offset by the floored smallest lower bound, up to the ceiled largest upper bound. */
  method GenerateExponentialBucketsWithOffset(data: seq<LinearBucket>, base: ExponentialBase) returns (r: Result<seq<Bucket>>)
    ensures data == [] <==> r.Err?
    ensures r.Err? ==> r.msg == EmptyBuckets
    ensures r.Ok? ==> IsGenerated(r.value, Floor(MinLower(data)), Ceil(MaxUpper(data)), base)
  {
    if |data| == 0 {
      return Err(EmptyBuckets);
    }
    var minLowerBound := Floor(MinLower(data));
    var maxUpperBound := Ceil(MaxUpper(data));
    var exponentialBuckets := GenerateBuckets(minLowerBound, maxUpperBound, base);
    return Ok(exponentialBuckets);
  }

  /** The generation proper: the first bucket, then one exponential bucket per round while its
      lower bound is below the maximum. */
  method GenerateBuckets(minLowerBound: int, maxUpperBound: int, base: ExponentialBase) returns (exponentialBuckets: seq<Bucket>)
    ensures IsGenerated(exponentialBuckets, minLowerBound, maxUpperBound, base)
  {
    exponentialBuckets := [];
    if minLowerBound == 0 {
      exponentialBuckets := exponentialBuckets + [Bucket(0.0, 1.0, 0.0)];
    } else {
      exponentialBuckets := exponentialBuckets + [Bucket(minLowerBound as real, (minLowerBound + 1) as real, 0.0)];
    }
    var n: nat := 0;
    var continueGenerating := true;
    while continueGenerating
      invariant GenerationState(exponentialBuckets, minLowerBound, maxUpperBound, base, n, continueGenerating)
      decreases Remaining(minLowerBound, maxUpperBound, base, n, continueGenerating)
    {
      var lb := minLowerBound + Pow(base, n);
      n := n + 1;
      var ub := minLowerBound + Pow(base, n);
      GenerationStep(exponentialBuckets, minLowerBound, maxUpperBound, base, n - 1, lb, ub);
      if lb < maxUpperBound {
        exponentialBuckets := exponentialBuckets + [Bucket(lb as real, ub as real, 0.0)];
      } else {
        continueGenerating := false;
      }
    }
  }

  /** The state of the generation loop after `n` rounds. */
  predicate GenerationState(r: seq<Bucket>, min: int, max: int, base: ExponentialBase, n: nat, continueGenerating: bool) {
    |r| >= 1 && r[0] == FirstBucket(min)
    && (continueGenerating ==> |r| == n + 1)
    && GeneratedSoFar(r, min, max, base)
    && (!continueGenerating ==> |r| == n >= 1 && min + Pow(base, n - 1) >= max)
  }

  /** One round of the generation loop keeps its state and brings it closer to the end. */
  lemma GenerationStep(r: seq<Bucket>, min: int, max: int, base: ExponentialBase, n: nat, lb: int, ub: int)
    requires GenerationState(r, min, max, base, n, true)
    requires lb == min + Pow(base, n) && ub == min + Pow(base, n + 1)
    ensures lb < max ==> GenerationState(r + [Bucket(lb as real, ub as real, 0.0)], min, max, base, n + 1, true)
    ensures lb >= max ==> GenerationState(r, min, max, base, n + 1, false)
    ensures lb < max ==> Remaining(min, max, base, n + 1, true) < Remaining(min, max, base, n, true)
  {
    RemainingShrinks(min, max, base, n);
    if min + Pow(base, n) < max {
      PushKeepsGenerated(r, min, max, base);
    }
  }

  /** Buckets without gaps: each bucket's upper bound is the next one's lower bound, and no bucket
      is inverted. */
  predicate WellFormed(s: seq<Bucket>) {
    (forall j :: 0 <= j < |s| ==> s[j].lb <= s[j].ub)
    && forall j :: 0 <= j < |s| - 1 ==> s[j].ub == s[j + 1].lb
  }

  /** Generated buckets have no gaps, start at the minimum and end at or above the maximum. */
  lemma GeneratedWellFormed(r: seq<Bucket>, min: int, max: int, base: ExponentialBase)
    requires IsGenerated(r, min, max, base)
    ensures WellFormed(r)
    ensures r[0].lb == min as real && r[|r| - 1].ub >= max as real
    ensures forall j :: 0 <= j < |r| ==> r[j].count == 0.0
  {
    forall j | 0 <= j < |r| ensures r[j].lb <= r[j].ub {
      if j >= 1 { PowGrows(base, j - 1); }
    }
  }

  /** In buckets without gaps, bounds only grow: a bucket's upper bound is at most any later
      bucket's lower bound. */
  lemma {:induction false} WellFormedMonotone(s: seq<Bucket>, i: nat, j: nat)
    requires WellFormed(s) && i < j < |s|
    ensures s[i].ub <= s[j].lb && s[i].lb <= s[j].lb
    decreases j - i
  {
    if i + 1 < j {
      WellFormedMonotone(s, i + 1, j);
    }
  }

  /** The bounds of the buckets, without their counts. */
  function Bounds(s: seq<Bucket>): (bs: seq<(real, real)>)
    ensures |bs| == |s|
  {
    seq(|s|, i requires 0 <= i < |s| => (s[i].lb, s[i].ub))
  }

  /** The sum of the counts. */
  function Total(s: seq<Bucket>): real {
    if s == [] then 0.0 else Total(s[..|s| - 1]) + s[|s| - 1].count
  }

  /** The overlap of a linear bucket with an engaged exponential bucket, unnormalised: from the
      lower bound (when it is inside) or the bucket's start to its end, and for the last engaged
      bucket from its start to the upper bound. */
  function Overlap(b: Bucket, isLast: bool, lowerBound: real, upperBound: real): real {
    if !isLast then (if lowerBound > b.lb then Abs(b.ub - lowerBound) else Abs(b.ub - b.lb))
    else Abs(upperBound - b.lb)
  }

  /** The share of the linear bucket each engaged bucket gets. */
  function Fractions(s: seq<Bucket>, engaged: seq<nat>, lin: LinearBucket): (fr: seq<real>)
    requires forall j :: 0 <= j < |engaged| ==> engaged[j] < |s|
    requires lin.lowerBound != lin.upperBound
    ensures |fr| == |engaged|
  {
    seq(|engaged|, idx requires 0 <= idx < |engaged| =>
      Overlap(s[engaged[idx]], idx == |engaged| - 1, lin.lowerBound, lin.upperBound)
        / Abs(lin.upperBound - lin.lowerBound))
  }

  /** Bucket `e` with `share` added to its count. */
  function AddShare(t: seq<Bucket>, e: nat, share: real): (r: seq<Bucket>)
    requires e < |t|
    ensures Bounds(r) == Bounds(t)
  {
    var r := t[e := t[e].(count := t[e].count + share)];
    assert Bounds(r) == Bounds(t) by {
      forall i | 0 <= i < |r| ensures Bounds(r)[i] == Bounds(t)[i] {
      }
    }
    r
  }

  /** Adding a share to one bucket adds it to the total. */
  lemma {:induction false} AddShareTotal(t: seq<Bucket>, e: nat, share: real)
    requires e < |t|
    ensures Total(AddShare(t, e, share)) == Total(t) + share
  {
    var r := AddShare(t, e, share);
    if e < |t| - 1 {
      assert r[..|r| - 1] == AddShare(t[..|t| - 1], e, share);
      AddShareTotal(t[..|t| - 1], e, share);
    } else {
      assert r[..|r| - 1] == t[..|t| - 1];
    }
  }

  /** The buckets after the first `n` engaged buckets got their share of `count`. */
  function AddShares(s: seq<Bucket>, engaged: seq<nat>, fr: seq<real>, count: real, n: nat): (r: seq<Bucket>)
    requires forall j :: 0 <= j < |engaged| ==> engaged[j] < |s|
    requires n <= |engaged| == |fr|
    ensures Bounds(r) == Bounds(s)
  {
    if n == 0 then s
    else AddShare(AddShares(s, engaged, fr, count, n - 1), engaged[n - 1], fr[n - 1] * count)
  }

  /** One engaged bucket more gets its share. */
  lemma AddSharesStep(s: seq<Bucket>, engaged: seq<nat>, fr: seq<real>, count: real, n: nat)
    requires forall j :: 0 <= j < |engaged| ==> engaged[j] < |s|
    requires n < |engaged| == |fr|
    ensures AddShares(s, engaged, fr, count, n + 1) == AddShare(AddShares(s, engaged, fr, count, n), engaged[n], fr[n] * count)
  {
  }

  /** The buckets after the linear bucket's count is spread over the engaged buckets. */
  function Redistributed(s: seq<Bucket>, lin: LinearBucket, engaged: seq<nat>): seq<Bucket>
    requires forall j :: 0 <= j < |engaged| ==> engaged[j] < |s|
    requires lin.lowerBound != lin.upperBound
  {
    AddShares(s, engaged, Fractions(s, engaged, lin), lin.count, |engaged|)
  }

  /** redistributeLinearBuckets: computes every engaged bucket's share first, then adds each share
      of the count to its bucket, in place. */
  method RedistributeLinearBuckets(data: seq<LinearBucket>, linearBucketIndex: nat, exponentialBuckets: array<Bucket>,
                                   engagedExponentialBucketsIndexes: seq<nat>)
    requires linearBucketIndex < |data|
    requires forall j :: 0 <= j < |engagedExponentialBucketsIndexes| ==> engagedExponentialBucketsIndexes[j] < exponentialBuckets.Length
    requires data[linearBucketIndex].lowerBound != data[linearBucketIndex].upperBound
    modifies exponentialBuckets
    ensures exponentialBuckets[..] == Redistributed(old(exponentialBuckets[..]), data[linearBucketIndex], engagedExponentialBucketsIndexes)
  {
    var lin := data[linearBucketIndex];
    var fractions := Fractions(exponentialBuckets[..], engagedExponentialBucketsIndexes, lin);
    AddSharesInPlace(exponentialBuckets, engagedExponentialBucketsIndexes, fractions, lin.count);
  }

  /** The `forEach` of redistributeLinearBuckets: each engaged bucket's count grows by its share of
      the count, in place. */
  method AddSharesInPlace(exponentialBuckets: array<Bucket>, engaged: seq<nat>, fractions: seq<real>, count: real)
    requires forall j :: 0 <= j < |engaged| ==> engaged[j] < exponentialBuckets.Length
    requires |fractions| == |engaged|
    modifies exponentialBuckets
    ensures exponentialBuckets[..] == AddShares(old(exponentialBuckets[..]), engaged, fractions, count, |engaged|)
  {
    ghost var before := exponentialBuckets[..];
    for idx := 0 to |engaged|
      invariant exponentialBuckets[..] == AddShares(before, engaged, fractions, count, idx)
    {
      var e := engaged[idx];
      var share := fractions[idx] * count;
      ghost var t := exponentialBuckets[..];
      exponentialBuckets[e] := exponentialBuckets[e].(count := exponentialBuckets[e].count + share);
      assert exponentialBuckets[..] == AddShare(t, e, share);
      AddSharesStep(before, engaged, fractions, count, idx);
    }
  }

  /** The sum of the first `n` shares of `count`. */
  function SharesSum(fr: seq<real>, count: real, n: nat): real
    requires n <= |fr|
  {
    if n == 0 then 0.0 else SharesSum(fr, count, n - 1) + fr[n - 1] * count
  }

  /** The shares of a count add up to the sum of the fractions times the count. */
  lemma {:induction false} SharesSumScaled(fr: seq<real>, count: real, n: nat)
    requires n <= |fr|
    ensures SharesSum(fr, count, n) == Sum(fr[..n]) * count
  {
    if n > 0 {
      SharesSumScaled(fr, count, n - 1);
      SumPrefixStep(fr, n - 1);
      Distribute(Sum(fr[..n - 1]), fr[n - 1], count);
    }
  }

  /** Spreading adds the shares to the total. */
  lemma {:induction false} AddSharesTotal(s: seq<Bucket>, engaged: seq<nat>, fr: seq<real>, count: real, n: nat)
    requires forall j :: 0 <= j < |engaged| ==> engaged[j] < |s|
    requires n <= |engaged| == |fr|
    ensures Total(AddShares(s, engaged, fr, count, n)) == Total(s) + SharesSum(fr, count, n)
  {
    if n > 0 {
      AddSharesTotal(s, engaged, fr, count, n - 1);
      AddShareTotal(AddShares(s, engaged, fr, count, n - 1), engaged[n - 1], fr[n - 1] * count);
    }
  }

  function Sum(xs: seq<real>): real {
    if xs == [] then 0.0 else Sum(xs[..|xs| - 1]) + xs[|xs| - 1]
  }

  lemma SumSnoc(xs: seq<real>, x: real)
    ensures Sum(xs + [x]) == Sum(xs) + x
  {
    assert (xs + [x])[..|xs|] == xs;
  }

  /** The sum of one element more of a sequence. */
  lemma SumPrefixStep(xs: seq<real>, i: nat)
    requires i < |xs|
    ensures Sum(xs[..i + 1]) == Sum(xs[..i]) + xs[i]
  {
    assert xs[..i + 1][..i] == xs[..i];
  }

  lemma Distribute(a: real, b: real, c: real)
    ensures (a + b) * c == a * c + b * c
  {
  }

  /** The engaged buckets `k .. k + m`. */
  function Span(k: nat, m: nat): (r: seq<nat>)
    ensures |r| == m + 1 && forall j :: 0 <= j <= m ==> r[j] == k + j
  {
    seq(m + 1, j requires 0 <= j <= m => k + j)
  }

  /** The sum of the first `n` unnormalised overlaps over a span. */
  function OverlapSum(s: seq<Bucket>, k: nat, m: nat, n: nat, lin: LinearBucket): real
    requires k + m < |s| && n <= m + 1
  {
    if n == 0 then 0.0
    else OverlapSum(s, k, m, n - 1, lin) + Overlap(s[k + n - 1], n - 1 == m, lin.lowerBound, lin.upperBound)
  }

  /** Over a span of at least two gap-free buckets, the first containing the lower bound and the last
      starting at or below the upper bound, the overlaps before the last add up to the distance from
      the lower bound to the end of the bucket reached. */
  lemma {:induction false} OverlapSumPrefix(s: seq<Bucket>, k: nat, m: nat, n: nat, lin: LinearBucket)
    requires WellFormed(s) && k + m < |s| && 1 <= n <= m
    requires s[k].lb <= lin.lowerBound <= s[k].ub
    ensures OverlapSum(s, k, m, n, lin) == s[k + n - 1].ub - lin.lowerBound
  {
    if n > 1 {
      OverlapSumPrefix(s, k, m, n - 1, lin);
      WellFormedMonotone(s, k, k + n - 1);
    }
  }

  /** The shares of a spread over such a span add up to one. */
  lemma FractionsSumToOne(s: seq<Bucket>, k: nat, m: nat, lin: LinearBucket)
    requires WellFormed(s) && k + m < |s| && m >= 1
    requires s[k].lb <= lin.lowerBound <= s[k].ub && s[k + m].lb <= lin.upperBound && lin.lowerBound < lin.upperBound
    ensures Sum(Fractions(s, Span(k, m), lin)) == 1.0
  {
    var fr := Fractions(s, Span(k, m), lin);
    OverlapSumWhole(s, k, m, lin);
    FractionsPrefixSum(s, k, m, m + 1, lin);
    assert fr[..m + 1] == fr;
    DivSelf(lin.upperBound - lin.lowerBound);
  }

  lemma DivSelf(d: real)
    requires d > 0.0
    ensures d / d == 1.0
  {
  }

  /** The overlaps of such a span add up to the width of the linear bucket. */
  lemma OverlapSumWhole(s: seq<Bucket>, k: nat, m: nat, lin: LinearBucket)
    requires WellFormed(s) && k + m < |s| && m >= 1
    requires s[k].lb <= lin.lowerBound <= s[k].ub && s[k + m].lb <= lin.upperBound
    ensures OverlapSum(s, k, m, m + 1, lin) == lin.upperBound - lin.lowerBound
  {
    OverlapSumPrefix(s, k, m, m, lin);
    assert s[k + m].lb == s[k + m - 1].ub;
    assert Overlap(s[k + m], true, lin.lowerBound, lin.upperBound) == lin.upperBound - s[k + m].lb;
  }

  lemma {:induction false} FractionsPrefixSum(s: seq<Bucket>, k: nat, m: nat, n: nat, lin: LinearBucket)
    requires k + m < |s| && n <= m + 1 && lin.lowerBound < lin.upperBound
    ensures Sum(Fractions(s, Span(k, m), lin)[..n]) == OverlapSum(s, k, m, n, lin) / (lin.upperBound - lin.lowerBound)
  {
    var fr := Fractions(s, Span(k, m), lin);
    var d := lin.upperBound - lin.lowerBound;
    if n > 0 {
      FractionsPrefixSum(s, k, m, n - 1, lin);
      assert fr[..n] == fr[..n - 1] + [fr[n - 1]];
      SumSnoc(fr[..n - 1], fr[n - 1]);
      DivAdd(OverlapSum(s, k, m, n - 1, lin), Overlap(s[k + n - 1], n - 1 == m, lin.lowerBound, lin.upperBound), d);
    }
  }

  lemma DivAdd(a: real, b: real, d: real)
    requires d > 0.0
    ensures a / d + b / d == (a + b) / d
  {
    var x, y := a / d, b / d;
    assert x * d == a && y * d == b;
    assert (x + y) * d == a + b;
  }

  /** The index of the exponential bucket a lower bound falls into: the last of the leading buckets
      starting at or below it, or the first bucket when none does. */
  function EquivalentIndex(s: seq<Bucket>, lowerBound: real): (eq: nat)
    ensures s != [] ==> eq < |s|
  {
    match FirstWhere(s, (b: Bucket) => lowerBound < b.lb)
    case None => if s == [] then 0 else |s| - 1
    case Some(k) => if k == 0 then 0 else k - 1
  }

  /** The first bucket from `cursor` on that reaches the upper bound. */
  function EngagedEnd(s: seq<Bucket>, cursor: nat, upperBound: real): (r: Option<nat>)
    ensures r.Some? ==>
      (cursor <= r.value < |s| && upperBound <= s[r.value].ub
       && forall j :: cursor <= j < r.value ==> upperBound > s[j].ub)
    ensures r.None? ==> forall j :: cursor <= j < |s| ==> upperBound > s[j].ub
    decreases |s| - cursor
  {
    if cursor >= |s| then None
    else if upperBound > s[cursor].ub then EngagedEnd(s, cursor + 1, upperBound)
    else Some(cursor)
  }

  /** One linear bucket placed: into the bucket of its lower bound when it fits there, else spread
      over the buckets from there to the one that reaches its upper bound. */
  function ConvertOne(s: seq<Bucket>, lin: LinearBucket): (r: Result<seq<Bucket>>)
    ensures r.Ok? ==> Bounds(r.value) == Bounds(s)
  {
    if s == [] then Err(MissingBucket)
    else
      var eq := EquivalentIndex(s, lin.lowerBound);
      if lin.upperBound <= s[eq].ub then
        Ok(AddShare(s, eq, lin.count))
      else match EngagedEnd(s, eq, lin.upperBound)
        case None => Err(MissingBucket)
        case Some(end) =>
          if lin.lowerBound == lin.upperBound then Err(ZeroWidthSpread)
          else Ok(Redistributed(s, lin, Span(eq, end - eq)))
  }

  /** Every linear bucket placed, in order, stopping at the first error. */
  function ConvertAll(s: seq<Bucket>, data: seq<LinearBucket>): (r: Result<seq<Bucket>>)
    ensures r.Ok? ==> Bounds(r.value) == Bounds(s)
    decreases |data|
  {
    if data == [] then Ok(s)
    else match ConvertOne(s, data[0])
      case Err(msg) => Err(msg)
      case Ok(t) => ConvertAll(t, data[1..])
  }

  /** The search for the equivalent bucket: the last of the leading buckets starting at or below
      the lower bound, stopping at the first that starts above it. */
  method FindEquivalentBucketIndex(exponentialBuckets: array<Bucket>, lowerBound: real) returns (equivalentBucketIndex: nat)
    ensures equivalentBucketIndex == EquivalentIndex(exponentialBuckets[..], lowerBound)
  {
    ghost var s := exponentialBuckets[..];
    equivalentBucketIndex := 0;
    var i := 0;
    while i < exponentialBuckets.Length
      invariant i <= exponentialBuckets.Length
      invariant forall j :: 0 <= j < i ==> lowerBound >= s[j].lb
      invariant equivalentBucketIndex == if i == 0 then 0 else i - 1
    {
      if lowerBound >= exponentialBuckets[i].lb {
        equivalentBucketIndex := i;
        i := i + 1;
        continue;
      }
      break;
    }
    var p := (b: Bucket) => lowerBound < b.lb;
    if i < |s| {
      assert p(s[i]);
    }
  }

  /** The walk from the equivalent bucket to the first bucket reaching the upper bound, collecting
      the indexes on the way; `None` when it runs past the last bucket, which throws. */
  method CollectEngagedIndexes(exponentialBuckets: array<Bucket>, equivalentBucketIndex: nat, upperBound: real)
    returns (engaged: Option<seq<nat>>)
    requires equivalentBucketIndex < exponentialBuckets.Length
    ensures engaged.None? <==> EngagedEnd(exponentialBuckets[..], equivalentBucketIndex, upperBound).None?
    ensures engaged.Some? ==>
      engaged.value == Span(equivalentBucketIndex, EngagedEnd(exponentialBuckets[..], equivalentBucketIndex, upperBound).value - equivalentBucketIndex)
  {
    ghost var s := exponentialBuckets[..];
    var indexes: seq<nat> := [];
    var cursor := equivalentBucketIndex;
    while true
      invariant equivalentBucketIndex <= cursor <= |s|
      invariant forall j :: equivalentBucketIndex <= j < cursor ==> upperBound > s[j].ub
      invariant indexes == Span(equivalentBucketIndex, cursor - equivalentBucketIndex)[..cursor - equivalentBucketIndex]
      decreases |s| - cursor
    {
      if cursor >= exponentialBuckets.Length {
        return None;
      }
      if upperBound > exponentialBuckets[cursor].ub {
        indexes := indexes + [cursor];
        cursor := cursor + 1;
        continue;
      }
      indexes := indexes + [cursor];
      assert EngagedEnd(s, equivalentBucketIndex, upperBound) == Some(cursor);
      return Some(indexes);
    }
  }

  /** The body of the loop over the linear buckets: one linear bucket placed, in place. */
  method PlaceLinearBucket(data: seq<LinearBucket>, index: nat, exponentialBuckets: array<Bucket>) returns (err: Option<string>)
    requires index < |data|
    modifies exponentialBuckets
    ensures err.None? <==> ConvertOne(old(exponentialBuckets[..]), data[index]).Ok?
    ensures err.Some? ==> err.value == ConvertOne(old(exponentialBuckets[..]), data[index]).msg
    ensures err.None? ==> exponentialBuckets[..] == ConvertOne(old(exponentialBuckets[..]), data[index]).value
    ensures Bounds(exponentialBuckets[..]) == Bounds(old(exponentialBuckets[..]))
  {
    var lin := data[index];
    var equivalentBucketIndex := FindEquivalentBucketIndex(exponentialBuckets, lin.lowerBound);
    if exponentialBuckets.Length == 0 {
      return Some(MissingBucket);
    }
    if lin.upperBound <= exponentialBuckets[equivalentBucketIndex].ub {
      exponentialBuckets[equivalentBucketIndex] := exponentialBuckets[equivalentBucketIndex].(
        count := exponentialBuckets[equivalentBucketIndex].count + lin.count);
      return None;
    }
    var engaged := CollectEngagedIndexes(exponentialBuckets, equivalentBucketIndex, lin.upperBound);
    if engaged.None? {
      return Some(MissingBucket);
    }
    if lin.lowerBound == lin.upperBound {
      return Some(ZeroWidthSpread);
    }
    RedistributeLinearBuckets(data, index, exponentialBuckets, engaged.value);
    return None;
  }

  /** convertLinearToExponentialBuckets: no linear buckets is an error; otherwise each linear
      bucket in turn is placed, in place; reading past the last exponential bucket throws. */
  method ConvertLinearToExponentialBuckets(data: seq<LinearBucket>, exponentialBuckets: array<Bucket>) returns (err: Option<string>)
    modifies exponentialBuckets
    ensures data == [] ==> err == Some(EmptyBuckets)
    ensures data != [] ==> (err.None? <==> ConvertAll(old(exponentialBuckets[..]), data).Ok?)
    ensures data != [] && err.Some? ==> err.value == ConvertAll(old(exponentialBuckets[..]), data).msg
    ensures err.None? ==> exponentialBuckets[..] == ConvertAll(old(exponentialBuckets[..]), data).value
    ensures Bounds(exponentialBuckets[..]) == Bounds(old(exponentialBuckets[..]))
  {
    if |data| == 0 {
      return Some(EmptyBuckets);
    }
    ghost var start := exponentialBuckets[..];
    for index := 0 to |data|
      invariant Bounds(exponentialBuckets[..]) == Bounds(start)
      invariant ConvertAll(start, data) == ConvertAll(exponentialBuckets[..], data[index..])
    {
      assert data[index..][1..] == data[index + 1..];
      err := PlaceLinearBucket(data, index, exponentialBuckets);
      if err.Some? {
        return;
      }
    }
    return None;
  }

  /** Buckets without gaps that reach from below every lower bound to above every upper bound of
      well-ordered linear buckets. */
  predicate Covers(s: seq<Bucket>, data: seq<LinearBucket>) {
    |s| >= 1 && forall i :: 0 <= i < |data| ==>
      s[0].lb <= data[i].lowerBound <= data[i].upperBound <= s[|s| - 1].ub
  }

  /** Placing a linear bucket in covering buckets never throws and adds exactly its count. */
  lemma ConvertOneTotal(s: seq<Bucket>, lin: LinearBucket)
    requires WellFormed(s) && Covers(s, [lin])
    ensures ConvertOne(s, lin).Ok? && Total(ConvertOne(s, lin).value) == Total(s) + lin.count
  {
    assert s[0].lb <= lin.lowerBound <= lin.upperBound <= s[|s| - 1].ub by { assert [lin][0] == lin; }
    var eq := EquivalentIndex(s, lin.lowerBound);
    EquivalentBucketContains(s, lin.lowerBound, lin.upperBound);
    if lin.upperBound <= s[eq].ub {
      AddShareTotal(s, eq, lin.count);
    } else {
      SpreadTotal(s, eq, lin);
    }
  }

  /** In covering buckets the equivalent bucket contains the lower bound. */
  lemma EquivalentBucketContains(s: seq<Bucket>, lowerBound: real, upperBound: real)
    requires WellFormed(s) && |s| >= 1 && s[0].lb <= lowerBound <= upperBound <= s[|s| - 1].ub
    ensures s[EquivalentIndex(s, lowerBound)].lb <= lowerBound <= s[EquivalentIndex(s, lowerBound)].ub
  {
    var p := (b: Bucket) => lowerBound < b.lb;
    match FirstWhere(s, p)
    case None =>
    case Some(k) =>
      assert k != 0;
      assert s[k - 1].ub == s[k].lb;
  }

  /** A linear bucket reaching past its equivalent bucket is spread without loss over the buckets up
      to the one reaching its upper bound. */
  lemma SpreadTotal(s: seq<Bucket>, eq: nat, lin: LinearBucket)
    requires WellFormed(s) && eq < |s|
    requires s[eq].lb <= lin.lowerBound <= s[eq].ub < lin.upperBound <= s[|s| - 1].ub
    ensures EngagedEnd(s, eq, lin.upperBound).Some?
    ensures var end := EngagedEnd(s, eq, lin.upperBound).value;
      Total(Redistributed(s, lin, Span(eq, end - eq))) == Total(s) + lin.count
  {
    var end := EngagedEnd(s, eq, lin.upperBound).value;
    assert end > eq;
    assert s[end].lb == s[end - 1].ub;
    FractionsSumToOne(s, eq, end - eq, lin);
    RedistributedTotal(s, Span(eq, end - eq), lin);
  }

  /** Shares that add up to one spread the whole count: the total grows by exactly the count. */
  lemma RedistributedTotal(s: seq<Bucket>, engaged: seq<nat>, lin: LinearBucket)
    requires forall j :: 0 <= j < |engaged| ==> engaged[j] < |s|
    requires lin.lowerBound != lin.upperBound
    requires Sum(Fractions(s, engaged, lin)) == 1.0
    ensures Total(Redistributed(s, lin, engaged)) == Total(s) + lin.count
  {
    var fr := Fractions(s, engaged, lin);
    AddSharesTotal(s, engaged, fr, lin.count, |engaged|);
    SharesSumScaled(fr, lin.count, |engaged|);
    assert fr[..|engaged|] == fr;
  }

  function TotalCount(data: seq<LinearBucket>): real {
    if data == [] then 0.0 else data[0].count + TotalCount(data[1..])
  }

  /** Placing covered linear buckets never throws, keeps every bound, and adds up their counts: the
      total count is redistributed, not lost or created. */
  lemma {:induction false} ConvertAllTotal(s: seq<Bucket>, data: seq<LinearBucket>)
    requires WellFormed(s) && Covers(s, data)
    ensures ConvertAll(s, data).Ok?
    ensures Total(ConvertAll(s, data).value) == Total(s) + TotalCount(data)
    decreases |data|
  {
    if data != [] {
      assert Covers(s, [data[0]]) by { assert data[0] == [data[0]][0]; }
      ConvertOneTotal(s, data[0]);
      var t := ConvertOne(s, data[0]).value;
      SameBoundsCover(s, t, data);
      assert Covers(t, data[1..]);
      ConvertAllTotal(t, data[1..]);
      assert ConvertAll(s, data) == ConvertAll(t, data[1..]);
    }
  }

  /** The buckets generated for linear buckets cover them, so converting those linear buckets into
      them keeps the number of buckets and their bounds, and the total of the counts is the total
      of the linear counts. */
  lemma GenerateThenConvert(data: seq<LinearBucket>, base: ExponentialBase, r: seq<Bucket>)
    requires data != [] && forall i :: 0 <= i < |data| ==> data[i].lowerBound <= data[i].upperBound
    requires IsGenerated(r, Floor(MinLower(data)), Ceil(MaxUpper(data)), base)
    ensures ConvertAll(r, data).Ok?
    ensures Bounds(ConvertAll(r, data).value) == Bounds(r)
    ensures Total(ConvertAll(r, data).value) == TotalCount(data)
  {
    GeneratedWellFormed(r, Floor(MinLower(data)), Ceil(MaxUpper(data)), base);
    ZeroTotal(r);
    ConvertAllTotal(r, data);
  }

  /** Only the bounds matter for covering. */
  lemma SameBoundsCover(s: seq<Bucket>, t: seq<Bucket>, data: seq<LinearBucket>)
    requires WellFormed(s) && Covers(s, data) && Bounds(t) == Bounds(s)
    ensures WellFormed(t) && Covers(t, data)
  {
    forall j | 0 <= j < |t| ensures t[j].lb == s[j].lb && t[j].ub == s[j].ub {
      assert Bounds(t)[j] == Bounds(s)[j];
    }
  }

  lemma {:induction false} ZeroTotal(s: seq<Bucket>)
    requires forall j :: 0 <= j < |s| ==> s[j].count == 0.0
    ensures Total(s) == 0.0
  {
    if s != [] {
      ZeroTotal(s[..|s| - 1]);
    }
  }
}
