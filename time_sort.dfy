/** `values.sort((a, b) => a[0] - b[0])`: sorting samples by their timestamp, as insertion into a
    sorted prefix (the engine's own sort is not modelled, only what it guarantees). */
module TimeSort {

  predicate SortedByTime<V>(xs: seq<(real, V)>) {
    forall i, j :: 0 <= i < j < |xs| ==> xs[i].0 <= xs[j].0
  }

  /** The position after every sample of `ys` that is not later than `t`. */
  method InsertionPoint<V>(ys: seq<(real, V)>, t: real) returns (j: nat)
    requires SortedByTime(ys)
    ensures j <= |ys|
    ensures forall k :: 0 <= k < j ==> ys[k].0 <= t
    ensures forall k :: j <= k < |ys| ==> ys[k].0 > t
  {
    j := |ys|;
    while j > 0 && ys[j - 1].0 > t
      invariant j <= |ys|
      invariant forall k :: j <= k < |ys| ==> ys[k].0 > t
    {
      j := j - 1;
    }
  }

  /** The same samples in ascending timestamp order. */
  method SortByTime<V(==)>(xs: seq<(real, V)>) returns (ys: seq<(real, V)>)
    ensures SortedByTime(ys)
    ensures multiset(ys) == multiset(xs)
    ensures |ys| == |xs|
  {
    ys := [];
    for i := 0 to |xs|
      invariant SortedByTime(ys)
      invariant multiset(ys) == multiset(xs[..i])
    {
      var x := xs[i];
      var j := InsertionPoint(ys, x.0);
      assert ys == ys[..j] + ys[j..];
      ys := ys[..j] + [x] + ys[j..];
      assert xs[..i + 1] == xs[..i] + [x];
    }
    assert xs[..|xs|] == xs;
    assert |ys| == |multiset(ys)| == |multiset(xs)| == |xs|;
  }
}
