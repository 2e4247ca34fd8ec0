/** The shared data shapes of the dashboard core library that every plugin exchanges:
    label records, log entries and time series. JavaScript numbers are `real`s here. */
module PersesCore {
  import opened Base

  /** A `Record<string, string>` as its entries, in insertion order. */
  type Labels = seq<(string, string)>

  /** The value of `key` in a record: with repeated keys the last entry wins, as with
      object spread and property assignment. */
  function Lookup<V>(ls: seq<(string, V)>, key: string): (r: Option<V>)
    ensures r.Some? <==> exists i :: 0 <= i < |ls| && ls[i].0 == key
    ensures r.Some? ==> exists i :: 0 <= i < |ls| && ls[i] == (key, r.value)
  {
    if ls == [] then None
    else if ls[|ls| - 1].0 == key then Some(ls[|ls| - 1].1)
    else Lookup(ls[..|ls| - 1], key)
  }

  /** The key set of a record. */
  function Keys<V>(ls: seq<(string, V)>): set<string> {
    set i | 0 <= i < |ls| :: ls[i].0
  }

  /** No key occurs twice, as in the entries of an object. */
  predicate DistinctKeys<V>(ls: seq<(string, V)>) {
    forall i, j :: 0 <= i < j < |ls| ==> ls[i].0 != ls[j].0
  }

  /** A log timestamp: a number of seconds, or a string as some datasources deliver it. */
  datatype Timestamp = Seconds(s: real) | Text(t: string)

  datatype LogEntry = LogEntry(timestamp: Timestamp, line: string, labels: Option<Labels>)

  datatype LogsData = LogsData(entries: seq<LogEntry>, totalCount: int)

  /** A series point: timestamp and value, `None` standing for `null`. */
  type Point = (real, Option<real>)

  datatype TimeSeries = TimeSeries(name: string, values: seq<Point>, labels: Option<Labels>)

  /** `record[key] = value`: an existing key keeps its place and takes the new value, a new key goes last. */
  function Assign<V>(ls: seq<(string, V)>, key: string, value: V): (r: seq<(string, V)>)
    ensures Lookup(r, key) == Some(value)
    ensures forall k :: k != key ==> Lookup(r, k) == Lookup(ls, k)
    ensures Keys(r) == Keys(ls) + {key}
    ensures DistinctKeys(ls) ==> DistinctKeys(r)
  {
    if key in Keys(ls) then
      var r := seq(|ls|, i requires 0 <= i < |ls| => if ls[i].0 == key then (key, value) else ls[i]);
      AssignInPlace(ls, key, value, r);
      r
    else
      LookupAppend(ls, key, value);
      ls + [(key, value)]
  }

  lemma {:induction false} AssignInPlace<V>(ls: seq<(string, V)>, key: string, value: V, r: seq<(string, V)>)
    requires key in Keys(ls)
    requires |r| == |ls| && forall i :: 0 <= i < |ls| ==> r[i] == if ls[i].0 == key then (key, value) else ls[i]
    ensures Lookup(r, key) == Some(value)
    ensures forall k :: k != key ==> Lookup(r, k) == Lookup(ls, k)
    ensures Keys(r) == Keys(ls)
    ensures DistinctKeys(ls) ==> DistinctKeys(r)
  {
    assert forall i :: 0 <= i < |ls| ==> r[i].0 == ls[i].0;
    var n := |ls| - 1;
    var init, rinit := ls[..n], r[..n];
    if ls[n].0 == key {
      assert Lookup(r, key) == Some(value);
    } else {
      var i :| 0 <= i < |ls| && ls[i].0 == key;
      assert key in Keys(init) by { assert init[i].0 == key; }
      AssignInPlace(init, key, value, rinit);
    }
    forall k | k != key ensures Lookup(r, k) == Lookup(ls, k) {
      if ls[n].0 != k {
        if ls[n].0 == key {
          if key in Keys(init) {
            AssignInPlace(init, key, value, rinit);
          } else {
            AssignNoKey(init, key, value, rinit);
          }
        } else {
          var i :| 0 <= i < |ls| && ls[i].0 == key;
          assert key in Keys(init) by { assert init[i].0 == key; }
          AssignInPlace(init, key, value, rinit);
        }
      }
    }
    forall x ensures x in Keys(r) <==> x in Keys(ls) {
      if x in Keys(r) {
        var i :| 0 <= i < |r| && r[i].0 == x;
        assert ls[i].0 == x;
      }
      if x in Keys(ls) {
        var i :| 0 <= i < |ls| && ls[i].0 == x;
        assert r[i].0 == x;
      }
    }
  }

  lemma {:induction false} AssignNoKey<V>(ls: seq<(string, V)>, key: string, value: V, r: seq<(string, V)>)
    requires key !in Keys(ls)
    requires |r| == |ls| && forall i :: 0 <= i < |ls| ==> r[i] == if ls[i].0 == key then (key, value) else ls[i]
    ensures r == ls
  {
    forall i | 0 <= i < |ls| ensures r[i] == ls[i] {
      assert ls[i].0 in Keys(ls);
    }
  }

  lemma LookupAppend<V>(ls: seq<(string, V)>, key: string, value: V)
    ensures Lookup(ls + [(key, value)], key) == Some(value)
    ensures forall k :: k != key ==> Lookup(ls + [(key, value)], k) == Lookup(ls, k)
    ensures Keys(ls + [(key, value)]) == Keys(ls) + {key}
    ensures DistinctKeys(ls) && key !in Keys(ls) ==> DistinctKeys(ls + [(key, value)])
  {
    var r := ls + [(key, value)];
    assert r[..|ls|] == ls;
    forall x ensures x in Keys(r) <==> x in Keys(ls) + {key} {
      if x in Keys(r) {
        var i :| 0 <= i < |r| && r[i].0 == x;
        if i < |ls| { assert ls[i].0 == x; }
      }
      if x in Keys(ls) {
        var i :| 0 <= i < |ls| && ls[i].0 == x;
        assert r[i].0 == x;
      }
      if x == key { assert r[|ls|].0 == x; }
    }
  }

  /** `delete record[key]`: every entry of that key removed, the others kept in order. */
  function Delete<V(!new)>(ls: seq<(string, V)>, key: string): (r: seq<(string, V)>)
    ensures forall e :: e in r <==> e in ls && e.0 != key
    ensures |r| <= |ls|
  {
    if ls == [] then []
    else
      var init, last := ls[..|ls| - 1], ls[|ls| - 1];
      assert forall e :: e in ls <==> e in init || e == last;
      if last.0 == key then Delete(init, key) else Delete(init, key) + [last]
  }

  /** After deleting a key it has no value and every other key keeps its value. */
  lemma {:induction false} DeleteLookup<V(!new)>(ls: seq<(string, V)>, key: string, k: string)
    ensures Lookup(Delete(ls, key), k) == if k == key then None else Lookup(ls, k)
  {
    if ls != [] {
      var init, last := ls[..|ls| - 1], ls[|ls| - 1];
      DeleteLookup(init, key, k);
      if last.0 != key {
        var rest := Delete(init, key);
        assert Delete(ls, key) == rest + [last];
        assert Lookup(rest + [last], k) == if last.0 == k then Some(last.1) else Lookup(rest, k) by {
          LookupAppend(rest, last.0, last.1);
        }
      }
    }
  }

  /** Deleting removes exactly the deleted key from the key set. */
  lemma DeleteKeys<V(!new)>(ls: seq<(string, V)>, key: string)
    ensures Keys(Delete(ls, key)) == Keys(ls) - {key}
  {
    var r := Delete(ls, key);
    forall x ensures x in Keys(r) <==> x in Keys(ls) && x != key {
      DeleteLookup(ls, key, x);
    }
  }

  /** Deleting keeps keys distinct. */
  lemma {:induction false} DeleteDistinct<V(!new)>(ls: seq<(string, V)>, key: string)
    requires DistinctKeys(ls)
    ensures DistinctKeys(Delete(ls, key))
  {
    if ls != [] {
      var init, last := ls[..|ls| - 1], ls[|ls| - 1];
      DeleteDistinct(init, key);
      if last.0 != key {
        var rest := Delete(init, key);
        DeleteKeys(init, key);
        LookupAppend(rest, last.0, last.1);
      }
    }
  }

  /** Deleting a key that is not there changes nothing. */
  lemma {:induction false} DeleteAbsent<V(!new)>(ls: seq<(string, V)>, key: string)
    requires key !in Keys(ls)
    ensures Delete(ls, key) == ls
  {
    if ls != [] {
      var init, last := ls[..|ls| - 1], ls[|ls| - 1];
      assert last.0 in Keys(ls);
      KeysSnoc(init, last);
      assert ls == init + [last];
      DeleteAbsent(init, key);
    }
  }

  lemma KeysSnoc<V>(init: seq<(string, V)>, last: (string, V))
    ensures Keys(init + [last]) == Keys(init) + {last.0}
  {
    LookupAppend(init, last.0, last.1);
  }
}
