/** Sorting the entries of a record by key, as `keys.sort((a, b) => a.localeCompare(b))` does; keys are
    compared character by character (locale collation is not modelled, only that it is a strict total order). */
module KeyOrder {
  import opened PersesCore

  /** `a` sorts strictly before `b`: at the first differing character `a`'s is smaller, or `a` is a proper prefix of `b`. */
  predicate Below(a: string, b: string)
    decreases |a|
  {
    if a == [] then b != []
    else b != [] && (a[0] < b[0] || (a[0] == b[0] && Below(a[1..], b[1..])))
  }

  lemma {:induction false} BelowIrreflexive(a: string)
    ensures !Below(a, a)
    decreases |a|
  {
    if a != [] {
      BelowIrreflexive(a[1..]);
    }
  }

  lemma {:induction false} BelowAsymmetric(a: string, b: string)
    ensures !(Below(a, b) && Below(b, a))
    decreases |a|
  {
    if a != [] && b != [] && a[0] == b[0] {
      BelowAsymmetric(a[1..], b[1..]);
    }
  }

  lemma {:induction false} BelowTotal(a: string, b: string)
    requires a != b
    ensures Below(a, b) || Below(b, a)
    decreases |a|
  {
    if a != [] && b != [] && a[0] == b[0] {
      assert a == [a[0]] + a[1..] && b == [b[0]] + b[1..];
      BelowTotal(a[1..], b[1..]);
    }
  }

  lemma {:induction false} BelowTransitive(a: string, b: string, c: string)
    requires Below(a, b) && Below(b, c)
    ensures Below(a, c)
    decreases |a|
  {
    if a != [] && a[0] == b[0] && b[0] == c[0] {
      BelowTransitive(a[1..], b[1..], c[1..]);
    }
  }

  /** Keys strictly ascending. */
  predicate StrictlySorted<V>(s: seq<(string, V)>) {
    forall i, j :: 0 <= i < j < |s| ==> Below(s[i].0, s[j].0)
  }

  /** `e` inserted before the first entry whose key does not sort before its own. */
  function InsertEntry<V>(e: (string, V), s: seq<(string, V)>): (r: seq<(string, V)>)
    ensures multiset(r) == multiset(s) + multiset{e}
  {
    if s == [] then [e]
    else if Below(s[0].0, e.0) then
      assert s == [s[0]] + s[1..];
      [s[0]] + InsertEntry(e, s[1..])
    else [e] + s
  }

  /** The entries ordered by key. */
  function SortEntries<V>(ls: seq<(string, V)>): (r: seq<(string, V)>)
    ensures multiset(r) == multiset(ls)
  {
    if ls == [] then []
    else
      assert ls == ls[..|ls| - 1] + [ls[|ls| - 1]];
      InsertEntry(ls[|ls| - 1], SortEntries(ls[..|ls| - 1]))
  }

  /** An entry whose key sorts before every key of a strictly ascending list can go in front of it. */
  lemma ConsSorted<V>(x: (string, V), s: seq<(string, V)>)
    requires StrictlySorted(s)
    requires forall k :: 0 <= k < |s| ==> Below(x.0, s[k].0)
    ensures StrictlySorted([x] + s)
  {
    var r := [x] + s;
    forall i, j | 0 <= i < j < |r| ensures Below(r[i].0, r[j].0) {
      assert r[j] == s[j - 1];
      if i > 0 {
        assert r[i] == s[i - 1];
      }
    }
  }

  lemma {:induction false} InsertEntrySorted<V>(e: (string, V), s: seq<(string, V)>)
    requires StrictlySorted(s)
    requires forall i :: 0 <= i < |s| ==> s[i].0 != e.0
    ensures StrictlySorted(InsertEntry(e, s))
  {
    if s != [] {
      if Below(s[0].0, e.0) {
        var tail := s[1..];
        InsertEntrySorted(e, tail);
        var rt := InsertEntry(e, tail);
        forall k | 0 <= k < |rt| ensures Below(s[0].0, rt[k].0) {
          var x := rt[k];
          assert x in multiset(rt);
          assert x in multiset(tail) + multiset{e};
          if x in multiset(tail) {
            var i :| 0 <= i < |tail| && tail[i] == x;
            assert s[i + 1] == x;
          }
        }
        ConsSorted(s[0], rt);
      } else {
        BelowTotal(e.0, s[0].0);
        forall k | 0 <= k < |s| ensures Below(e.0, s[k].0) {
          if k > 0 {
            BelowTransitive(e.0, s[0].0, s[k].0);
          }
        }
        ConsSorted(e, s);
      }
    }
  }

  /** Sorting entries with distinct keys gives strictly ascending keys. */
  lemma {:induction false} SortEntriesSorted<V>(ls: seq<(string, V)>)
    requires DistinctKeys(ls)
    ensures StrictlySorted(SortEntries(ls))
  {
    if ls != [] {
      var init := ls[..|ls| - 1];
      var e := ls[|ls| - 1];
      assert DistinctKeys(init);
      SortEntriesSorted(init);
      var s := SortEntries(init);
      forall i | 0 <= i < |s| ensures s[i].0 != e.0 {
        assert s[i] in multiset(init);
        var j :| 0 <= j < |init| && init[j] == s[i];
        assert ls[j] == s[i];
      }
      InsertEntrySorted(e, s);
    }
  }

  /** Two strictly ascending entry lists with the same entries are the same list. */
  lemma {:induction false} SortedUnique<V>(a: seq<(string, V)>, b: seq<(string, V)>)
    requires StrictlySorted(a) && StrictlySorted(b)
    requires forall x :: x in a <==> x in b
    ensures a == b
  {
    assert a != [] ==> a[0] in a;
    assert b != [] ==> b[0] in b;
    if a == [] || b == [] {
    } else {
      if a[0] != b[0] {
        assert a[0] in b;
        var j :| 0 <= j < |b| && b[j] == a[0];
        assert b[0] in a;
        var i :| 0 <= i < |a| && a[i] == b[0];
        BelowAsymmetric(a[0].0, b[0].0);
        assert false;
      }
      forall x ensures x in a[1..] <==> x in b[1..] {
        if x in a[1..] {
          var i :| 1 <= i < |a| && a[i] == x;
          BelowIrreflexive(a[0].0);
          assert x != a[0];
          assert x in b;
        }
        if x in b[1..] {
          var j :| 1 <= j < |b| && b[j] == x;
          BelowIrreflexive(b[0].0);
          assert x != b[0];
          assert x in a;
        }
      }
      SortedUnique(a[1..], b[1..]);
      assert a == [a[0]] + a[1..] && b == [b[0]] + b[1..];
    }
  }

  /** Records with the same sorted entries hold the same entries. */
  lemma SameSortedSameEntries<V>(a: seq<(string, V)>, b: seq<(string, V)>)
    requires SortEntries(a) == SortEntries(b)
    ensures forall x :: x in a <==> x in b
  {
    forall x ensures x in a <==> x in b {
      assert x in a <==> x in multiset(a);
      assert x in b <==> x in multiset(b);
    }
  }

  /** Records with distinct keys and the same entries sort to the same list, whatever order they were built in. */
  lemma SameEntriesSameSorted<V>(a: seq<(string, V)>, b: seq<(string, V)>)
    requires DistinctKeys(a) && DistinctKeys(b)
    requires forall x :: x in a <==> x in b
    ensures SortEntries(a) == SortEntries(b)
  {
    var sa, sb := SortEntries(a), SortEntries(b);
    SortEntriesSorted(a);
    SortEntriesSorted(b);
    forall x ensures x in sa <==> x in sb {
      assert x in sa <==> x in multiset(a);
      assert x in sb <==> x in multiset(b);
    }
    SortedUnique(sa, sb);
  }

  /** Records with distinct keys sort to the same entries exactly when they hold the same entries. */
  lemma SortEntriesOrderFree<V>(a: seq<(string, V)>, b: seq<(string, V)>)
    requires DistinctKeys(a) && DistinctKeys(b)
    ensures SortEntries(a) == SortEntries(b) <==> forall x :: x in a <==> x in b
  {
    if SortEntries(a) == SortEntries(b) {
      SameSortedSameEntries(a, b);
    }
    if forall x :: x in a <==> x in b {
      SameEntriesSameSorted(a, b);
    }
  }
}
