/** The ClickHouse log query: every answer row is flattened into dotted keys, given a timestamp,
    ordered by key and rendered as one log line. */
module ClickHouseLogData {
  import opened Base
  import opened PersesCore
  import KeyOrder

  /** A JSON value of an answer row. */
  datatype Json = Null | Undefined | Num(n: real) | Str(s: string) | Bool(b: bool)
                | Arr(items: seq<Json>) | Obj(fields: seq<(string, Json)>)

  /** JavaScript truthiness (`NaN` is not modelled). */
  predicate Truthy(v: Json) {
    match v
    case Null => false
    case Undefined => false
    case Num(n) => n != 0.0
    case Str(s) => s != ""
    case Bool(b) => b
    case _ => true
  }

  /** The key of a nested entry: `parent.key`, or `key` at the top. */
  function Path(parent: string, key: string): string {
    if parent != "" then parent + "." + key else key
  }

  /** The entries of `obj` from index `from` on added to `acc`: a nested object is added entry by
      entry under its dotted key, every other value (arrays included) under its own key, a later key
      replacing the value of an equal earlier one. */
  function Flatten(obj: Json, from: nat, parent: string, acc: seq<(string, Json)>): seq<(string, Json)>
    requires obj.Obj? && from <= |obj.fields|
    decreases obj, |obj.fields| - from, 1
  {
    if from == |obj.fields| then acc
    else Flatten(obj, from + 1, parent, Step(obj, from, parent, acc))
  }

  /** The accumulator after the entry at `from`: a nested object flattened into it under the
      dotted key, any other value assigned to it. */
  function Step(obj: Json, from: nat, parent: string, acc: seq<(string, Json)>): seq<(string, Json)>
    requires obj.Obj? && from < |obj.fields|
    decreases obj, |obj.fields| - from, 0
  {
    var (k, value) := obj.fields[from];
    assert obj.fields[from] in obj.fields;
    var key := Path(parent, k);
    if value.Obj? then Flatten(value, 0, key, acc) else Assign(acc, key, value)
  }

  /** flattenObject: walks the entries of an object, descending into nested objects and assigning
      everything else into the accumulator. */
  method FlattenObject(obj: Json, parent: string, result0: seq<(string, Json)>)
    returns (result: seq<(string, Json)>)
    requires obj.Obj?
    ensures result == Flatten(obj, 0, parent, result0)
    decreases obj
  {
    result := result0;
    for i := 0 to |obj.fields|
      invariant Flatten(obj, 0, parent, result0) == Flatten(obj, i, parent, result)
    {
      var (k, value) := obj.fields[i];
      assert obj.fields[i] in obj.fields;
      var key := Path(parent, k);
      if value.Obj? {
        result := FlattenObject(value, key, result);
      } else {
        result := Assign(result, key, value);
      }
    }
  }

  predicate NoObjects(ls: seq<(string, Json)>) {
    forall i :: 0 <= i < |ls| ==> !ls[i].1.Obj?
  }

  /** Every entry of an assignment's result is the assigned one or an earlier one. */
  lemma AssignEntries<V>(ls: seq<(string, V)>, key: string, value: V, e: (string, V))
    requires e in Assign(ls, key, value)
    ensures e == (key, value) || e in ls
  {
    var r := Assign(ls, key, value);
    if e != (key, value) && key in Keys(ls) {
      var i :| 0 <= i < |r| && r[i] == e;
      assert r[i] == if ls[i].0 == key then (key, value) else ls[i];
    }
  }

  /** Assigning a leaf keeps every value a leaf. */
  lemma AssignLeaf(ls: seq<(string, Json)>, key: string, value: Json)
    requires NoObjects(ls) && !value.Obj?
    ensures NoObjects(Assign(ls, key, value))
  {
    var r := Assign(ls, key, value);
    forall i | 0 <= i < |r| ensures !r[i].1.Obj? {
      assert r[i] in r;
      AssignEntries(ls, key, value, r[i]);
    }
  }

  /** No nested object survives flattening: every value left is a leaf. */
  lemma {:induction false} FlattenLeaves(obj: Json, from: nat, parent: string, acc: seq<(string, Json)>)
    requires obj.Obj? && from <= |obj.fields|
    requires NoObjects(acc)
    ensures NoObjects(Flatten(obj, from, parent, acc))
    decreases obj, |obj.fields| - from
  {
    if from < |obj.fields| {
      var (k, value) := obj.fields[from];
      assert obj.fields[from] in obj.fields;
      if value.Obj? {
        FlattenLeaves(value, 0, Path(parent, k), acc);
      } else {
        AssignLeaf(acc, Path(parent, k), value);
      }
      FlattenLeaves(obj, from + 1, parent, Step(obj, from, parent, acc));
    }
  }

  /** Flattening keeps keys distinct. */
  lemma {:induction false} FlattenDistinct(obj: Json, from: nat, parent: string, acc: seq<(string, Json)>)
    requires obj.Obj? && from <= |obj.fields|
    requires DistinctKeys(acc)
    ensures DistinctKeys(Flatten(obj, from, parent, acc))
    decreases obj, |obj.fields| - from
  {
    if from < |obj.fields| {
      var (k, value) := obj.fields[from];
      assert obj.fields[from] in obj.fields;
      if value.Obj? {
        FlattenDistinct(value, 0, Path(parent, k), acc);
      }
      FlattenDistinct(obj, from + 1, parent, Step(obj, from, parent, acc));
    }
  }

  /** Flattening only adds keys. */
  lemma {:induction false} FlattenKeysGrow(obj: Json, from: nat, parent: string, acc: seq<(string, Json)>)
    requires obj.Obj? && from <= |obj.fields|
    ensures Keys(acc) <= Keys(Flatten(obj, from, parent, acc))
    decreases obj, |obj.fields| - from
  {
    if from < |obj.fields| {
      var (k, value) := obj.fields[from];
      assert obj.fields[from] in obj.fields;
      if value.Obj? {
        FlattenKeysGrow(value, 0, Path(parent, k), acc);
      }
      FlattenKeysGrow(obj, from + 1, parent, Step(obj, from, parent, acc));
    }
  }

  /** The `j`th entry of the object at entry `i` is a leaf. */
  predicate NestedLeaf(obj: Json, i: int, j: int)
    requires obj.Obj? && 0 <= i < |obj.fields|
  {
    obj.fields[i].1.Obj? && 0 <= j < |obj.fields[i].1.fields| && !obj.fields[i].1.fields[j].1.Obj?
  }

  /** Every leaf of the object, arrays included, and every leaf of an object nested one level down
      is present under its dotted key. */
  lemma {:induction false} FlattenKeepsLeaves(obj: Json, from: nat, parent: string, acc: seq<(string, Json)>)
    requires obj.Obj? && from <= |obj.fields|
    ensures forall i :: from <= i < |obj.fields| && !obj.fields[i].1.Obj? ==>
      Path(parent, obj.fields[i].0) in Keys(Flatten(obj, from, parent, acc))
    ensures forall i, j :: from <= i < |obj.fields| && NestedLeaf(obj, i, j) ==>
      Path(Path(parent, obj.fields[i].0), obj.fields[i].1.fields[j].0) in Keys(Flatten(obj, from, parent, acc))
    decreases obj, |obj.fields| - from
  {
    if from < |obj.fields| {
      var (k, value) := obj.fields[from];
      assert obj.fields[from] in obj.fields;
      var acc' := Step(obj, from, parent, acc);
      FlattenKeepsLeaves(obj, from + 1, parent, acc');
      FlattenKeysGrow(obj, from + 1, parent, acc');
      if value.Obj? {
        FlattenKeepsLeaves(value, 0, Path(parent, k), acc);
      }
    }
  }

  /** An object without nested objects and with distinct keys flattens to its own entries, after
      what was there. */
  lemma {:induction false} FlattenFlat(obj: Json, from: nat, acc: seq<(string, Json)>)
    requires obj.Obj? && from <= |obj.fields|
    requires NoObjects(obj.fields) && DistinctKeys(obj.fields)
    requires Keys(acc) !! Keys(obj.fields[from..])
    ensures Flatten(obj, from, "", acc) == acc + obj.fields[from..]
    decreases |obj.fields| - from
  {
    var fields := obj.fields;
    if from < |fields| {
      var acc' := acc + [fields[from]];
      FlatStep(obj, from, acc);
      FlattenFlat(obj, from + 1, acc');
      ShiftEntry(acc, fields, from);
    }
  }

  /** Moving the entry at `from` to the end of the accumulator leaves the whole unchanged. */
  lemma ShiftEntry(acc: seq<(string, Json)>, fields: seq<(string, Json)>, from: nat)
    requires from < |fields|
    ensures acc + fields[from..] == (acc + [fields[from]]) + fields[from + 1..]
  {
    assert fields[from..] == [fields[from]] + fields[from + 1..];
  }

  /** One entry of an object without nested objects and with distinct keys: it is appended to an
      accumulator that shares no key with the entries from it on, which then shares none with the
      entries after it. */
  lemma FlatStep(obj: Json, from: nat, acc: seq<(string, Json)>)
    requires obj.Obj? && from < |obj.fields|
    requires NoObjects(obj.fields) && DistinctKeys(obj.fields)
    requires Keys(acc) !! Keys(obj.fields[from..])
    ensures Step(obj, from, "", acc) == acc + [obj.fields[from]]
    ensures Keys(acc + [obj.fields[from]]) !! Keys(obj.fields[from + 1..])
  {
    var fields := obj.fields;
    var (key, value) := fields[from];
    assert key in Keys(fields[from..]) by { assert fields[from..][0] == fields[from]; }
    LookupAppend(acc, key, value);
    assert Assign(acc, key, value) == acc + [fields[from]];
    DisjointPastEntry(acc, fields, from);
  }

  /** Moving the entry at `from` of entries with distinct keys into an accumulator that shares no key
      with the entries from `from` on keeps it apart from the entries after it. */
  lemma DisjointPastEntry(acc: seq<(string, Json)>, fields: seq<(string, Json)>, from: nat)
    requires from < |fields| && DistinctKeys(fields)
    requires Keys(acc) !! Keys(fields[from..])
    ensures Keys(acc + [fields[from]]) !! Keys(fields[from + 1..])
  {
    LookupAppend(acc, fields[from].0, fields[from].1);
    assert acc + [fields[from]] == acc + [(fields[from].0, fields[from].1)];
    forall x | x in Keys(fields[from + 1..]) ensures x !in Keys(acc + [fields[from]]) {
      var i :| 0 <= i < |fields[from + 1..]| && fields[from + 1..][i].0 == x;
      assert fields[from + 1 + i].0 == x;
      assert fields[from..][i + 1].0 == x;
    }
  }

  /** The JavaScript conversions applied to values: `String` of a number. */
  datatype Conversions = Conversions(numberToString: real -> string)

  /** `${value}`: an array is its items joined by commas, `null` and `undefined` items left empty. */
  function Text(conv: Conversions, v: Json): string
    decreases v, 1
  {
    match v
    case Null => "null"
    case Undefined => "undefined"
    case Num(n) => conv.numberToString(n)
    case Str(s) => s
    case Bool(b) => if b then "true" else "false"
    case Arr(items) => Join(ItemTexts(conv, v, items), ",")
    case Obj(_) => "[object Object]"
  }

  function ItemTexts(conv: Conversions, whole: Json, items: seq<Json>): (r: seq<string>)
    requires whole.Arr? && items == whole.items
    decreases whole, 0
  {
    seq(|items|, i requires 0 <= i < |items| =>
      assert items[i] in whole.items;
      if items[i].Null? || items[i].Undefined? then "" else Text(conv, items[i]))
  }

  /** How a value is shown in a log line: `--` for an empty string, `null` and `undefined`. */
  function Shown(conv: Conversions, v: Json): (r: string)
    ensures v == Str("") || v.Null? || v.Undefined? ==> r == "--"
    ensures !(v == Str("") || v.Null? || v.Undefined?) ==> r == Text(conv, v)
  {
    if v == Str("") || v.Null? || v.Undefined? then "--" else Text(conv, v)
  }

  /** `flattened[key]` */
  function Get(ls: seq<(string, Json)>, key: string): Json {
    Lookup(ls, key).GetOr(Undefined)
  }

  /** A ClickHouse log entry: the raw timestamp value, the flattened fields ordered by key, and the line. */
  datatype ClickLogEntry = ClickLogEntry(timestamp: Json, labels: seq<(string, Json)>, line: string)

  /** The entries that make up the line: all but `Timestamp`, in order. */
  function LineEntries(ls: seq<(string, Json)>): (r: seq<(string, Json)>)
    ensures forall e :: e in r <==> e in ls && e.0 != "Timestamp"
    ensures |r| <= |ls|
  {
    if ls == [] then []
    else
      var rest := LineEntries(ls[1..]);
      assert forall e :: e in ls <==> e == ls[0] || e in ls[1..];
      if ls[0].0 != "Timestamp" then [ls[0]] + rest else rest
  }

  /** `` `<${key}> ${shown}` `` for every entry. */
  function LineParts(conv: Conversions, ls: seq<(string, Json)>): (parts: seq<string>)
    ensures |parts| == |ls|
    ensures forall i :: 0 <= i < |ls| ==> parts[i] == "<" + ls[i].0 + "> " + Shown(conv, ls[i].1)
  {
    seq(|ls|, i requires 0 <= i < |ls| => "<" + ls[i].0 + "> " + Shown(conv, ls[i].1))
  }

  /** The timestamp of a flattened row: its own `Timestamp` when truthy, else `log_time` when truthy. */
  function WithTimestamp(flattened: seq<(string, Json)>): (r: seq<(string, Json)>)
    ensures Get(r, "Timestamp") == (if !Truthy(Get(flattened, "Timestamp")) && Truthy(Get(flattened, "log_time"))
                                    then Get(flattened, "log_time") else Get(flattened, "Timestamp"))
    ensures forall k :: k != "Timestamp" ==> Lookup(r, k) == Lookup(flattened, k)
    ensures DistinctKeys(flattened) ==> DistinctKeys(r)
  {
    if !Truthy(Get(flattened, "Timestamp")) && Truthy(Get(flattened, "log_time")) then
      Assign(flattened, "Timestamp", Get(flattened, "log_time"))
    else flattened
  }

  /** The entry made of one answer row. */
  function EntryOf(conv: Conversions, row: seq<(string, Json)>): ClickLogEntry {
    var sorted := KeyOrder.SortEntries(WithTimestamp(Flatten(Obj(row), 0, "", [])));
    ClickLogEntry(Get(sorted, "Timestamp"), sorted, Join(LineParts(conv, LineEntries(sorted)), " "))
  }

  /** The mapping callback of convertStreamsToLogs: flatten, fall back to `log_time`, order by key, render. */
  method ConvertEntry(conv: Conversions, row: seq<(string, Json)>) returns (entry: ClickLogEntry)
    ensures entry == EntryOf(conv, row)
  {
    var flattened := FlattenObject(Obj(row), "", []);
    if !Truthy(Get(flattened, "Timestamp")) && Truthy(Get(flattened, "log_time")) {
      flattened := Assign(flattened, "Timestamp", Get(flattened, "log_time"));
    }
    var sortedEntry := KeyOrder.SortEntries(flattened);
    var line := Join(LineParts(conv, LineEntries(sortedEntry)), " ");
    entry := ClickLogEntry(Get(sortedEntry, "Timestamp"), sortedEntry, line);
  }

  /** What an entry holds: the `Timestamp` value, after the `log_time` fallback; every flattened
      leaf, once, ordered by key; a line with one `<key> value` part per leaf other than `Timestamp`. */
  lemma EntryShape(conv: Conversions, row: seq<(string, Json)>)
    ensures var flattened := Flatten(Obj(row), 0, "", []);
      var e := EntryOf(conv, row);
      e.timestamp == (if !Truthy(Get(flattened, "Timestamp")) && Truthy(Get(flattened, "log_time"))
                      then Get(flattened, "log_time") else Get(flattened, "Timestamp"))
      && KeyOrder.StrictlySorted(e.labels) && NoObjects(e.labels)
      && multiset(e.labels) == multiset(WithTimestamp(flattened))
      && (forall x :: x in LineEntries(e.labels) <==> x in e.labels && x.0 != "Timestamp")
  {
    var flattened := Flatten(Obj(row), 0, "", []);
    var stamped := WithTimestamp(flattened);
    var sorted := KeyOrder.SortEntries(stamped);
    FlattenDistinct(Obj(row), 0, "", []);
    FlattenLeaves(Obj(row), 0, "", []);
    KeyOrder.SortEntriesSorted(stamped);
    SortedLookup(stamped, sorted, "Timestamp");
    assert NoObjects(stamped) by {
      if !Truthy(Get(flattened, "Timestamp")) && Truthy(Get(flattened, "log_time")) {
        var v := Get(flattened, "log_time");
        assert !v.Obj? by {
          if Lookup(flattened, "log_time").Some? {
            var i :| 0 <= i < |flattened| && flattened[i] == ("log_time", Lookup(flattened, "log_time").value);
          }
        }
        forall i | 0 <= i < |stamped| ensures !stamped[i].1.Obj? {
          assert stamped[i] in stamped;
          AssignEntries(flattened, "Timestamp", v, stamped[i]);
        }
      }
    }
    assert NoObjects(sorted) by {
      forall i | 0 <= i < |sorted| ensures !sorted[i].1.Obj? {
        assert sorted[i] in multiset(stamped);
      }
    }
  }

  /** Sorting entries with distinct keys keeps the value of every key. */
  lemma SortedLookup(ls: seq<(string, Json)>, sorted: seq<(string, Json)>, key: string)
    requires DistinctKeys(ls) && multiset(sorted) == multiset(ls) && KeyOrder.StrictlySorted(sorted)
    ensures Lookup(sorted, key) == Lookup(ls, key)
  {
    if Lookup(ls, key).Some? {
      var i :| 0 <= i < |ls| && ls[i] == (key, Lookup(ls, key).value);
      assert ls[i] in multiset(sorted);
      var j :| 0 <= j < |sorted| && sorted[j] == ls[i];
      UniqueLookup(sorted, j);
    } else {
      forall j | 0 <= j < |sorted| ensures sorted[j].0 != key {
        assert sorted[j] in multiset(ls);
      }
    }
  }

  /** In a list with distinct keys the value of a key is the value of its one entry. */
  lemma UniqueLookup(ls: seq<(string, Json)>, j: nat)
    requires j < |ls| && KeyOrder.StrictlySorted(ls)
    ensures Lookup(ls, ls[j].0) == Some(ls[j].1)
  {
    var i :| 0 <= i < |ls| && ls[i] == (ls[j].0, Lookup(ls, ls[j].0).value);
    if i != j {
      KeyOrder.BelowIrreflexive(ls[j].0);
    }
  }

  /** convertStreamsToLogs: one entry per answer row, in order, and the count of rows. */
  method ConvertStreamsToLogs(conv: Conversions, rows: seq<seq<(string, Json)>>)
    returns (entries: seq<ClickLogEntry>, totalCount: nat)
    ensures |entries| == |rows| && totalCount == |rows|
    ensures forall i :: 0 <= i < |rows| ==> entries[i] == EntryOf(conv, rows[i])
  {
    entries := [];
    for i := 0 to |rows|
      invariant Mapped(rows[..i], entries, row => EntryOf(conv, row))
    {
      var entry := ConvertEntry(conv, rows[i]);
      MappedStep(rows, i, entries, row => EntryOf(conv, row), entry);
      entries := entries + [entry];
    }
    assert rows[..|rows|] == rows;
    totalCount := |entries|;
  }

  /** The fixed step of log queries, one minute. */
  const LogStepMs: real := 60000.0

  datatype LogResult = LogResult(entries: seq<ClickLogEntry>, totalCount: nat, executedQuery: Option<string>)

  /** getClickHouseLogData: a missing or empty query gives no logs and sends nothing; otherwise the
      built-in variables are replaced with a one-minute step, then the dashboard variables, and the
      answer's rows are converted. `replaceBuiltins`, `replaceVariables` and `send` stand for the
      variable replacement and the client call. */
  method GetClickHouseLogData(conv: Conversions, query: Option<string>, startMs: int, endMs: int,
                              replaceBuiltins: (string, int, int, real) -> string, replaceVariables: string -> string,
                              send: string -> seq<seq<(string, Json)>>)
    returns (r: LogResult)
    ensures query.None? || query.value == "" ==> r == LogResult([], 0, None)
    ensures query.Some? && query.value != "" ==>
      var q := replaceVariables(replaceBuiltins(query.value, startMs, endMs, LogStepMs));
      r.executedQuery == Some(q) && r.totalCount == |send(q)| == |r.entries|
      && forall i :: 0 <= i < |send(q)| ==> r.entries[i] == EntryOf(conv, send(q)[i])
  {
    if query.None? || query.value == "" {
      return LogResult([], 0, None);
    }
    var q := replaceBuiltins(query.value, startMs, endMs, LogStepMs);
    q := replaceVariables(q);
    var entries, count := ConvertStreamsToLogs(conv, send(q));
    return LogResult(entries, count, Some(q));
  }
}
