/** What the SQL macro substitution does to the queries it is given: queries without macros,
    each macro form, and the time filter. */
module SqlVariablesProps {
  import opened Base
  import opened SqlVariables

  /** A query with no `$` is returned unchanged by both variants. */
  lemma NoMacrosUnchanged(query: string, isoString: int -> string, timeRange: AbsoluteTimeRange, intervalMs: int)
    requires '$' !in query
    ensures ReplaceSqlBuiltinVariables(query, isoString, timeRange, intervalMs) == query
    ensures ReplaceSqlBuiltinVariablesUnix(query, timeRange, intervalMs) == query
  {
    var from := "'" + isoString(timeRange.startMs) + "'";
    var to := "'" + isoString(timeRange.endMs) + "'";
    ReplaceMacroNoDollar(query, "$__timeFrom", true, from);
    ReplaceMacroNoDollar(query, "${__timeFrom}", false, from);
    ReplaceMacroNoDollar(query, "$__timeTo", true, to);
    ReplaceMacroNoDollar(query, "${__timeTo}", false, to);
    ReplaceMacroNoDollar(query, "$__interval", true, IntToString(IntervalSeconds(intervalMs)));
    ReplaceMacroNoDollar(query, "${__interval}", false, IntToString(IntervalSeconds(intervalMs)));
    ReplaceMacroNoDollar(query, "$__interval_ms", true, IntToString(intervalMs));
    ReplaceMacroNoDollar(query, "${__interval_ms}", false, IntToString(intervalMs));
    ReplaceTimeFilterNoDollar(query, column => column + " BETWEEN " + from + " AND " + to);
    var fromU := IntToString(timeRange.startMs / 1000);
    var toU := IntToString(timeRange.endMs / 1000);
    ReplaceMacroNoDollar(query, "$__timeFrom", true, fromU);
    ReplaceMacroNoDollar(query, "${__timeFrom}", false, fromU);
    ReplaceMacroNoDollar(query, "$__timeTo", true, toU);
    ReplaceMacroNoDollar(query, "${__timeTo}", false, toU);
    ReplaceTimeFilterNoDollar(query, column => column + " BETWEEN " + fromU + " AND " + toU);
  }

  /** The decimal rendering of an integer holds no `$`. */
  lemma IntToStringNoDollar(n: int)
    ensures '$' !in IntToString(n)
  {
    var r := IntToString(n);
    assert forall i :: 0 <= i < |r| ==> r[i] == '-' || '0' <= r[i] <= '9';
  }

  /** `$__timeFrom` becomes the quoted start time. */
  lemma TimeFromForm(isoString: int -> string, timeRange: AbsoluteTimeRange, intervalMs: int)
    requires '$' !in isoString(timeRange.startMs)
    ensures ReplaceSqlBuiltinVariables("$__timeFrom", isoString, timeRange, intervalMs) == "'" + isoString(timeRange.startMs) + "'"
  {
    var from := "'" + isoString(timeRange.startMs) + "'";
    var to := "'" + isoString(timeRange.endMs) + "'";
    var secs, ms := IntToString(IntervalSeconds(intervalMs)), IntToString(intervalMs);
    assert '$' !in from;
    ReplaceMacroWhole("$__timeFrom", true, from);
    ReplaceMacroNoDollar(from, "${__timeFrom}", false, from);
    ReplaceMacroNoDollar(from, "$__timeTo", true, to);
    ReplaceMacroNoDollar(from, "${__timeTo}", false, to);
    ReplaceMacroNoDollar(from, "$__interval", true, secs);
    ReplaceMacroNoDollar(from, "${__interval}", false, secs);
    ReplaceMacroNoDollar(from, "$__interval_ms", true, ms);
    ReplaceMacroNoDollar(from, "${__interval_ms}", false, ms);
    ReplaceTimeFilterNoDollar(from, column => column + " BETWEEN " + from + " AND " + to);
  }

  /** `${__timeFrom}` becomes the quoted start time too. */
  lemma BracedTimeFromForm(isoString: int -> string, timeRange: AbsoluteTimeRange, intervalMs: int)
    requires '$' !in isoString(timeRange.startMs)
    ensures ReplaceSqlBuiltinVariables("${__timeFrom}", isoString, timeRange, intervalMs) == "'" + isoString(timeRange.startMs) + "'"
  {
    var from := "'" + isoString(timeRange.startMs) + "'";
    var to := "'" + isoString(timeRange.endMs) + "'";
    var secs, ms := IntToString(IntervalSeconds(intervalMs)), IntToString(intervalMs);
    var q := "${__timeFrom}";
    assert '$' !in from;
    ReplaceMacroMiss(q, "$__timeFrom", true, from, 1);
    ReplaceMacroWhole(q, false, from);
    ReplaceMacroNoDollar(from, "$__timeTo", true, to);
    ReplaceMacroNoDollar(from, "${__timeTo}", false, to);
    ReplaceMacroNoDollar(from, "$__interval", true, secs);
    ReplaceMacroNoDollar(from, "${__interval}", false, secs);
    ReplaceMacroNoDollar(from, "$__interval_ms", true, ms);
    ReplaceMacroNoDollar(from, "${__interval_ms}", false, ms);
    ReplaceTimeFilterNoDollar(from, column => column + " BETWEEN " + from + " AND " + to);
  }

  /** `$__interval` becomes the whole seconds of the interval. */
  lemma IntervalForm(isoString: int -> string, timeRange: AbsoluteTimeRange, intervalMs: int)
    requires '$' !in isoString(timeRange.startMs) && '$' !in isoString(timeRange.endMs)
    ensures ReplaceSqlBuiltinVariables("$__interval", isoString, timeRange, intervalMs) == IntToString(intervalMs / 1000)
  {
    IntervalFormOf("$__interval", isoString, timeRange, intervalMs);
  }

  lemma IntervalFormOf(q: string, isoString: int -> string, timeRange: AbsoluteTimeRange, intervalMs: int)
    requires q == "$__interval"
    requires '$' !in isoString(timeRange.startMs) && '$' !in isoString(timeRange.endMs)
    ensures ReplaceSqlBuiltinVariables(q, isoString, timeRange, intervalMs) == IntToString(intervalMs / 1000)
  {
    var from := "'" + isoString(timeRange.startMs) + "'";
    var to := "'" + isoString(timeRange.endMs) + "'";
    var secs, ms := IntToString(IntervalSeconds(intervalMs)), IntToString(intervalMs);
    IntToStringNoDollar(IntervalSeconds(intervalMs));
    IntToStringNoDollar(intervalMs);
    assert '$' !in from && '$' !in to;
    ReplaceMacroMiss(q, "$__timeFrom", true, from, 3);
    ReplaceMacroMiss(q, "${__timeFrom}", false, from, 1);
    ReplaceMacroMiss(q, "$__timeTo", true, to, 3);
    ReplaceMacroMiss(q, "${__timeTo}", false, to, 1);
    ReplaceMacroWhole(q, true, secs);
    ChainHitsAt(q, from, to, secs, ms, 4, secs);
    FilterLeavesResult(q, isoString, timeRange, intervalMs, secs);
  }

  /** `$__interval_ms` is not taken for `$__interval` (a word character follows it): it becomes the milliseconds. */
  lemma IntervalMsForm(isoString: int -> string, timeRange: AbsoluteTimeRange, intervalMs: int)
    requires '$' !in isoString(timeRange.startMs) && '$' !in isoString(timeRange.endMs)
    ensures ReplaceSqlBuiltinVariables("$__interval_ms", isoString, timeRange, intervalMs) == IntToString(intervalMs)
  {
    IntervalMsFormOf("$__interval_ms", isoString, timeRange, intervalMs);
  }

  lemma IntervalMsFormOf(q: string, isoString: int -> string, timeRange: AbsoluteTimeRange, intervalMs: int)
    requires q == "$__interval_ms"
    requires '$' !in isoString(timeRange.startMs) && '$' !in isoString(timeRange.endMs)
    ensures ReplaceSqlBuiltinVariables(q, isoString, timeRange, intervalMs) == IntToString(intervalMs)
  {
    var from := "'" + isoString(timeRange.startMs) + "'";
    var to := "'" + isoString(timeRange.endMs) + "'";
    var secs, ms := IntToString(IntervalSeconds(intervalMs)), IntToString(intervalMs);
    IntToStringNoDollar(IntervalSeconds(intervalMs));
    IntToStringNoDollar(intervalMs);
    assert '$' !in from && '$' !in to;
    ReplaceMacroMiss(q, "$__timeFrom", true, from, 3);
    ReplaceMacroMiss(q, "${__timeFrom}", false, from, 1);
    ReplaceMacroMiss(q, "$__timeTo", true, to, 3);
    ReplaceMacroMiss(q, "${__timeTo}", false, to, 1);
    IntervalSkipsIntervalMs(q, secs);
    ReplaceMacroMiss(q, "${__interval}", false, secs, 1);
    ReplaceMacroWhole(q, true, ms);
    ChainHitsAt(q, from, to, secs, ms, 6, ms);
    FilterLeavesResult(q, isoString, timeRange, intervalMs, ms);
  }

  /** `$__interval` followed by a word character is left alone. */
  lemma IntervalSkipsIntervalMs(q: string, secs: string)
    requires q == "$__interval_ms" && '$' !in secs
    ensures ReplaceMacro(q, "$__interval", true, secs) == q
  {
    assert IsWordChar(q[|"$__interval"|]);
    ReplaceMacroNoDollar(q[1..], "$__interval", true, secs);
  }

  /** In the Unix variant `$__timeFrom` becomes the start time in whole epoch seconds, unquoted. */
  lemma UnixTimeFromForm(timeRange: AbsoluteTimeRange, intervalMs: int)
    ensures ReplaceSqlBuiltinVariablesUnix("$__timeFrom", timeRange, intervalMs) == IntToString(timeRange.startMs / 1000)
  {
    UnixTimeFromFormOf("$__timeFrom", timeRange, intervalMs);
  }

  lemma UnixTimeFromFormOf(q: string, timeRange: AbsoluteTimeRange, intervalMs: int)
    requires q == "$__timeFrom"
    ensures ReplaceSqlBuiltinVariablesUnix(q, timeRange, intervalMs) == IntToString(timeRange.startMs / 1000)
  {
    var from, to := IntToString(timeRange.startMs / 1000), IntToString(timeRange.endMs / 1000);
    var secs, ms := IntToString(IntervalSeconds(intervalMs)), IntToString(intervalMs);
    IntToStringNoDollar(timeRange.startMs / 1000);
    IntToStringNoDollar(timeRange.endMs / 1000);
    IntToStringNoDollar(IntervalSeconds(intervalMs));
    IntToStringNoDollar(intervalMs);
    ReplaceMacroWhole(q, true, from);
    ChainHitsAt(q, from, to, secs, ms, 0, from);
    UnixFilterLeavesResult(q, timeRange, intervalMs, from);
  }

  /** `$__timeFilter(col)` becomes `col BETWEEN 'from' AND 'to'` for a column of word characters. */
  lemma TimeFilterForm(isoString: int -> string, timeRange: AbsoluteTimeRange, intervalMs: int, column: string)
    requires column != [] && forall i :: 0 <= i < |column| ==> IsWordChar(column[i])
    ensures ReplaceSqlBuiltinVariables("$__timeFilter(" + column + ")", isoString, timeRange, intervalMs)
            == column + " BETWEEN '" + isoString(timeRange.startMs) + "' AND '" + isoString(timeRange.endMs) + "'"
  {
    TimeFilterFormOf("$__timeFilter(" + column + ")", isoString, timeRange, intervalMs, column);
  }

  lemma TimeFilterFormOf(q: string, isoString: int -> string, timeRange: AbsoluteTimeRange, intervalMs: int, column: string)
    requires column != [] && forall i :: 0 <= i < |column| ==> IsWordChar(column[i])
    requires q == "$__timeFilter(" + column + ")"
    ensures ReplaceSqlBuiltinVariables(q, isoString, timeRange, intervalMs)
            == column + " BETWEEN '" + isoString(timeRange.startMs) + "' AND '" + isoString(timeRange.endMs) + "'"
  {
    var from := "'" + isoString(timeRange.startMs) + "'";
    var to := "'" + isoString(timeRange.endMs) + "'";
    var render := column => column + " BETWEEN " + from + " AND " + to;
    TimeFilterSurvivesChain(q, column, from, to, IntToString(IntervalSeconds(intervalMs)), IntToString(intervalMs));
    TimeFilterRendered(q, column, render);
    assert ReplaceSqlBuiltinVariables(q, isoString, timeRange, intervalMs) == render(column);
    BetweenQuoted(column, isoString(timeRange.startMs), isoString(timeRange.endMs));
  }

  /** The rendered filter with the quotes around both times written out. */
  lemma BetweenQuoted(column: string, from: string, to: string)
    ensures column + " BETWEEN " + ("'" + from + "'") + " AND " + ("'" + to + "'")
            == column + " BETWEEN '" + from + "' AND '" + to + "'"
  {
  }

  /** No macro of the chain occurs in `$__timeFilter(col)`. */
  lemma TimeFilterSurvivesChain(q: string, column: string, from: string, to: string, secs: string, ms: string)
    requires column != [] && forall i :: 0 <= i < |column| ==> IsWordChar(column[i])
    requires q == "$__timeFilter(" + column + ")"
    ensures ReplaceTimesAndInterval(q, from, to, secs, ms) == q
  {
    TimeFilterShape(q, column);
    ReplaceMacroMiss(q, "$__timeFrom", true, from, 8);
    ReplaceMacroMiss(q, "${__timeFrom}", false, from, 1);
    ReplaceMacroMiss(q, "$__timeTo", true, to, 7);
    ReplaceMacroMiss(q, "${__timeTo}", false, to, 1);
    ReplaceMacroMiss(q, "$__interval", true, secs, 3);
    ReplaceMacroMiss(q, "${__interval}", false, secs, 1);
    ReplaceMacroMiss(q, "$__interval_ms", true, ms, 3);
    ReplaceMacroMiss(q, "${__interval_ms}", false, ms, 1);
    ChainMisses(q, from, to, secs, ms);
  }

  /** The characters of `$__timeFilter(col)` that tell it apart from the other macros, and no `$`
      after the first. */
  lemma TimeFilterShape(q: string, column: string)
    requires column != [] && forall i :: 0 <= i < |column| ==> IsWordChar(column[i])
    requires q == "$__timeFilter(" + column + ")"
    ensures q != [] && '$' !in q[1..]
    ensures |q| > 8 && q[1] == '_' && q[3] == 't' && q[7] == 'F' && q[8] == 'i'
  {
    assert '$' !in q[1..] by {
      assert forall i :: 1 <= i < |q| ==> q[i] == '(' || q[i] == ')' || IsWordChar(q[i]);
    }
    assert q[..14] == TimeFilterOpen;
  }

  /** The time filter renders the column of `$__timeFilter(col)`. */
  lemma TimeFilterRendered(q: string, column: string, render: string -> string)
    requires column != [] && forall i :: 0 <= i < |column| ==> IsWordChar(column[i])
    requires q == "$__timeFilter(" + column + ")"
    ensures ReplaceTimeFilter(q, render) == render(column)
  {
    assert q[..14] == TimeFilterOpen;
    var e := |q| - 1;
    WordRunEndAt(q, |TimeFilterOpen|, e);
    assert q[|TimeFilterOpen|..e] == column;
    assert q[e + 1..] == [];
  }

  /** `$__timeFrom` inside a query, between text with no `$` and not followed by a word character,
      becomes the quoted start time, and the text around it is kept. */
  lemma TimeFromInContext(a: string, b: string, isoString: int -> string, timeRange: AbsoluteTimeRange, intervalMs: int)
    requires '$' !in a && '$' !in b && (b == [] || !IsWordChar(b[0]))
    requires '$' !in isoString(timeRange.startMs) && '$' !in isoString(timeRange.endMs)
    ensures ReplaceSqlBuiltinVariables(a + "$__timeFrom" + b, isoString, timeRange, intervalMs)
            == a + "'" + isoString(timeRange.startMs) + "'" + b
  {
    var from := "'" + isoString(timeRange.startMs) + "'";
    var to := "'" + isoString(timeRange.endMs) + "'";
    var secs, ms := IntToString(IntervalSeconds(intervalMs)), IntToString(intervalMs);
    IntToStringNoDollar(IntervalSeconds(intervalMs));
    IntToStringNoDollar(intervalMs);
    assert '$' !in from && '$' !in to;
    var q := a + "$__timeFrom" + b;
    var rep := a + from + b;
    ReplaceMacroInContext(a, "$__timeFrom", b, true, from);
    NoDollarJoin(a, from, b);
    ChainHitsAt(q, from, to, secs, ms, 0, rep);
    FilterLeavesResult(q, isoString, timeRange, intervalMs, rep);
    QuotedJoin(a, isoString(timeRange.startMs), b);
  }

  /** Quoting the middle of three texts does not depend on how the joins group. */
  lemma QuotedJoin(a: string, m: string, b: string)
    ensures a + ("'" + m + "'") + b == a + "'" + m + "'" + b
  {
  }

  /** Three texts with no `$` joined have none. */
  lemma NoDollarJoin(a: string, m: string, b: string)
    requires '$' !in a && '$' !in m && '$' !in b
    ensures '$' !in a + m + b
  {
    assert forall i :: 0 <= i < |a + m + b| ==> (a + m + b)[i] in a || (a + m + b)[i] in m || (a + m + b)[i] in b;
  }

  /** A text `t` whose only `$` is its first character and which differs from `token` at `k` is
      left as it is, after any text with no `$`. */
  lemma MissInContext(a: string, t: string, token: string, boundary: bool, rep: string, k: nat)
    requires token != [] && token[0] == '$' && '$' !in a
    requires t != [] && '$' !in t[1..]
    requires k < |t| && k < |token| && t[k] != token[k]
    ensures ReplaceMacro(a + t, token, boundary, rep) == a + t
  {
    ReplaceMacroPlainPrefix(a, t, token, boundary, rep);
    ReplaceMacroMiss(t, token, boundary, rep, k);
  }

  /** `$__timeFilter(col)` inside a query, between texts with no `$`, becomes
      `col BETWEEN 'from' AND 'to'`, and the text around it is kept. */
  lemma TimeFilterInContext(a: string, column: string, b: string, isoString: int -> string, timeRange: AbsoluteTimeRange,
                            intervalMs: int)
    requires '$' !in a && '$' !in b
    requires column != [] && forall i :: 0 <= i < |column| ==> IsWordChar(column[i])
    ensures ReplaceSqlBuiltinVariables(a + "$__timeFilter(" + column + ")" + b, isoString, timeRange, intervalMs)
            == a + (column + " BETWEEN '" + isoString(timeRange.startMs) + "' AND '" + isoString(timeRange.endMs) + "'") + b
  {
    var from := "'" + isoString(timeRange.startMs) + "'";
    var to := "'" + isoString(timeRange.endMs) + "'";
    var secs, ms := IntToString(IntervalSeconds(intervalMs)), IntToString(intervalMs);
    var render := column => column + " BETWEEN " + from + " AND " + to;
    var q := a + "$__timeFilter(" + column + ")" + b;
    TimeFilterMissesChain(a, column, b, from, to, secs, ms);
    assert "$__timeFilter(" == TimeFilterOpen;
    ReplaceTimeFilterInContext(a, column, b, render);
    assert ReplaceSqlBuiltinVariables(q, isoString, timeRange, intervalMs) == a + render(column) + b;
    BetweenQuoted(column, isoString(timeRange.startMs), isoString(timeRange.endMs));
  }

  /** No macro of the chain occurs in `$__timeFilter(col)` inside a query, between texts with no `$`. */
  lemma TimeFilterMissesChain(a: string, column: string, b: string, from: string, to: string, secs: string, ms: string)
    requires '$' !in a && '$' !in b
    requires column != [] && forall i :: 0 <= i < |column| ==> IsWordChar(column[i])
    ensures ReplaceTimesAndInterval(a + "$__timeFilter(" + column + ")" + b, from, to, secs, ms)
            == a + "$__timeFilter(" + column + ")" + b
  {
    var t := "$__timeFilter(" + column + ")" + b;
    TimeFilterShapeWithTail(t, column, b);
    TimeMacrosMiss(a, t, from, to);
    IntervalMacrosMiss(a, t, secs, ms);
    ChainMisses(a + t, from, to, secs, ms);
    TimeFilterJoin(a, column, b);
  }

  /** The time macros do not occur in a text that differs from each of them at a known place. */
  lemma TimeMacrosMiss(a: string, t: string, from: string, to: string)
    requires '$' !in a && t != [] && '$' !in t[1..]
    requires |t| > 8 && t[1] == '_' && t[3] == 't' && t[7] == 'F' && t[8] == 'i'
    ensures ReplaceMacro(a + t, "$__timeFrom", true, from) == a + t
    ensures ReplaceMacro(a + t, "${__timeFrom}", false, from) == a + t
    ensures ReplaceMacro(a + t, "$__timeTo", true, to) == a + t
    ensures ReplaceMacro(a + t, "${__timeTo}", false, to) == a + t
  {
    MissInContext(a, t, "$__timeFrom", true, from, 8);
    MissInContext(a, t, "${__timeFrom}", false, from, 1);
    MissInContext(a, t, "$__timeTo", true, to, 7);
    MissInContext(a, t, "${__timeTo}", false, to, 1);
  }

  /** The interval macros do not occur in a text that differs from each of them at a known place. */
  lemma IntervalMacrosMiss(a: string, t: string, secs: string, ms: string)
    requires '$' !in a && t != [] && '$' !in t[1..]
    requires |t| > 3 && t[1] == '_' && t[3] == 't'
    ensures ReplaceMacro(a + t, "$__interval", true, secs) == a + t
    ensures ReplaceMacro(a + t, "${__interval}", false, secs) == a + t
    ensures ReplaceMacro(a + t, "$__interval_ms", true, ms) == a + t
    ensures ReplaceMacro(a + t, "${__interval_ms}", false, ms) == a + t
  {
    MissInContext(a, t, "$__interval", true, secs, 3);
    MissInContext(a, t, "${__interval}", false, secs, 1);
    MissInContext(a, t, "$__interval_ms", true, ms, 3);
    MissInContext(a, t, "${__interval_ms}", false, ms, 1);
  }

  /** Joining the time filter macro into a query does not depend on how the joins group. */
  lemma TimeFilterJoin(a: string, column: string, b: string)
    ensures a + "$__timeFilter(" + column + ")" + b == a + ("$__timeFilter(" + column + ")" + b)
  {
  }

  /** `$__timeFilter(col)` followed by text with no `$`: the characters that tell it apart from the
      other macros, and no `$` after the first. */
  lemma TimeFilterShapeWithTail(t: string, column: string, b: string)
    requires column != [] && forall i :: 0 <= i < |column| ==> IsWordChar(column[i])
    requires '$' !in b
    requires t == "$__timeFilter(" + column + ")" + b
    ensures t != [] && '$' !in t[1..]
    ensures |t| > 8 && t[1] == '_' && t[3] == 't' && t[7] == 'F' && t[8] == 'i'
  {
    var q := "$__timeFilter(" + column + ")";
    TimeFilterShape(q, column);
    assert t == q + b;
    assert t[1..] == q[1..] + b;
  }
}
