/** Substitution of the SQL plugin's built-in macros (`$__timeFrom`, `$__timeTo`, `$__interval`,
    `$__interval_ms`, their `${...}` forms, and `$__timeFilter(column)`) into a query. */
module SqlVariables {
  import opened Base

  /** `\w` in a JavaScript regular expression. */
  predicate IsWordChar(c: char) {
    'a' <= c <= 'z' || 'A' <= c <= 'Z' || '0' <= c <= '9' || c == '_'
  }

  /** `s.replace(/<token>\b/g, rep)` (when `boundary`) or `s.replace(/<token>/g, rep)`: every occurrence,
      left to right; with `boundary` an occurrence followed by a word character is skipped. */
  function ReplaceMacro(s: string, token: string, boundary: bool, rep: string): string
    requires token != []
    decreases |s|
  {
    if s == [] then []
    else if StartsWith(s, token) && (!boundary || |s| == |token| || !IsWordChar(s[|token|])) then
      rep + ReplaceMacro(s[|token|..], token, boundary, rep)
    else [s[0]] + ReplaceMacro(s[1..], token, boundary, rep)
  }

  /** The end of the run of word characters starting at `i`. */
  function WordRunEnd(s: string, i: nat): (j: nat)
    requires i <= |s|
    ensures i <= j <= |s|
    ensures forall k :: i <= k < j ==> IsWordChar(s[k])
    ensures j < |s| ==> !IsWordChar(s[j])
    decreases |s| - i
  {
    if i == |s| || !IsWordChar(s[i]) then i else WordRunEnd(s, i + 1)
  }

  const TimeFilterOpen := "$__timeFilter("

  /** `s.replace(/\$__timeFilter\((\w+)\)/g, (_, column) => render(column))` */
  function ReplaceTimeFilter(s: string, render: string -> string): string
    decreases |s|
  {
    if s == [] then []
    else if StartsWith(s, TimeFilterOpen)
         && var e := WordRunEnd(s, |TimeFilterOpen|); |TimeFilterOpen| < e < |s| && s[e] == ')' then
      var e := WordRunEnd(s, |TimeFilterOpen|);
      render(s[|TimeFilterOpen|..e]) + ReplaceTimeFilter(s[e + 1..], render)
    else [s[0]] + ReplaceTimeFilter(s[1..], render)
  }

  /** The replacements both variants make before the time filter, in the order they are made:
      `$__timeFrom`, `${__timeFrom}`, `$__timeTo`, `${__timeTo}`, `$__interval`, `${__interval}`,
      `$__interval_ms`, `${__interval_ms}`; the unbraced forms only when no word character follows. */
  function ReplaceTimesAndInterval(s: string, from: string, to: string, interval: string, intervalMs: string): string
  {
    var s1 := ReplaceMacro(s, "$__timeFrom", true, from);
    var s2 := ReplaceMacro(s1, "${__timeFrom}", false, from);
    var s3 := ReplaceMacro(s2, "$__timeTo", true, to);
    var s4 := ReplaceMacro(s3, "${__timeTo}", false, to);
    var s5 := ReplaceMacro(s4, "$__interval", true, interval);
    var s6 := ReplaceMacro(s5, "${__interval}", false, interval);
    var s7 := ReplaceMacro(s6, "$__interval_ms", true, intervalMs);
    ReplaceMacro(s7, "${__interval_ms}", false, intervalMs)
  }

  datatype AbsoluteTimeRange = AbsoluteTimeRange(startMs: int, endMs: int)

  /** `Math.floor(intervalMs / 1000)`: Dafny's division by a positive divisor rounds down. */
  function IntervalSeconds(intervalMs: int): int { intervalMs / 1000 }

  /** replaceSQLBuiltinVariables: times as quoted ISO strings (`isoString` is `Date.toISOString`),
      the interval in whole seconds and in milliseconds, the time filter as a `BETWEEN` of quoted times. */
  function ReplaceSqlBuiltinVariables(query: string, isoString: int -> string, timeRange: AbsoluteTimeRange, intervalMs: int): string
  {
    var from := "'" + isoString(timeRange.startMs) + "'";
    var to := "'" + isoString(timeRange.endMs) + "'";
    var s := ReplaceTimesAndInterval(query, from, to, IntToString(IntervalSeconds(intervalMs)), IntToString(intervalMs));
    ReplaceTimeFilter(s, column => column + " BETWEEN " + from + " AND " + to)
  }

  /** replaceSQLBuiltinVariablesUnix: the same with times as unquoted epoch seconds. */
  function ReplaceSqlBuiltinVariablesUnix(query: string, timeRange: AbsoluteTimeRange, intervalMs: int): string
  {
    var from := IntToString(timeRange.startMs / 1000);
    var to := IntToString(timeRange.endMs / 1000);
    var s := ReplaceTimesAndInterval(query, from, to, IntToString(IntervalSeconds(intervalMs)), IntToString(intervalMs));
    ReplaceTimeFilter(s, column => column + " BETWEEN " + from + " AND " + to)
  }

  // ---------------------------------------------------------------------------
  // Properties

  lemma {:induction false} ReplaceMacroNoDollar(s: string, token: string, boundary: bool, rep: string)
    requires token != [] && token[0] == '$' && '$' !in s
    ensures ReplaceMacro(s, token, boundary, rep) == s
    decreases |s|
  {
    if s != [] {
      assert !StartsWith(s, token) by { assert s[0] != '$'; }
      ReplaceMacroNoDollar(s[1..], token, boundary, rep);
    }
  }

  lemma {:induction false} ReplaceTimeFilterNoDollar(s: string, render: string -> string)
    requires '$' !in s
    ensures ReplaceTimeFilter(s, render) == s
    decreases |s|
  {
    if s != [] {
      assert !StartsWith(s, TimeFilterOpen) by { assert s[0] != '$'; }
      ReplaceTimeFilterNoDollar(s[1..], render);
    }
  }

  lemma ReplaceTimesAndIntervalNoDollar(s: string, from: string, to: string, interval: string, intervalMs: string)
    requires '$' !in s && '$' !in from && '$' !in to && '$' !in interval && '$' !in intervalMs
    ensures ReplaceTimesAndInterval(s, from, to, interval, intervalMs) == s
  {
    ReplaceMacroNoDollar(s, "$__timeFrom", true, from);
    ReplaceMacroNoDollar(s, "${__timeFrom}", false, from);
    ReplaceMacroNoDollar(s, "$__timeTo", true, to);
    ReplaceMacroNoDollar(s, "${__timeTo}", false, to);
    ReplaceMacroNoDollar(s, "$__interval", true, interval);
    ReplaceMacroNoDollar(s, "${__interval}", false, interval);
    ReplaceMacroNoDollar(s, "$__interval_ms", true, intervalMs);
    ReplaceMacroNoDollar(s, "${__interval_ms}", false, intervalMs);
  }

  /** Text before the first `$` is kept as it is, and the replacement goes on after it. */
  lemma {:induction false} ReplaceMacroPlainPrefix(a: string, s: string, token: string, boundary: bool, rep: string)
    requires token != [] && token[0] == '$' && '$' !in a
    ensures ReplaceMacro(a + s, token, boundary, rep) == a + ReplaceMacro(s, token, boundary, rep)
    decreases |a|
  {
    if a == [] {
      assert a + s == s;
    } else {
      var t := a + s;
      assert t[0] == a[0] && a[0] != '$';
      assert !StartsWith(t, token);
      assert t[1..] == a[1..] + s;
      ReplaceMacroPlainPrefix(a[1..], s, token, boundary, rep);
    }
  }

  /** An occurrence of `token` at the start, not followed by a word character when `boundary` asks
      for it, becomes `rep`, and the replacement goes on after it. */
  lemma ReplaceMacroAtToken(token: string, b: string, boundary: bool, rep: string)
    requires token != []
    requires boundary ==> b == [] || !IsWordChar(b[0])
    ensures ReplaceMacro(token + b, token, boundary, rep) == rep + ReplaceMacro(b, token, boundary, rep)
  {
    var s := token + b;
    assert s[..|token|] == token;
    assert s[|token|..] == b;
    if b != [] {
      assert s[|token|] == b[0];
    }
  }

  /** A macro inside a query: the text before it (with no `$`) is kept, the macro becomes `rep`, and
      the text after it is replaced in turn; text after it with no `$` is kept as it is. */
  lemma ReplaceMacroInContext(a: string, token: string, b: string, boundary: bool, rep: string)
    requires token != [] && token[0] == '$' && '$' !in a
    requires boundary ==> b == [] || !IsWordChar(b[0])
    ensures ReplaceMacro(a + token + b, token, boundary, rep) == a + rep + ReplaceMacro(b, token, boundary, rep)
    ensures '$' !in b ==> ReplaceMacro(a + token + b, token, boundary, rep) == a + rep + b
  {
    var tb := token + b;
    var rest := ReplaceMacro(b, token, boundary, rep);
    assert a + token + b == a + tb;
    ReplaceMacroPlainPrefix(a, tb, token, boundary, rep);
    ReplaceMacroAtToken(token, b, boundary, rep);
    assert a + (rep + rest) == a + rep + rest;
    if '$' !in b {
      ReplaceMacroNoDollar(b, token, boundary, rep);
    }
  }

  /** With `boundary`, `token` followed by a word character (as `$__interval` in `$__interval_ms`)
      is not replaced. */
  lemma ReplaceMacroWordFollowed(token: string, b: string, rep: string)
    requires token != [] && token[0] == '$' && '$' !in token[1..] && '$' !in b
    requires b != [] && IsWordChar(b[0])
    ensures ReplaceMacro(token + b, token, true, rep) == token + b
  {
    var s := token + b;
    assert s[|token|] == b[0];
    assert s[1..] == token[1..] + b;
    ReplaceMacroNoDollar(s[1..], token, true, rep);
  }

  /** Text before the first `$` is kept by the time filter, which goes on after it. */
  lemma {:induction false} ReplaceTimeFilterPlainPrefix(a: string, s: string, render: string -> string)
    requires '$' !in a
    ensures ReplaceTimeFilter(a + s, render) == a + ReplaceTimeFilter(s, render)
    decreases |a|
  {
    if a == [] {
      assert a + s == s;
    } else {
      var t := a + s;
      assert t[0] == a[0] && a[0] != '$';
      assert !StartsWith(t, TimeFilterOpen);
      assert t[1..] == a[1..] + s;
      ReplaceTimeFilterPlainPrefix(a[1..], s, render);
    }
  }

  /** `$__timeFilter(col)` at the start, for a column of word characters, is rendered, and the time
      filter goes on after it. */
  lemma ReplaceTimeFilterAt(column: string, b: string, render: string -> string)
    requires column != [] && forall i :: 0 <= i < |column| ==> IsWordChar(column[i])
    ensures ReplaceTimeFilter(TimeFilterOpen + column + ")" + b, render) == render(column) + ReplaceTimeFilter(b, render)
  {
    var s := TimeFilterOpen + column + ")" + b;
    var e := |TimeFilterOpen| + |column|;
    assert s[..|TimeFilterOpen|] == TimeFilterOpen;
    assert s[e] == ')';
    WordRunEndAt(s, |TimeFilterOpen|, e);
    assert s[|TimeFilterOpen|..e] == column;
    assert s[e + 1..] == b;
  }

  /** `$__timeFilter(col)` inside a query: the text before it (with no `$`) is kept, the filter is
      rendered, and the text after it is filtered in turn; text after it with no `$` is kept. */
  lemma ReplaceTimeFilterInContext(a: string, column: string, b: string, render: string -> string)
    requires '$' !in a
    requires column != [] && forall i :: 0 <= i < |column| ==> IsWordChar(column[i])
    ensures ReplaceTimeFilter(a + TimeFilterOpen + column + ")" + b, render) == a + render(column) + ReplaceTimeFilter(b, render)
    ensures '$' !in b ==> ReplaceTimeFilter(a + TimeFilterOpen + column + ")" + b, render) == a + render(column) + b
  {
    assert a + TimeFilterOpen + column + ")" + b == a + (TimeFilterOpen + column + ")" + b);
    ReplaceTimeFilterPlainPrefix(a, TimeFilterOpen + column + ")" + b, render);
    ReplaceTimeFilterAt(column, b, render);
    if '$' !in b {
      ReplaceTimeFilterNoDollar(b, render);
    }
  }

  /** A whole string that is exactly `token` becomes `rep`. */
  lemma ReplaceMacroWhole(token: string, boundary: bool, rep: string)
    requires token != []
    ensures ReplaceMacro(token, token, boundary, rep) == rep
  {
    assert token[|token|..] == [];
  }

  /** `s` is left as it is when its only `$` is at the start and it differs from `token` at position `k`. */
  lemma ReplaceMacroMiss(s: string, token: string, boundary: bool, rep: string, k: nat)
    requires token != [] && token[0] == '$'
    requires s != [] && '$' !in s[1..]
    requires k < |s| && k < |token| && s[k] != token[k]
    ensures ReplaceMacro(s, token, boundary, rep) == s
  {
    if |token| <= |s| {
      assert s[..|token|][k] == s[k];
    }
    ReplaceMacroNoDollar(s[1..], token, boundary, rep);
  }

  /** When the first `k` replacements of the chain leave `q` as it is and replacement `k` turns it into
      a text with no `$`, the chain yields that text. */
  lemma ChainHitsAt(q: string, from: string, to: string, interval: string, intervalMs: string, k: nat, rep: string)
    requires k < 8 && '$' !in rep
    requires '$' !in from && '$' !in to && '$' !in interval && '$' !in intervalMs
    requires 0 < k ==> ReplaceMacro(q, "$__timeFrom", true, from) == q
    requires 1 < k ==> ReplaceMacro(q, "${__timeFrom}", false, from) == q
    requires 2 < k ==> ReplaceMacro(q, "$__timeTo", true, to) == q
    requires 3 < k ==> ReplaceMacro(q, "${__timeTo}", false, to) == q
    requires 4 < k ==> ReplaceMacro(q, "$__interval", true, interval) == q
    requires 5 < k ==> ReplaceMacro(q, "${__interval}", false, interval) == q
    requires 6 < k ==> ReplaceMacro(q, "$__interval_ms", true, intervalMs) == q
    requires k == 0 ==> ReplaceMacro(q, "$__timeFrom", true, from) == rep
    requires k == 1 ==> ReplaceMacro(q, "${__timeFrom}", false, from) == rep
    requires k == 2 ==> ReplaceMacro(q, "$__timeTo", true, to) == rep
    requires k == 3 ==> ReplaceMacro(q, "${__timeTo}", false, to) == rep
    requires k == 4 ==> ReplaceMacro(q, "$__interval", true, interval) == rep
    requires k == 5 ==> ReplaceMacro(q, "${__interval}", false, interval) == rep
    requires k == 6 ==> ReplaceMacro(q, "$__interval_ms", true, intervalMs) == rep
    requires k == 7 ==> ReplaceMacro(q, "${__interval_ms}", false, intervalMs) == rep
    ensures ReplaceTimesAndInterval(q, from, to, interval, intervalMs) == rep
  {
    ReplaceMacroNoDollar(rep, "$__timeFrom", true, from);
    ReplaceMacroNoDollar(rep, "${__timeFrom}", false, from);
    ReplaceMacroNoDollar(rep, "$__timeTo", true, to);
    ReplaceMacroNoDollar(rep, "${__timeTo}", false, to);
    ReplaceMacroNoDollar(rep, "$__interval", true, interval);
    ReplaceMacroNoDollar(rep, "${__interval}", false, interval);
    ReplaceMacroNoDollar(rep, "$__interval_ms", true, intervalMs);
    ReplaceMacroNoDollar(rep, "${__interval_ms}", false, intervalMs);
  }

  /** When no replacement of the chain changes `q`, the chain leaves it as it is. */
  lemma ChainMisses(q: string, from: string, to: string, interval: string, intervalMs: string)
    requires ReplaceMacro(q, "$__timeFrom", true, from) == q
    requires ReplaceMacro(q, "${__timeFrom}", false, from) == q
    requires ReplaceMacro(q, "$__timeTo", true, to) == q
    requires ReplaceMacro(q, "${__timeTo}", false, to) == q
    requires ReplaceMacro(q, "$__interval", true, interval) == q
    requires ReplaceMacro(q, "${__interval}", false, interval) == q
    requires ReplaceMacro(q, "$__interval_ms", true, intervalMs) == q
    requires ReplaceMacro(q, "${__interval_ms}", false, intervalMs) == q
    ensures ReplaceTimesAndInterval(q, from, to, interval, intervalMs) == q
  {
  }

  /** The time filter leaves a chain result with no `$` as it is. */
  lemma FilterLeavesResult(query: string, isoString: int -> string, timeRange: AbsoluteTimeRange, intervalMs: int, rep: string)
    requires ReplaceTimesAndInterval(query, "'" + isoString(timeRange.startMs) + "'", "'" + isoString(timeRange.endMs) + "'",
                                     IntToString(IntervalSeconds(intervalMs)), IntToString(intervalMs)) == rep
    requires '$' !in rep
    ensures ReplaceSqlBuiltinVariables(query, isoString, timeRange, intervalMs) == rep
  {
    var from := "'" + isoString(timeRange.startMs) + "'";
    var to := "'" + isoString(timeRange.endMs) + "'";
    ReplaceTimeFilterNoDollar(rep, column => column + " BETWEEN " + from + " AND " + to);
  }

  /** The time filter leaves a Unix-variant chain result with no `$` as it is. */
  lemma UnixFilterLeavesResult(query: string, timeRange: AbsoluteTimeRange, intervalMs: int, rep: string)
    requires ReplaceTimesAndInterval(query, IntToString(timeRange.startMs / 1000), IntToString(timeRange.endMs / 1000),
                                     IntToString(IntervalSeconds(intervalMs)), IntToString(intervalMs)) == rep
    requires '$' !in rep
    ensures ReplaceSqlBuiltinVariablesUnix(query, timeRange, intervalMs) == rep
  {
    var from := IntToString(timeRange.startMs / 1000);
    var to := IntToString(timeRange.endMs / 1000);
    ReplaceTimeFilterNoDollar(rep, column => column + " BETWEEN " + from + " AND " + to);
  }

  lemma WordRunEndAt(s: string, i: nat, e: nat)
    requires i <= e <= |s|
    requires forall k :: i <= k < e ==> IsWordChar(s[k])
    requires e < |s| ==> !IsWordChar(s[e])
    ensures WordRunEnd(s, i) == e
    decreases e - i
  {
    if i < e {
      WordRunEndAt(s, i + 1, e);
    }
  }
}
