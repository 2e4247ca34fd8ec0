/** LogQL editor completion: the pipe-function and line-filter suggestions, and the
    quoting and escaping of an inserted label value. */
module LokiComplete {
  import opened Base

  datatype CompletionType = TextType | FunctionType | MethodType

  /** What selecting a completion does: insert `text` and put the cursor `cursorBack` characters before its end. */
  datatype Apply = InsertWithCursor(text: string, cursorBack: nat)

  datatype Completion = Completion(caption: string, detail: Option<string>, kind: CompletionType,
                                   boost: Option<int>, apply: Option<Apply>)

  // ---------------------------------------------------------------------------
  // createLineFilterCompletion

  /** A line filter `op ""` whose insertion leaves the cursor between the two quotes. */
  function CreateLineFilterCompletion(operator: string, detail: string): (c: Completion)
    ensures c.caption == operator + " \"\"" && c.kind == TextType && c.boost == Some(10)
    ensures c.apply == Some(InsertWithCursor(c.caption, 1))
  {
    Completion(operator + " \"\"", Some(detail), TextType, Some(10), Some(InsertWithCursor(operator + " \"\"", 1)))
  }

  /** The document after a line-filter completion replaces `from..to`, and where the cursor lands. */
  function ApplyLineFilter(doc: string, from: nat, to: nat, operator: string): (string, nat)
    requires from <= to <= |doc|
  {
    var insert := operator + " \"\"";
    (doc[..from] + insert + doc[to..], from + |insert| - 1)
  }

  /** After a line filter is applied the cursor sits between its empty quotes. */
  lemma LineFilterCursorInsideQuotes(doc: string, from: nat, to: nat, operator: string)
    requires from <= to <= |doc|
    ensures var (d, cursor) := ApplyLineFilter(doc, from, to, operator);
      0 < cursor < |d| && d[cursor - 1] == '"' && d[cursor] == '"'
      && d[..from] == doc[..from] && d[cursor + 1..] == doc[to..]
  {
    var insert := operator + " \"\"";
    var d := doc[..from] + insert + doc[to..];
    assert d[from + |insert| - 2] == insert[|insert| - 2];
    assert d[from + |insert| - 1] == insert[|insert| - 1];
    assert d[from + |insert|..] == doc[to..];
  }

  // ---------------------------------------------------------------------------
  // completePipeFunctions

  const PipeLineFilters: seq<(string, string)> := [("|=", "Line contains"), ("|~", "Line matches regex")]
  const NonPipeLineFilters: seq<(string, string)> := [("!=", "Line does not contain"), ("!~", "Line does not match regex")]
  const ParsingExpressions: seq<string> := ["json", "logfmt", "pattern", "regexp", "unpack", "unwrap"]
  const FormattingAndLabels: seq<string> := ["line_format", "label_format", "decolorize", "drop", "keep"]

  /** All eleven parser and formatter names, in the order they are offered. */
  function PipeNames(): seq<string> { ParsingExpressions + FormattingAndLabels }

  /** `operator.replace('|', '')`: the first `|` removed. */
  function StripPipe(op: string): (r: string)
    ensures '|' in op ==> |r| == |op| - 1
  {
    if op == [] then []
    else if op[0] == '|' then op[1..]
    else [op[0]] + StripPipe(op[1..])
  }

  /** The prefix put before every parser and formatter name. */
  function ParserPrefix(afterPipe: bool, hasSpace: bool): string {
    if !afterPipe then "| " else if hasSpace then "" else " "
  }

  /** The line-filter operators offered in a context that is not after `!`. */
  function LineFilterOperators(afterPipe: bool, hasSpace: bool): seq<(string, string)> {
    if afterPipe && hasSpace then []
    else if afterPipe then seq(|PipeLineFilters|, i requires 0 <= i < |PipeLineFilters| =>
                               (StripPipe(PipeLineFilters[i].0), PipeLineFilters[i].1))
    else PipeLineFilters + NonPipeLineFilters
  }

  /** completePipeFunctions */
  method CompletePipeFunctions(afterPipe: bool, hasSpace: bool, afterExclamation: bool) returns (completions: seq<Completion>)
    ensures afterExclamation ==>
      completions == [CreateLineFilterCompletion("!=", "Line does not contain"),
                      CreateLineFilterCompletion("!~", "Line does not match regex")]
    ensures !afterExclamation ==>
      var filters := LineFilterOperators(afterPipe, hasSpace);
      && |completions| == |filters| + |PipeNames()|
      && (forall i :: 0 <= i < |filters| ==> completions[i] == CreateLineFilterCompletion(filters[i].0, filters[i].1))
      && (forall i :: 0 <= i < |PipeNames()| ==>
            completions[|filters| + i].caption == ParserPrefix(afterPipe, hasSpace) + PipeNames()[i]
            && completions[|filters| + i].kind != TextType)
  {
    if afterExclamation {
      completions := LineFilterCompletions(NonPipeLineFilters);
      return;
    }
    var filters: seq<(string, string)>;
    if afterPipe && hasSpace {
      filters := [];
    } else if afterPipe && !hasSpace {
      filters := seq(|PipeLineFilters|, i requires 0 <= i < |PipeLineFilters| =>
                     (StripPipe(PipeLineFilters[i].0), PipeLineFilters[i].1));
    } else {
      filters := PipeLineFilters + NonPipeLineFilters;
    }
    var lineFilters := LineFilterCompletions(filters);
    var parserPrefix := if !afterPipe then "| " else if hasSpace then "" else " ";
    var withParsers := AppendNamed(lineFilters, parserPrefix, ParsingExpressions, FunctionType, Some(5));
    completions := AppendNamed(withParsers, parserPrefix, FormattingAndLabels, MethodType, None);
    var n := |filters|;
    forall i | 0 <= i < n
      ensures completions[i] == CreateLineFilterCompletion(filters[i].0, filters[i].1)
    {
      assert completions[i] == withParsers[..n + |ParsingExpressions|][i];
      assert withParsers[i] == lineFilters[i];
    }
    forall i | 0 <= i < |PipeNames()|
      ensures completions[n + i].caption == parserPrefix + PipeNames()[i]
      ensures completions[n + i].kind != TextType
    {
      if i < |ParsingExpressions| {
        assert completions[n + i] == withParsers[..n + |ParsingExpressions|][n + i];
      } else {
        assert PipeNames()[i] == FormattingAndLabels[i - |ParsingExpressions|];
        assert completions[n + i] == completions[|withParsers| + (i - |ParsingExpressions|)];
      }
    }
  }

  /** One line-filter completion per operator, in order. */
  method LineFilterCompletions(filters: seq<(string, string)>) returns (completions: seq<Completion>)
    ensures |completions| == |filters|
    ensures forall k :: 0 <= k < |filters| ==> completions[k] == CreateLineFilterCompletion(filters[k].0, filters[k].1)
  {
    completions := [];
    for i := 0 to |filters|
      invariant |completions| == i
      invariant forall k :: 0 <= k < i ==> completions[k] == CreateLineFilterCompletion(filters[k].0, filters[k].1)
    {
      completions := completions + [CreateLineFilterCompletion(filters[i].0, filters[i].1)];
    }
  }

  /** `completions` followed by one completion of the given kind per name, each name after `prefix`. */
  method AppendNamed(completions: seq<Completion>, prefix: string, names: seq<string>, kind: CompletionType,
                     boost: Option<int>) returns (r: seq<Completion>)
    ensures |r| == |completions| + |names| && r[..|completions|] == completions
    ensures forall k :: 0 <= k < |names| ==> r[|completions| + k] == Completion(prefix + names[k], None, kind, boost, None)
  {
    r := completions;
    for i := 0 to |names|
      invariant |r| == |completions| + i && r[..|completions|] == completions
      invariant forall k :: 0 <= k < i ==> r[|completions| + k] == Completion(prefix + names[k], None, kind, boost, None)
    {
      r := r + [Completion(prefix + names[i], None, kind, boost, None)];
    }
  }

  /** After `| ` (pipe and space) no line filter is offered; after `|` alone the filters are `= ""` and `~ ""`. */
  lemma LineFiltersAfterPipe(hasSpace: bool)
    ensures hasSpace ==> LineFilterOperators(true, true) == []
    ensures !hasSpace ==> [LineFilterOperators(true, false)[0].0, LineFilterOperators(true, false)[1].0] == ["=", "~"]
  {
  }

  /** The eleven names are pairwise distinct, so each is offered exactly once. */
  lemma PipeNamesDistinct()
    ensures |PipeNames()| == 11
    ensures forall i, j :: 0 <= i < j < |PipeNames()| ==> PipeNames()[i] != PipeNames()[j]
  {
    var ns := PipeNames();
    forall i, j | 0 <= i < j < |ns| ensures ns[i] != ns[j] {
      assert ns[i][0] != ns[j][0] || |ns[i]| != |ns[j]| || ns[i][1] != ns[j][1] || ns[i][2] != ns[j][2];
    }
  }

  // ---------------------------------------------------------------------------
  // escapeString and applyQuotedCompletion

  /** `s.replaceAll(c, rep)` */
  function ReplaceAll(s: string, c: char, rep: string): string {
    if s == [] then [] else (if s[0] == c then rep else [s[0]]) + ReplaceAll(s[1..], c, rep)
  }

  /** escapeString: raw (backtick) strings are left as they are; otherwise backslashes are
      doubled first and quotes escaped after. */
  function EscapeString(input: string, quoteChar: char): string {
    if quoteChar == '`' then input
    else ReplaceAll(ReplaceAll(input, '\\', "\\\\"), '"', "\\\"")
  }

  /** Reading the body of a double-quoted LogQL string: `\\` is a backslash, `\"` a quote. */
  function Unescape(s: string): string
    decreases |s|
  {
    if s == [] then []
    else if |s| >= 2 && s[0] == '\\' && (s[1] == '\\' || s[1] == '"') then [s[1]] + Unescape(s[2..])
    else [s[0]] + Unescape(s[1..])
  }

  /** Both replacements in one pass. */
  function EscapeBoth(s: string): string {
    if s == [] then []
    else (if s[0] == '\\' then "\\\\" else if s[0] == '"' then "\\\"" else [s[0]]) + EscapeBoth(s[1..])
  }

  lemma {:induction false} ReplaceAllAppend(a: string, b: string, c: char, rep: string)
    ensures ReplaceAll(a + b, c, rep) == ReplaceAll(a, c, rep) + ReplaceAll(b, c, rep)
  {
    if a != [] {
      ReplaceAllAppend(a[1..], b, c, rep);
      assert (a + b)[1..] == a[1..] + b;
    } else {
      assert a + b == b;
    }
  }

  /** Escaping backslashes and then quotes is the same as escaping both at once:
      the quote pass never meets a backslash it should not. */
  lemma {:induction false} TwoPassesAreOne(s: string)
    ensures ReplaceAll(ReplaceAll(s, '\\', "\\\\"), '"', "\\\"") == EscapeBoth(s)
  {
    if s != [] {
      TwoPassesAreOne(s[1..]);
      var head := if s[0] == '\\' then "\\\\" else [s[0]];
      ReplaceAllAppend(head, ReplaceAll(s[1..], '\\', "\\\\"), '"', "\\\"");
    }
  }

  lemma {:induction false} UnescapeEscapeBoth(s: string)
    ensures Unescape(EscapeBoth(s)) == s
  {
    if s != [] {
      UnescapeEscapeBoth(s[1..]);
      var rest := EscapeBoth(s[1..]);
      if s[0] == '\\' {
        assert ("\\\\" + rest)[2..] == rest;
      } else if s[0] == '"' {
        assert ("\\\"" + rest)[2..] == rest;
      } else {
        assert ([s[0]] + rest)[1..] == rest;
      }
    }
  }

  /** A double-quoted escaped value reads back as the value. */
  lemma EscapeStringRoundTrip(s: string)
    ensures Unescape(EscapeString(s, '"')) == s
  {
    TwoPassesAreOne(s);
    UnescapeEscapeBoth(s);
  }

  predicate IsQuoteChar(c: char) { c == '"' || c == '`' }

  /** The quote character chosen by applyQuotedCompletion. */
  function ChosenQuote(doc: string, from: nat, to: nat, labelText: string): char
    requires from <= to <= |doc|
  {
    if '`' in labelText then '"'
    else if to < |doc| && IsQuoteChar(doc[to]) then doc[to]
    else if 0 < from && IsQuoteChar(doc[from - 1]) then doc[from - 1]
    else '"'
  }

  /** applyQuotedCompletion: widen the replaced range over a quote right before `from` and
      right after `to`, and insert the label quoted and escaped. */
  method ApplyQuotedCompletion(doc: string, labelText: string, from0: nat, to0: nat)
    returns (from: nat, to: nat, insertText: string)
    requires from0 <= to0 <= |doc|
    ensures from == (if 0 < from0 && IsQuoteChar(doc[from0 - 1]) then from0 - 1 else from0)
    ensures to == (if to0 < |doc| && IsQuoteChar(doc[to0]) then to0 + 1 else to0)
    ensures var q := ChosenQuote(doc, from0, to0, labelText);
      insertText == [q] + EscapeString(labelText, q) + [q]
    ensures '`' in labelText ==> insertText[0] == '"'
  {
    from, to := from0, to0;
    var quoteChar := '"';
    if 0 < from && IsQuoteChar(doc[from - 1]) {
      quoteChar := doc[from - 1];
      from := from - 1;
    }
    if to < |doc| && IsQuoteChar(doc[to]) {
      quoteChar := doc[to];
      to := to + 1;
    }
    if '`' in labelText {
      quoteChar := '"';
    }
    insertText := [quoteChar] + EscapeString(labelText, quoteChar) + [quoteChar];
  }

  /** How LogQL reads a string literal: a raw backtick string as it is, a double-quoted one unescaped. */
  function ReadLiteral(lit: string): Option<string> {
    if |lit| >= 2 && lit[0] == '`' && lit[|lit| - 1] == '`' then Some(lit[1..|lit| - 1])
    else if |lit| >= 2 && lit[0] == '"' && lit[|lit| - 1] == '"' then Some(Unescape(lit[1..|lit| - 1]))
    else None
  }

  /** The inserted text is a string literal that reads back as exactly the label, whichever quote was chosen. */
  lemma QuotedCompletionReadsBack(doc: string, labelText: string, from: nat, to: nat)
    requires from <= to <= |doc|
    ensures var q := ChosenQuote(doc, from, to, labelText);
      ReadLiteral([q] + EscapeString(labelText, q) + [q]) == Some(labelText)
  {
    var q := ChosenQuote(doc, from, to, labelText);
    var lit := [q] + EscapeString(labelText, q) + [q];
    assert lit[1..|lit| - 1] == EscapeString(labelText, q);
    if q == '"' {
      EscapeStringRoundTrip(labelText);
    }
  }
}
