/** The Tempo filter bar's tokenizer: splitting a TraceQL matcher string on the
    spaces that are not inside double quotes. */
module TempoFilter {
  import opened Base

  /** The character at `i` is a double quote that flips the quoting state: one
      whose predecessor is not a backslash (the first character has none). */
  predicate TogglesQuote(x: string, i: nat)
    requires i < |x|
  {
    x[i] == '"' && !(i > 0 && x[i - 1] == '\\')
  }

  /** Whether scanning is inside quotes just before index `i`. */
  function InQuote(x: string, i: nat): bool
    requires i <= |x|
  {
    if i == 0 then false
    else if TogglesQuote(x, i - 1) then !InQuote(x, i - 1)
    else InQuote(x, i - 1)
  }

  /** A space outside quotes: the only character that splits. */
  predicate IsSeparator(x: string, i: nat)
    requires i < |x|
  {
    x[i] == ' ' && !InQuote(x, i)
  }

  /** The chunks finished so far (empty ones already dropped) and the chunk under way. */
  datatype ScanState = ScanState(done: seq<string>, current: string)

  /** The state after scanning `x[..i]`. */
  function Scan(x: string, i: nat): ScanState
    requires i <= |x|
  {
    if i == 0 then ScanState([], [])
    else
      var s := Scan(x, i - 1);
      if IsSeparator(x, i - 1) then ScanState(s.done + (if s.current == [] then [] else [s.current]), [])
      else ScanState(s.done, s.current + [x[i - 1]])
  }

  /** The specification of the split: every maximal run of non-separator characters, in order. */
  function Chunks(x: string): seq<string>
  {
    var s := Scan(x, |x|);
    s.done + (if s.current == [] then [] else [s.current])
  }

  /** `x[..i]` with its separators removed. */
  function WithoutSeparators(x: string, i: nat): string
    requires i <= |x|
  {
    if i == 0 then []
    else WithoutSeparators(x, i - 1) + (if IsSeparator(x, i - 1) then [] else [x[i - 1]])
  }

  /** splitByUnquotedWhitespace: one pass that records the quoting state and the start of the
      current chunk, pushes the raw chunk at every separator, and drops empty chunks at the end. */
  method SplitByUnquotedWhitespace(x: string) returns (chunks: seq<string>)
    ensures chunks == Chunks(x)
    ensures AllNonEmpty(chunks)
    ensures Concat(chunks) == WithoutSeparators(x, |x|)
    ensures x == [] ==> chunks == []
  {
    var quote := false;
    var from: nat := 0;
    var raw: seq<string> := [];
    for i := 0 to |x|
      invariant from <= i
      invariant quote == InQuote(x, i)
      invariant FilterNonEmpty(raw) == Scan(x, i).done
      invariant x[from..i] == Scan(x, i).current
    {
      quote, from, raw := SplitStep(x, i, quote, from, raw);
    }
    ScanFinish(x, from, raw);
    raw := raw + [x[from..]];
    chunks := FilterNonEmpty(raw);
    ChunksNonEmpty(x);
    ChunksConcat(x);
  }

  /** The body of the split's loop for the character at `i`: a quote that is not escaped flips the
      quoting state, a separator pushes the raw chunk and starts the next one after it. */
  method SplitStep(x: string, i: nat, quote: bool, from: nat, raw: seq<string>)
      returns (quote': bool, from': nat, raw': seq<string>)
    requires from <= i < |x| && quote == InQuote(x, i)
    requires FilterNonEmpty(raw) == Scan(x, i).done && x[from..i] == Scan(x, i).current
    ensures from' <= i + 1 && quote' == InQuote(x, i + 1)
    ensures FilterNonEmpty(raw') == Scan(x, i + 1).done && x[from'..i + 1] == Scan(x, i + 1).current
  {
    ScanStep(x, i, from, raw);
    quote', from', raw' := quote, from, raw;
    if x[i] == '"' && !(i > 0 && x[i - 1] == '\\') {
      quote' := !quote;
    } else if x[i] == ' ' && !quote {
      raw' := raw + [x[from..i]];
      from' := i + 1;
    }
  }

  /** One step of the split's loop follows one step of `Scan`: a separator pushes the raw chunk and
      starts an empty one, any other character extends the chunk. */
  lemma ScanStep(x: string, i: nat, from: nat, raw: seq<string>)
    requires from <= i < |x|
    requires FilterNonEmpty(raw) == Scan(x, i).done && x[from..i] == Scan(x, i).current
    ensures IsSeparator(x, i) ==> FilterNonEmpty(raw + [x[from..i]]) == Scan(x, i + 1).done
                                  && x[i + 1..i + 1] == Scan(x, i + 1).current
    ensures !IsSeparator(x, i) ==> FilterNonEmpty(raw) == Scan(x, i + 1).done
                                   && x[from..i + 1] == Scan(x, i + 1).current
  {
    if IsSeparator(x, i) {
      FilterNonEmptyAppend(raw, x[from..i]);
    } else {
      assert x[from..i + 1] == x[from..i] + [x[i]];
    }
  }

  /** The end of the split's loop: pushing the last raw chunk and dropping the empty ones gives the chunks. */
  lemma ScanFinish(x: string, from: nat, raw: seq<string>)
    requires from <= |x|
    requires FilterNonEmpty(raw) == Scan(x, |x|).done && x[from..|x|] == Scan(x, |x|).current
    ensures FilterNonEmpty(raw + [x[from..]]) == Chunks(x)
  {
    assert x[from..] == x[from..|x|];
    FilterNonEmptyAppend(raw, x[from..]);
  }

  lemma {:induction false} ScanDoneNonEmpty(x: string, i: nat)
    requires i <= |x|
    ensures AllNonEmpty(Scan(x, i).done)
  {
    if i > 0 {
      ScanDoneNonEmpty(x, i - 1);
    }
  }

  /** No chunk is empty. */
  lemma ChunksNonEmpty(x: string)
    ensures AllNonEmpty(Chunks(x))
  {
    ScanDoneNonEmpty(x, |x|);
  }

  lemma {:induction false} ScanConcat(x: string, i: nat)
    requires i <= |x|
    ensures Concat(Scan(x, i).done) + Scan(x, i).current == WithoutSeparators(x, i)
  {
    if i > 0 {
      ScanConcat(x, i - 1);
      var s := Scan(x, i - 1);
      if IsSeparator(x, i - 1) {
        if s.current != [] {
          ConcatAppend(s.done, s.current);
        } else {
          assert s.done + [] == s.done;
        }
      } else {
        assert Concat(s.done) + (s.current + [x[i - 1]]) == (Concat(s.done) + s.current) + [x[i - 1]];
      }
    }
  }

  /** Concatenating the chunks gives the input with its unquoted spaces removed. */
  lemma ChunksConcat(x: string)
    ensures Concat(Chunks(x)) == WithoutSeparators(x, |x|)
  {
    ScanConcat(x, |x|);
    var s := Scan(x, |x|);
    if s.current != [] {
      ConcatAppend(s.done, s.current);
    } else {
      assert s.done + [] == s.done;
    }
  }

  lemma {:induction false} ScanWithoutSeparators(x: string, i: nat)
    requires i <= |x|
    requires forall j :: 0 <= j < i ==> !IsSeparator(x, j)
    ensures Scan(x, i) == ScanState([], x[..i])
  {
    if i > 0 {
      ScanWithoutSeparators(x, i - 1);
      assert x[..i] == x[..i - 1] + [x[i - 1]];
    }
  }

  /** A string with no unquoted space (every space sits inside quotes) is one chunk. */
  lemma QuotedSpacesDoNotSplit(x: string)
    requires x != []
    requires forall j :: 0 <= j < |x| ==> !IsSeparator(x, j)
    ensures Chunks(x) == [x]
  {
    ScanWithoutSeparators(x, |x|);
    assert x[..|x|] == x;
  }

  /** A space scanned inside quotes is kept in the current chunk and finishes no chunk. */
  lemma QuotedSpaceKept(x: string, i: nat)
    requires i < |x| && x[i] == ' ' && InQuote(x, i)
    ensures Scan(x, i + 1) == ScanState(Scan(x, i).done, Scan(x, i).current + [' '])
  {
  }

  /** A quote preceded by a backslash leaves the quoting state as it was. */
  lemma EscapedQuoteKeepsState(x: string, i: nat)
    requires 0 < i < |x| && x[i] == '"' && x[i - 1] == '\\'
    ensures InQuote(x, i + 1) == InQuote(x, i)
  {
  }

  /** A second separator right after a first one finishes no further chunk. */
  lemma SeparatorRunIsOneSeparator(x: string, i: nat)
    requires i + 1 < |x| && IsSeparator(x, i) && IsSeparator(x, i + 1)
    ensures Scan(x, i + 2).done == Scan(x, i + 1).done
    ensures Scan(x, i + 2).current == []
  {
  }
}
