/** Shared value types and string helpers used by every plugin model. */
module Base {

  /** A value that may be absent: JavaScript's `undefined`/`null`, Go's nil. */
  datatype Option<+T> = None | Some(value: T) {
    function GetOr(default: T): T {
      match this
      case Some(v) => v
      case None => default
    }
  }

  /** A value or the error that was thrown instead. */
  datatype Result<+T> = Ok(value: T) | Err(msg: string)

  /** Concatenation of a list of strings. */
  function Concat(parts: seq<string>): (r: string)
  {
    if parts == [] then [] else Concat(parts[..|parts| - 1]) + parts[|parts| - 1]
  }

  /** `parts.join(sep)` */
  function Join(parts: seq<string>, sep: string): (r: string)
    ensures parts == [] ==> r == []
    ensures |parts| == 1 ==> r == parts[0]
  {
    if parts == [] then []
    else if |parts| == 1 then parts[0]
    else Join(parts[..|parts| - 1], sep) + sep + parts[|parts| - 1]
  }

  /** Number of occurrences of `sep` that `Join` inserts, stated through the length. */
  lemma {:induction false} JoinLength(parts: seq<string>, sep: string)
    requires parts != []
    ensures |Join(parts, sep)| == |Concat(parts)| + (|parts| - 1) * |sep|
  {
    if |parts| > 1 {
      var init, last := parts[..|parts| - 1], parts[|parts| - 1];
      JoinLength(init, sep);
      assert Join(parts, sep) == Join(init, sep) + sep + last;
      assert Concat(parts) == Concat(init) + last;
      assert (|parts| - 1) * |sep| == (|init| - 1) * |sep| + |sep|;
    }
  }

  lemma {:induction false} ConcatAppend(parts: seq<string>, s: string)
    ensures Concat(parts + [s]) == Concat(parts) + s
  {
    assert (parts + [s])[..|parts|] == parts;
  }

  /** `s.includes(c)` for a single character. */
  predicate Contains(s: string, c: char) {
    c in s
  }

  /** Decimal rendering of a natural number, as `String(n)` produces it. */
  function NatToString(n: nat): (r: string)
    ensures r != []
    ensures forall i :: 0 <= i < |r| ==> '0' <= r[i] <= '9'
    decreases n
  {
    if n < 10 then [DigitChar(n)] else NatToString(n / 10) + [DigitChar(n % 10)]
  }

  function DigitChar(d: nat): (c: char)
    requires d < 10
    ensures '0' <= c <= '9'
  {
    ['0', '1', '2', '3', '4', '5', '6', '7', '8', '9'][d]
  }

  /** Decimal rendering of an integer, as `String(n)` produces it. */
  function IntToString(n: int): (r: string)
    ensures r != []
  {
    if n < 0 then "-" + NatToString(-n) else NatToString(n)
  }

  /** Every element of `xs` satisfies nothing-empty. */
  predicate AllNonEmpty(xs: seq<string>) {
    forall i :: 0 <= i < |xs| ==> xs[i] != []
  }

  /** `xs.filter(x => x)` for strings: the empty strings removed, order kept. */
  function FilterNonEmpty(xs: seq<string>): (r: seq<string>)
    ensures AllNonEmpty(r)
    ensures |r| <= |xs|
  {
    if xs == [] then []
    else FilterNonEmpty(xs[..|xs| - 1]) + (if xs[|xs| - 1] == [] then [] else [xs[|xs| - 1]])
  }

  lemma {:induction false} FilterNonEmptyConcat(xs: seq<string>)
    ensures Concat(FilterNonEmpty(xs)) == Concat(xs)
  {
    if xs != [] {
      var init, last := xs[..|xs| - 1], xs[|xs| - 1];
      FilterNonEmptyConcat(init);
      if last != [] {
        ConcatAppend(FilterNonEmpty(init), last);
      } else {
        assert FilterNonEmpty(init) + [] == FilterNonEmpty(init);
      }
    }
  }

  lemma FilterNonEmptyAppend(xs: seq<string>, s: string)
    ensures FilterNonEmpty(xs + [s]) == FilterNonEmpty(xs) + (if s == [] then [] else [s])
  {
    assert (xs + [s])[..|xs|] == xs;
  }

  /** ASCII lower-casing of one character (the model's stand-in for `toLowerCase`). */
  function LowerChar(c: char): (r: char)
    ensures !('A' <= r <= 'Z')
    ensures r == c || 'A' <= c <= 'Z'
  {
    if 'A' <= c <= 'Z' then (c as int - 'A' as int + 'a' as int) as char else c
  }

  /** ASCII upper-casing of one character (the model's stand-in for `toUpperCase`). */
  function UpperChar(c: char): (r: char)
    ensures !('a' <= r <= 'z')
    ensures r == c || 'a' <= c <= 'z'
  {
    if 'a' <= c <= 'z' then (c as int - 'a' as int + 'A' as int) as char else c
  }

  function Lower(s: string): (r: string)
    ensures |r| == |s|
    ensures forall i :: 0 <= i < |s| ==> r[i] == LowerChar(s[i])
  {
    seq(|s|, i requires 0 <= i < |s| => LowerChar(s[i]))
  }

  /** `s.startsWith(p)` */
  predicate StartsWith(s: string, p: string) {
    |p| <= |s| && s[..|p|] == p
  }

  /** `s.includes(p)` */
  predicate Includes(s: string, p: string)
    decreases |s|
  {
    StartsWith(s, p) || (s != [] && Includes(s[1..], p))
  }

  /** The value of a character `'0'`..`'9'`. */
  function DigitValue(c: char): (d: nat)
    requires '0' <= c <= '9'
    ensures d < 10
  {
    c as int - '0' as int
  }

  predicate AllDigits(s: string) {
    forall i :: 0 <= i < |s| ==> '0' <= s[i] <= '9'
  }

  /** `parseInt(s)` of a string of decimal digits. */
  function ParseDigits(s: string): nat
    requires AllDigits(s)
  {
    if s == [] then 0 else ParseDigits(s[..|s| - 1]) * 10 + DigitValue(s[|s| - 1])
  }

  /** Rendering a number in decimal and reading it back gives the number. */
  lemma {:induction false} ParseNatToString(n: nat)
    ensures AllDigits(NatToString(n))
    ensures ParseDigits(NatToString(n)) == n
    decreases n
  {
    var s := NatToString(n);
    if n >= 10 {
      ParseNatToString(n / 10);
      assert s[..|s| - 1] == NatToString(n / 10);
    }
    var d := if n < 10 then n else n % 10;
    assert DigitValue(DigitChar(d)) == d by {
      assert ['0', '1', '2', '3', '4', '5', '6', '7', '8', '9'][d] as int == '0' as int + d;
    }
  }

  /** The last position of `c` in `s`, or -1. */
  function LastIndexOf(s: string, c: char): (k: int)
    ensures -1 <= k < |s|
    ensures k >= 0 ==> s[k] == c
    ensures forall j :: k < j < |s| ==> s[j] != c
  {
    if s == [] then -1
    else if s[|s| - 1] == c then |s| - 1
    else LastIndexOf(s[..|s| - 1], c)
  }

  /** `s.split(c)` for a one-character separator. */
  function Split(s: string, c: char): (parts: seq<string>)
    ensures parts != []
    decreases |s|
  {
    var k := LastIndexOf(s, c);
    if k < 0 then [s] else Split(s[..k], c) + [s[k + 1..]]
  }

  /** Splitting a joined list at its separator gives the list back, when no part holds the separator. */
  lemma {:induction false} SplitJoin(parts: seq<string>, c: char)
    requires parts != []
    requires forall i :: 0 <= i < |parts| ==> c !in parts[i]
    ensures Split(Join(parts, [c]), c) == parts
  {
    if |parts| > 1 {
      var init, last := parts[..|parts| - 1], parts[|parts| - 1];
      var j := Join(init, [c]);
      var s := j + [c] + last;
      assert s == Join(parts, [c]);
      LastSeparator(j, last, c);
      assert s[..|j|] == j;
      assert Split(s, c) == Split(j, c) + [last];
      SplitJoin(init, c);
    }
  }

  /** The last separator of `j + [c] + last` is the one before `last` when `last` holds none. */
  lemma LastSeparator(j: string, last: string, c: char)
    requires c !in last
    ensures LastIndexOf(j + [c] + last, c) == |j|
    ensures (j + [c] + last)[|j| + 1..] == last
  {
    var s := j + [c] + last;
    assert s[|j|] == c;
    assert s[|j| + 1..] == last;
    assert forall i :: |j| < i < |s| ==> s[i] == last[i - |j| - 1];
    LastIndexOfAt(s, c, |j|);
  }

  lemma LastIndexOfAt(s: string, c: char, k: nat)
    requires k < |s| && s[k] == c
    requires forall j :: k < j < |s| ==> s[j] != c
    ensures LastIndexOf(s, c) == k
  {
  }

  /** `Math.round`: the nearest integer, halves rounding up. */
  function Round(x: real): (r: int)
    ensures x - 0.5 < r as real <= x + 0.5
  {
    (x + 0.5).Floor
  }

  lemma RoundMonotone(x: real, y: real)
    requires x <= y
    ensures Round(x) <= Round(y)
  {
  }

  /** JavaScript white space and line terminators: what `\s` matches and what `trim` strips. */
  predicate IsWhitespace(c: char) {
    (9 <= c as int <= 13) || c as int == 32 || c as int == 0xA0 || c as int == 0x1680
    || (0x2000 <= c as int <= 0x200A) || c as int == 0x2028 || c as int == 0x2029 || c as int == 0x202F
    || c as int == 0x205F || c as int == 0x3000 || c as int == 0xFEFF
  }

  /** The first position of `s` at or after `i` that is not white space, or `|s|`. */
  function SkipWhitespace(s: string, i: nat): (j: nat)
    requires i <= |s|
    ensures i <= j <= |s|
    ensures forall k :: i <= k < j ==> IsWhitespace(s[k])
    ensures j < |s| ==> !IsWhitespace(s[j])
    decreases |s| - i
  {
    if i == |s| || !IsWhitespace(s[i]) then i else SkipWhitespace(s, i + 1)
  }

  /** The position after the last character of `s[..j]` that is not white space, or 0. */
  function TrimEndAt(s: string, j: nat): (e: nat)
    requires j <= |s|
    ensures e <= j
    ensures forall k :: e <= k < j ==> IsWhitespace(s[k])
    ensures e > 0 ==> !IsWhitespace(s[e - 1])
  {
    if j == 0 || !IsWhitespace(s[j - 1]) then j else TrimEndAt(s, j - 1)
  }

  /** `s.trim()`: white space removed at both ends. */
  function Trim(s: string): (r: string)
    ensures r != [] ==> !IsWhitespace(r[0]) && !IsWhitespace(r[|r| - 1])
    ensures r == [] <==> forall k :: 0 <= k < |s| ==> IsWhitespace(s[k])
    ensures exists i, j :: 0 <= i <= j <= |s| && r == s[i..j]
  {
    var i := SkipWhitespace(s, 0);
    var e := TrimEndAt(s, |s|);
    if e <= i then
      assert forall k :: 0 <= k < |s| ==> IsWhitespace(s[k]);
      assert s[0..0] == [];
      []
    else
      assert s[i] == s[i..e][0];
      s[i..e]
  }

  /** Extending a prefix by one element. */
  lemma PrefixStep<T>(s: seq<T>, i: nat)
    requires i < |s|
    ensures s[..i + 1] == s[..i] + [s[i]]
  {
  }

  /** Nothing in front of a sequence leaves it as it is. */
  lemma EmptyFront<T>(s: seq<T>)
    ensures [] + s == s
  {
  }

  /** Removing the element at `i` takes exactly that element out of the multiset. */
  lemma DeleteAtMultiset<T>(s: seq<T>, i: nat)
    requires i < |s|
    ensures multiset(s[..i] + s[i + 1..]) + multiset{s[i]} == multiset(s)
  {
    assert s == s[..i] + [s[i]] + s[i + 1..];
  }

  /** `ys` is `xs` with `f` applied to every element. */
  predicate Mapped<A, B(==)>(xs: seq<A>, ys: seq<B>, f: A -> B) {
    |xs| == |ys| && forall j :: 0 <= j < |xs| ==> ys[j] == f(xs[j])
  }

  lemma MappedStep<A, B>(xs: seq<A>, i: nat, ys: seq<B>, f: A -> B, y: B)
    requires i < |xs| && Mapped(xs[..i], ys, f) && y == f(xs[i])
    ensures Mapped(xs[..i + 1], ys + [y], f)
  {
  }

  /** The insertion order of a `Set`: each value at its first occurrence. */
  function Dedupe<T(==,!new)>(xs: seq<T>): (d: seq<T>)
    ensures forall v :: v in d <==> v in xs
  {
    if xs == [] then []
    else
      var rest := Dedupe(xs[..|xs| - 1]);
      var x := xs[|xs| - 1];
      assert forall v :: v in xs <==> v in xs[..|xs| - 1] || v == x;
      if x in rest then rest else rest + [x]
  }

  predicate NoDuplicates<T(==)>(xs: seq<T>) {
    forall i, j :: 0 <= i < j < |xs| ==> xs[i] != xs[j]
  }

  lemma {:induction false} DedupeNoDuplicates<T(!new)>(xs: seq<T>)
    ensures NoDuplicates(Dedupe(xs))
  {
    if xs != [] {
      DedupeNoDuplicates(xs[..|xs| - 1]);
    }
  }

  /** The index of the first occurrence of `v`. */
  function FirstIndex<T(==)>(xs: seq<T>, v: T): (k: nat)
    requires v in xs
    ensures k < |xs| && xs[k] == v && forall j :: 0 <= j < k ==> xs[j] != v
  {
    if xs[0] == v then 0 else 1 + FirstIndex(xs[1..], v)
  }

  /** A value occurring before another for the first time comes first in the insertion order. */
  lemma {:induction false} DedupeFirstOccurrenceOrder<T(!new)>(xs: seq<T>, i: nat, j: nat)
    requires i < j < |Dedupe(xs)|
    ensures FirstIndex(xs, Dedupe(xs)[i]) < FirstIndex(xs, Dedupe(xs)[j])
  {
    var init, x := xs[..|xs| - 1], xs[|xs| - 1];
    var rest := Dedupe(init);
    var d := Dedupe(xs);
    assert xs == init + [x];
    FirstIndexPrefix(init, x, d[i]);
    if x in rest || j < |rest| {
      FirstIndexPrefix(init, x, d[j]);
      DedupeFirstOccurrenceOrder(init, i, j);
    } else {
      assert d[j] == x && x !in init;
      assert FirstIndex(xs, x) == |init|;
    }
  }

  lemma FirstIndexPrefix<T>(init: seq<T>, x: T, v: T)
    requires v in init
    ensures v in init + [x] && FirstIndex(init + [x], v) == FirstIndex(init, v)
  {
    var k := FirstIndex(init, v);
    var xs := init + [x];
    var m := FirstIndex(xs, v);
    assert xs[k] == v;
  }

  /** Adds `v` to an insertion-ordered set. */
  function SetAdd<T(==)>(s: seq<T>, v: T): seq<T> {
    if v in s then s else s + [v]
  }

  /** Adding one more value to the sequence adds it to the insertion order unless already there. */
  lemma DedupeSnoc<T(!new)>(xs: seq<T>, x: T)
    ensures Dedupe(xs + [x]) == SetAdd(Dedupe(xs), x)
  {
    assert (xs + [x])[..|xs|] == xs;
  }

  /** The index of the first element satisfying `p`, as a `for` loop with an early return finds it. */
  function FirstWhere<T>(xs: seq<T>, p: T -> bool): (r: Option<nat>)
    ensures r.Some? ==> r.value < |xs| && p(xs[r.value])
    ensures forall j :: 0 <= j < |xs| && (r.None? || j < r.value) ==> !p(xs[j])
  {
    if xs == [] then None
    else if p(xs[0]) then Some(0)
    else match FirstWhere(xs[1..], p)
      case None => None
      case Some(k) => Some(k + 1)
  }
}
