/** One Pyroscope label filter, `name<op>"value"`: reading its operator, splitting it into label name,
    operator and label value, composing it back, and the editor state that changes as the user edits
    each part. */
module PyroscopeFilterItem {
  import opened Base

  /** The operators, in the order they are looked for. */
  const Operators: seq<string> := ["!=", "=~", "!~", "="]

  /** The operator used when the filter has none. */
  const DefaultOperator := "="

  /** A character that occurs in some operator. */
  predicate OperatorChar(c: char) {
    c == '!' || c == '=' || c == '~'
  }

  /** Text with no operator character in it, such as a label name. */
  predicate Plain(s: string) {
    forall i :: 0 <= i < |s| ==> !OperatorChar(s[i])
  }

  /** getSeparator: none for the empty filter; otherwise the first operator of `!=`, `=~`, `!~`, `=`
      that the filter contains, and none when it contains none of them. */
  function GetSeparator(value: string): (r: Option<string>)
    ensures value == [] ==> r.None?
    ensures r.Some? ==> r.value in Operators && Includes(value, r.value)
    ensures value != [] ==>
      (r == Some("!=") <==> Includes(value, "!="))
      && (r == Some("=~") <==> !Includes(value, "!=") && Includes(value, "=~"))
      && (r == Some("!~") <==> !Includes(value, "!=") && !Includes(value, "=~") && Includes(value, "!~"))
      && (r == Some("=") <==> !Includes(value, "!=") && !Includes(value, "=~") && !Includes(value, "!~")
                                && Includes(value, "="))
  {
    if value == [] then None
    else if Includes(value, "!=") then Some("!=")
    else if Includes(value, "=~") then Some("=~")
    else if Includes(value, "!~") then Some("!~")
    else if Includes(value, "=") then Some("=")
    else None
  }

  /** The first position at which `p` occurs in `s`. */
  function IndexOf(s: string, p: string): (r: Option<nat>)
    ensures r.None? <==> !Includes(s, p)
    ensures r.Some? ==> r.value + |p| <= |s| && s[r.value..r.value + |p|] == p
    decreases |s|
  {
    if StartsWith(s, p) then Some(0)
    else if s == [] then None
    else match IndexOf(s[1..], p)
      case None => None
      case Some(k) =>
        assert s[1..][k..k + |p|] == s[k + 1..k + 1 + |p|];
        Some(k + 1)
  }

  /** `s.split(sep)[0]`: the text before the first occurrence of the separator. */
  function SplitFirst(s: string, sep: string): (r: string)
    ensures IndexOf(s, sep).Some? ==> r == s[..IndexOf(s, sep).value]
    ensures IndexOf(s, sep).None? ==> r == s
  {
    match IndexOf(s, sep)
    case Some(k) => s[..k]
    case None => s
  }

  /** `s.split(sep)[1]` for a separator `s` contains: the text between its first and second occurrence,
      or to the end when it occurs once. */
  function SplitSecond(s: string, sep: string): (r: string)
    requires Includes(s, sep)
  {
    var k := IndexOf(s, sep).value;
    var rest := s[k + |sep|..];
    match IndexOf(rest, sep)
    case Some(k2) => rest[..k2]
    case None => rest
  }

  /** `s.slice(1, -1)`: the text without its first and last characters. */
  function Unquote(s: string): (r: string)
    ensures |s| >= 2 ==> r == s[1..|s| - 1]
    ensures |s| < 2 ==> r == []
  {
    if |s| >= 2 then s[1..|s| - 1] else []
  }

  /** A filter split into its parts. */
  datatype Parts = Parts(labelName: string, operator: string, labelValue: string)

  /** The initial label name, operator and label value as written: the name before the operator, the
      operator (`=` when there is none), and the value between the operator and its next occurrence,
      without its quotes. */
  function ParseFilterAsWritten(value: string): (p: Parts)
    ensures GetSeparator(value).None? ==> p == Parts([], DefaultOperator, [])
    ensures GetSeparator(value).Some? ==> p.operator == GetSeparator(value).value
  {
    match GetSeparator(value)
    case None => Parts([], DefaultOperator, [])
    case Some(sep) => Parts(SplitFirst(value, sep), sep, Unquote(SplitSecond(value, sep)))
  }

  /** The initial parts as intended: the label value is everything after the first operator, without
      its quotes. */
  function ParseFilter(value: string): (p: Parts)
    ensures GetSeparator(value).None? ==> p == Parts([], DefaultOperator, [])
    ensures GetSeparator(value).Some? ==>
      var sep := GetSeparator(value).value;
      var k := IndexOf(value, sep).value;
      p == Parts(value[..k], sep, Unquote(value[k + |sep|..]))
  {
    match GetSeparator(value)
    case None => Parts([], DefaultOperator, [])
    case Some(sep) =>
      var k := IndexOf(value, sep).value;
      Parts(value[..k], sep, Unquote(value[k + |sep|..]))
  }

  /** The filter a label name, operator and label value make: `name<op>"value"`. */
  function Compose(labelName: string, operator: string, labelValue: string): (r: string)
    ensures |r| == |labelName| + |operator| + |labelValue| + 2
    ensures r[..|labelName|] == labelName && r[|labelName|..|labelName| + |operator|] == operator
    ensures r[|labelName| + |operator|..] == "\"" + labelValue + "\""
  {
    var r := labelName + operator + "\"" + labelValue + "\"";
    assert r == labelName + (operator + ("\"" + labelValue + "\""));
    r
  }

  /** handleFilterItemValueChange's test: every part is set and the filter differs from the current one. */
  predicate ShouldEmit(labelName: string, operator: string, labelValue: string, current: string) {
    labelName != [] && operator != [] && labelValue != [] && Compose(labelName, operator, labelValue) != current
  }

  /** `p` occurs in `s` at position `j`. */
  predicate OccursAt(s: string, p: string, j: nat) {
    j + |p| <= |s| && s[j..j + |p|] == p
  }

  /** A slice of `s` past its first character is the same slice of `s[1..]`, one place earlier. */
  lemma TailSlice(s: string, j: nat, n: nat)
    requires 1 <= j && j + n <= |s|
    ensures s[1..][j - 1..j - 1 + n] == s[j..j + n]
  {
    var u, v := s[1..][j - 1..j - 1 + n], s[j..j + n];
    assert forall k :: 0 <= k < n ==> u[k] == v[k];
  }

  /** `s.includes(p)` holds exactly when `p` occurs at some position. */
  lemma {:induction false} IncludesIff(s: string, p: string)
    ensures Includes(s, p) <==> exists j: nat :: OccursAt(s, p, j)
    decreases |s|
  {
    if StartsWith(s, p) {
      assert s[0..0 + |p|] == p;
      assert OccursAt(s, p, 0);
    } else if s == [] {
    } else {
      IncludesIff(s[1..], p);
      if Includes(s, p) {
        var j: nat :| OccursAt(s[1..], p, j);
        TailSlice(s, j + 1, |p|);
        assert OccursAt(s, p, j + 1);
      } else {
        forall j: nat | OccursAt(s, p, j)
          ensures false
        {
          if j > 0 {
            TailSlice(s, j, |p|);
            assert OccursAt(s[1..], p, j - 1);
          }
        }
      }
    }
  }

  /** In `a + m + b` with plain `a` and `b`, text made of operator characters can only occur inside `m`. */
  lemma OccursOnlyInside(a: string, m: string, b: string, p: string)
    requires Plain(a) && Plain(b) && |p| > 0 && forall i :: 0 <= i < |p| ==> OperatorChar(p[i])
    ensures Includes(a + m + b, p) <==> Includes(m, p)
  {
    var s := a + m + b;
    IncludesIff(s, p);
    IncludesIff(m, p);
    if Includes(s, p) {
      var j: nat :| OccursAt(s, p, j);
      assert s[j] == p[0];
      assert s[j + |p| - 1] == p[|p| - 1];
      assert |a| <= j && j + |p| <= |a| + |m|;
      assert m[j - |a|..j - |a| + |p|] == s[j..j + |p|];
      assert OccursAt(m, p, j - |a|);
    }
    if Includes(m, p) {
      var j: nat :| OccursAt(m, p, j);
      assert s[|a| + j..|a| + j + |p|] == m[j..j + |p|];
      assert OccursAt(s, p, |a| + j);
    }
  }

  /** Which operators occur in each operator. */
  lemma OperatorsInOperators(op: string)
    requires op in Operators
    ensures Includes(op, "!=") <==> op == "!="
    ensures Includes(op, "=~") <==> op == "=~"
    ensures Includes(op, "!~") <==> op == "!~"
    ensures Includes(op, "=") <==> op == "!=" || op == "=~" || op == "="
  {
    IncludesIff(op, "!=");
    IncludesIff(op, "=~");
    IncludesIff(op, "!~");
    IncludesIff(op, "=");
    if op == "!=" {
      assert OccursAt(op, "!=", 0) && OccursAt(op, "=", 1);
    } else if op == "=~" {
      assert OccursAt(op, "=~", 0) && OccursAt(op, "=", 0);
    } else if op == "!~" {
      assert OccursAt(op, "!~", 0);
    } else {
      assert OccursAt(op, "=", 0);
    }
  }

  /** A composed filter with a plain label name and value is read back with its own operator. */
  lemma SeparatorOfCompose(labelName: string, operator: string, labelValue: string)
    requires Plain(labelName) && Plain(labelValue) && operator in Operators
    ensures GetSeparator(Compose(labelName, operator, labelValue)) == Some(operator)
  {
    var tail := "\"" + labelValue + "\"";
    assert Plain(tail);
    assert Compose(labelName, operator, labelValue) == labelName + operator + tail;
    OccursOnlyInside(labelName, operator, tail, "!=");
    OccursOnlyInside(labelName, operator, tail, "=~");
    OccursOnlyInside(labelName, operator, tail, "!~");
    OccursOnlyInside(labelName, operator, tail, "=");
    OperatorsInOperators(operator);
  }

  /** In `a + rest` with plain `a`, an operator that starts `rest` is first found right after `a`. */
  lemma {:induction false} IndexAfterPlain(a: string, rest: string, op: string)
    requires Plain(a) && op in Operators && StartsWith(rest, op)
    ensures IndexOf(a + rest, op) == Some(|a|)
    decreases |a|
  {
    if a == [] {
      assert a + rest == rest;
    } else {
      assert !StartsWith(a + rest, op) by {
        assert (a + rest)[0] == a[0];
        assert op[0] == '!' || op[0] == '=';
      }
      assert (a + rest)[1..] == a[1..] + rest;
      IndexAfterPlain(a[1..], rest, op);
    }
  }

  /** Reading back a composed filter gives its parts, for any label value once the label name is plain
      and the operator is the one recognised. */
  lemma ParseCompose(labelName: string, operator: string, labelValue: string)
    requires Plain(labelName) && operator in Operators
    requires GetSeparator(Compose(labelName, operator, labelValue)) == Some(operator)
    ensures ParseFilter(Compose(labelName, operator, labelValue)) == Parts(labelName, operator, labelValue)
  {
    var s := Compose(labelName, operator, labelValue);
    var tail := "\"" + labelValue + "\"";
    assert s == labelName + (operator + tail);
    assert StartsWith(operator + tail, operator) by {
      assert (operator + tail)[..|operator|] == operator;
    }
    IndexAfterPlain(labelName, operator + tail, operator);
    assert s[|labelName| + |operator|..] == tail;
    assert tail[1..|tail| - 1] == labelValue;
  }

  /** A filter whose label name and value are plain reads back whole. */
  lemma ParsePlainCompose(labelName: string, operator: string, labelValue: string)
    requires Plain(labelName) && Plain(labelValue) && operator in Operators
    ensures ParseFilter(Compose(labelName, operator, labelValue)) == Parts(labelName, operator, labelValue)
  {
    SeparatorOfCompose(labelName, operator, labelValue);
    ParseCompose(labelName, operator, labelValue);
  }

  /** Plain text holds no operator. */
  lemma PlainExcludesOperator(t: string, op: string)
    requires Plain(t) && op in Operators
    ensures !Includes(t, op)
  {
    forall j: nat | j + |op| <= |t|
      ensures !OccursAt(t, op, j)
    {
      assert t[j..j + |op|][0] == t[j];
    }
    IncludesIff(t, op);
  }

  /** As written too, a filter whose label name and value are plain reads back whole: the editor the
      component starts from shows the parts that composed its filter. */
  lemma ParseAsWrittenPlainCompose(labelName: string, operator: string, labelValue: string)
    requires Plain(labelName) && Plain(labelValue) && operator in Operators
    ensures ParseFilterAsWritten(Compose(labelName, operator, labelValue)) == Parts(labelName, operator, labelValue)
  {
    var s := Compose(labelName, operator, labelValue);
    var tail := "\"" + labelValue + "\"";
    assert GetSeparator(s) == Some(operator) by {
      SeparatorOfCompose(labelName, operator, labelValue);
    }
    assert Includes(s, operator) && SplitFirst(s, operator) == labelName && SplitSecond(s, operator) == tail by {
      assert s == labelName + (operator + tail);
      assert Plain(tail);
      SplitPlain(labelName, operator, tail);
    }
    assert Unquote(tail) == labelValue by {
      assert tail[1..|tail| - 1] == labelValue;
    }
  }

  /** Split at an operator, `a<op>t` with plain `a` and `t` has `a` and `t` as its two parts. */
  lemma SplitPlain(a: string, op: string, t: string)
    requires Plain(a) && Plain(t) && op in Operators
    ensures Includes(a + (op + t), op)
    ensures SplitFirst(a + (op + t), op) == a && SplitSecond(a + (op + t), op) == t
  {
    assert StartsWith(op + t, op) by {
      assert (op + t)[..|op|] == op;
    }
    IndexAfterPlain(a, op + t, op);
    assert (a + (op + t))[|a| + |op|..] == t;
    PlainExcludesOperator(t, op);
  }

  /** A filter whose only operator characters are two `=` signs is read with the operator `=`. */
  lemma EqualsOnlySeparator(a: string, b: string, c: string)
    requires Plain(a) && Plain(b) && Plain(c)
    ensures GetSeparator(a + "=" + b + "=" + c) == Some("=")
  {
    var s := a + "=" + b + "=" + c;
    assert forall i :: 0 <= i < |s| && OperatorChar(s[i]) ==> s[i] == '=';
    IncludesIff(s, "!=");
    IncludesIff(s, "=~");
    IncludesIff(s, "!~");
    IncludesIff(s, "=");
    forall j: nat | j + 2 <= |s|
      ensures !OccursAt(s, "!=", j) && !OccursAt(s, "=~", j) && !OccursAt(s, "!~", j)
    {
      assert s[j..j + 2][0] == s[j] && s[j..j + 2][1] == s[j + 1];
    }
    assert s[|a|..|a| + 1] == "=";
    assert OccursAt(s, "=", |a|);
  }

  /** As written, a label value holding `=` after an `=` operator is cut at it: the value read back is
      the text before that `=`, less its last character (`job="a=b"` reads back with an empty value),
      while the intended reading gives the value back. */
  lemma AsWrittenCutsValue(labelName: string, before: string, after: string)
    requires Plain(labelName) && Plain(before) && Plain(after)
    ensures var s := Compose(labelName, "=", before + "=" + after);
      && GetSeparator(s) == Some("=")
      && ParseFilter(s) == Parts(labelName, "=", before + "=" + after)
      && ParseFilterAsWritten(s).labelValue == Unquote("\"" + before)
      && ParseFilterAsWritten(s).labelValue != before + "=" + after
  {
    var v := before + "=" + after;
    var s := Compose(labelName, "=", v);
    var head := "\"" + before;
    var tail := after + "\"";
    assert Plain(head) && Plain(tail);
    assert s == labelName + "=" + head + "=" + tail;
    EqualsOnlySeparator(labelName, head, tail);
    ParseCompose(labelName, "=", v);
    SplitSecondOfTwoEquals(labelName, head, tail);
  }

  /** Split at `=`, `a=b=c` with plain `a` and `b` has `b` as its second part. */
  lemma SplitSecondOfTwoEquals(a: string, b: string, c: string)
    requires Plain(a) && Plain(b)
    ensures Includes(a + "=" + b + "=" + c, "=")
    ensures SplitSecond(a + "=" + b + "=" + c, "=") == b
  {
    var rest := b + ("=" + c);
    TwoEqualsShape(a, b, c);
    IndexAfterPlain(a, "=" + rest, "=");
    IndexAfterPlain(b, "=" + c, "=");
  }

  /** `a=b=c` is `a` before `=` and `b=c`, and `b=c` is `b` before `=` and `c`. */
  lemma TwoEqualsShape(a: string, b: string, c: string)
    ensures var rest := b + ("=" + c);
      && a + "=" + b + "=" + c == a + ("=" + rest)
      && (a + "=" + b + "=" + c)[|a| + 1..] == rest
      && StartsWith("=" + rest, "=") && StartsWith("=" + c, "=")
  {
    var rest := b + ("=" + c);
    var s := a + "=" + b + "=" + c;
    assert s == a + ("=" + rest);
    assert s[|a| + 1..] == rest;
    assert ("=" + rest)[..1] == "=";
    assert ("=" + c)[..1] == "=";
  }

  /** The editor of one filter: the filter text its parent holds, the three parts being edited, and
      the filters passed to the parent's `onChange`, in order. */
  class FilterItem {
    var value: string
    var labelName: string
    var operator: string
    var labelValue: string
    const hasOnChange: bool
    const hasDeleteItem: bool
    var emitted: seq<string>
    var deleteRequests: nat

    /** The parts a newly shown editor starts from. */
    constructor(value: string, hasOnChange: bool, hasDeleteItem: bool)
      ensures this.value == value && this.hasOnChange == hasOnChange && this.hasDeleteItem == hasDeleteItem
      ensures emitted == [] && deleteRequests == 0
      ensures Parts(labelName, operator, labelValue) == ParseFilterAsWritten(value)
    {
      this.value := value;
      this.hasOnChange := hasOnChange;
      this.hasDeleteItem := hasDeleteItem;
      deleteRequests := 0;
      var parts := ParseFilterAsWritten(value);
      labelName := parts.labelName;
      operator := parts.operator;
      labelValue := parts.labelValue;
      emitted := [];
    }

    /** The parent passes a new filter; the parts being edited stay as they are. */
    method SetValue(newValue: string)
      modifies this`value
      ensures value == newValue
    {
      value := newValue;
    }

    /** handleFilterItemValueChange: passes the composed filter on when every part is set and it
        differs from the current filter. */
    method HandleFilterItemValueChange(name: string, op: string, lv: string)
      modifies this`emitted
      ensures emitted == old(emitted) + (if hasOnChange && ShouldEmit(name, op, lv, value) then [Compose(name, op, lv)] else [])
    {
      var newValue := name + op + "\"" + lv + "\"";
      assert newValue == Compose(name, op, lv);
      if name != [] && op != [] && lv != [] && newValue != value {
        if hasOnChange {
          emitted := emitted + [newValue];
        }
      }
    }

    /** handleLabelNameChange: a new label name clears a set label value, telling the parent the filter
        is now empty. */
    method HandleLabelNameChange(name: string)
      modifies this`labelName, this`labelValue, this`emitted
      ensures labelName == name && labelValue == []
      ensures emitted == old(emitted) + (if old(labelValue) != [] && hasOnChange then [[]] else [])
    {
      if labelValue != [] {
        labelValue := [];
        if hasOnChange {
          emitted := emitted + [[]];
        }
      }
      labelName := name;
    }

    /** handleOperatorChange: the new operator, then the composed filter passed on. */
    method HandleOperatorChange(op: string)
      modifies this`operator, this`emitted
      ensures operator == op
      ensures emitted == old(emitted)
        + (if hasOnChange && ShouldEmit(labelName, op, labelValue, value) then [Compose(labelName, op, labelValue)] else [])
    {
      operator := op;
      HandleFilterItemValueChange(labelName, op, labelValue);
    }

    /** handleLabelValueChange: the new label value, then the composed filter passed on; a filter passed
        on reads back as the parts being edited. */
    method HandleLabelValueChange(v: string)
      modifies this`labelValue, this`emitted
      ensures labelValue == v
      ensures emitted == old(emitted)
        + (if hasOnChange && ShouldEmit(labelName, operator, v, value) then [Compose(labelName, operator, v)] else [])
      ensures |emitted| > |old(emitted)| && Plain(labelName) && Plain(v) && operator in Operators ==>
        ParseFilterAsWritten(emitted[|emitted| - 1]) == Parts(labelName, operator, labelValue)
        && ParseFilter(emitted[|emitted| - 1]) == Parts(labelName, operator, labelValue)
    {
      labelValue := v;
      HandleFilterItemValueChange(labelName, operator, v);
      if |emitted| > |old(emitted)| && Plain(labelName) && Plain(v) && operator in Operators {
        ParseAsWrittenPlainCompose(labelName, operator, v);
        ParsePlainCompose(labelName, operator, v);
      }
    }

    /** handleDeleteClick: asks the parent, when it listens, to delete this filter. */
    method HandleDeleteClick()
      modifies this`deleteRequests
      ensures deleteRequests == old(deleteRequests) + (if hasDeleteItem then 1 else 0)
    {
      if hasDeleteItem {
        deleteRequests := deleteRequests + 1;
      }
    }
  }
}
