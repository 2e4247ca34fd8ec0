/** The conditional-format editor of the table panel: each handler copies the cell settings it was
    given, edits the copy in place, and hands the copy on; the given array is left alone. */
module ConditionalPanel {
  import opened Base
  import opened TablePanel

  /** The rule a new row of the editor starts with: a value condition on the empty text. */
  const NewRule := CellSettings(ValueCondition(Some("")), None, None, None)

  /** The editor over the array of rules it was given (an empty one when none was); `changes`
      records, in order, every value handed to `onChange`, `None` standing for undefined. */
  class ConditionalEditor {
    const cellSettings: array<CellSettings>
    var changes: seq<Option<seq<CellSettings>>>

    constructor (given: array<CellSettings>)
      ensures cellSettings == given && changes == []
    {
      cellSettings := given;
      changes := [];
    }

    /** The editor without rules: `cellSettings` defaults to the empty array. */
    constructor WithoutRules()
      ensures cellSettings.Length == 0 && changes == []
    {
      cellSettings := new CellSettings[0];
      changes := [];
    }

    /** A copy of the given rules. */
    method Copy() returns (copy: array<CellSettings>)
      ensures fresh(copy) && copy[..] == cellSettings[..]
    {
      copy := new CellSettings[cellSettings.Length](i requires 0 <= i < cellSettings.Length reads cellSettings => cellSettings[i]);
    }

    /** handleCellChange: the copy with rule `index` replaced. */
    method HandleCellChange(index: nat, updatedCell: CellSettings)
      requires index < cellSettings.Length
      modifies this
      ensures unchanged(cellSettings)
      ensures changes == old(changes) + [Some(cellSettings[..][index := updatedCell])]
    {
      var updatedCells := Copy();
      updatedCells[index] := updatedCell;
      changes := changes + [Some(updatedCells[..])];
    }

    /** handleCellDelete: the copy without rule `index`, or undefined when no rule is left. */
    method HandleCellDelete(index: nat)
      requires index < cellSettings.Length
      modifies this
      ensures unchanged(cellSettings)
      ensures var rest := cellSettings[..index] + cellSettings[index + 1..];
        changes == old(changes) + [if rest == [] then None else Some(rest)]
    {
      var n := cellSettings.Length;
      var updatedCells := new CellSettings[n - 1](i requires 0 <= i < n - 1 reads cellSettings =>
                                                   if i < index then cellSettings[i] else cellSettings[i + 1]);
      assert updatedCells[..] == cellSettings[..index] + cellSettings[index + 1..];
      changes := changes + [if updatedCells.Length > 0 then Some(updatedCells[..]) else None];
    }

    /** handleAddCell: the copy with a new value rule on the empty text at the end. */
    method HandleAddCell()
      modifies this
      ensures unchanged(cellSettings)
      ensures changes == old(changes) + [Some(cellSettings[..] + [NewRule])]
    {
      var n := cellSettings.Length;
      var updatedCells := new CellSettings[n + 1](i requires 0 <= i <= n reads cellSettings =>
                                                   if i < n then cellSettings[i] else NewRule);
      assert updatedCells[..] == cellSettings[..] + [NewRule];
      changes := changes + [Some(updatedCells[..])];
    }
  }

  /** A change keeps the number of rules and every other rule. */
  lemma ChangeKeepsOthers(rules: seq<CellSettings>, index: nat, updated: CellSettings)
    requires index < |rules|
    ensures var r := rules[index := updated];
      |r| == |rules| && r[index] == updated && forall j :: 0 <= j < |rules| && j != index ==> r[j] == rules[j]
  {
  }

  /** A deletion removes exactly rule `index`: the rules before it stay in place, the ones after it
      move up by one, and deleting the only rule leaves none. */
  lemma DeleteRemovesOne(rules: seq<CellSettings>, index: nat)
    requires index < |rules|
    ensures var r := rules[..index] + rules[index + 1..];
      |r| == |rules| - 1
      && (forall j :: 0 <= j < index ==> r[j] == rules[j])
      && (forall j :: index <= j < |r| ==> r[j] == rules[j + 1])
      && (|rules| == 1 ==> r == [])
  {
  }

  /** Deleting the rule just added gives back the rules it was added to. */
  lemma DeleteUndoesAdd(rules: seq<CellSettings>)
    ensures var added := rules + [NewRule]; added[..|rules|] + added[|rules| + 1..] == rules
  {
    var added := rules + [NewRule];
    assert added[..|rules|] == rules;
  }
}
