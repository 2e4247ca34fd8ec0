/** Row selection in the virtualized logs list: the selected row indices and the anchor
    of the last click, updated by mouse and keyboard handlers, and the copy of the selection. */
module LogsSelection {
  import opened Base
  import opened PersesCore
  import LogsCopyHelpers

  function Min(a: int, b: int): int { if a <= b then a else b }
  function Max(a: int, b: int): int { if a <= b then b else a }

  /** The selected indices below `count`, in ascending order. */
  function SortedSelection(selected: set<int>, count: nat): seq<int>
  {
    if count == 0 then []
    else SortedSelection(selected, count - 1) + (if count - 1 in selected then [count - 1] else [])
  }

  /** The indices of `logs` that are selected, in ascending order; indices past the end name no log. */
  predicate IsCopyOrder(indices: seq<int>, selected: set<int>, count: nat) {
    && (forall k :: 0 <= k < |indices| ==> 0 <= indices[k] < count && indices[k] in selected)
    && (forall k, m :: 0 <= k < m < |indices| ==> indices[k] < indices[m])
    && (forall i :: 0 <= i < count && i in selected ==> i in indices)
  }

  class LogSelection {
    /** `selectedRows` */
    var selectedRows: set<int>
    /** `lastSelectedIndex`, the anchor of shift-click ranges; `None` is `null`. */
    var lastSelectedIndex: Option<int>

    constructor ()
      ensures selectedRows == {} && lastSelectedIndex == None
    {
      selectedRows := {};
      lastSelectedIndex := None;
    }

    /** handleRowSelect: shift-click selects a range from the anchor, ctrl/meta-click toggles one
        row, a plain click only moves the anchor. */
    method HandleRowSelect(index: int, shiftKey: bool, ctrlKey: bool, metaKey: bool)
      modifies this
      ensures shiftKey && old(lastSelectedIndex).Some? ==>
        var a := old(lastSelectedIndex).value;
        (forall i :: i in selectedRows <==> Min(a, index) <= i <= Max(a, index)) && lastSelectedIndex == old(lastSelectedIndex)
      ensures shiftKey && old(lastSelectedIndex).None? ==>
        selectedRows == {index} && lastSelectedIndex == Some(index)
      ensures !shiftKey && (ctrlKey || metaKey) ==>
        && (index in old(selectedRows) ==> selectedRows == old(selectedRows) - {index})
        && (index !in old(selectedRows) ==> selectedRows == old(selectedRows) + {index})
        && lastSelectedIndex == Some(index)
      ensures !shiftKey && !ctrlKey && !metaKey ==>
        selectedRows == old(selectedRows) && lastSelectedIndex == Some(index)
    {
      if shiftKey {
        if lastSelectedIndex.Some? {
          var start := Min(lastSelectedIndex.value, index);
          var end := Max(lastSelectedIndex.value, index);
          var newSelection: set<int> := {};
          var i := start;
          while i <= end
            invariant start <= i <= end + 1
            invariant forall j :: j in newSelection <==> start <= j < i
            decreases end - i
          {
            newSelection := newSelection + {i};
            i := i + 1;
          }
          selectedRows := newSelection;
        } else {
          selectedRows := {index};
          lastSelectedIndex := Some(index);
        }
      } else if ctrlKey || metaKey {
        var newSelection := selectedRows;
        if index in newSelection {
          newSelection := newSelection - {index};
        } else {
          newSelection := newSelection + {index};
        }
        selectedRows := newSelection;
        lastSelectedIndex := Some(index);
      } else {
        lastSelectedIndex := Some(index);
      }
    }

    /** Cmd/Ctrl+A: every row selected, the anchor on the last row when there is one. */
    method SelectAll(logCount: nat)
      modifies this
      ensures forall i :: i in selectedRows <==> 0 <= i < logCount
      ensures logCount > 0 ==> lastSelectedIndex == Some(logCount - 1)
      ensures logCount == 0 ==> lastSelectedIndex == old(lastSelectedIndex)
    {
      var allIndices: set<int> := {};
      for i := 0 to logCount
        invariant forall j :: j in allIndices <==> 0 <= j < i
      {
        allIndices := allIndices + {i};
      }
      selectedRows := allIndices;
      if logCount > 0 {
        lastSelectedIndex := Some(logCount - 1);
      }
    }

    /** Escape: a non-empty selection is cleared and the anchor reset; otherwise nothing changes. */
    method Escape()
      modifies this
      ensures old(selectedRows) != {} ==> selectedRows == {} && lastSelectedIndex == None
      ensures old(selectedRows) == {} ==> selectedRows == old(selectedRows) && lastSelectedIndex == old(lastSelectedIndex)
    {
      if selectedRows != {} {
        selectedRows := {};
        lastSelectedIndex := None;
      }
    }

    /** The selected row indices sorted ascending, those with no log dropped. */
    method CopyIndices(logCount: nat) returns (indices: seq<int>)
      ensures indices == SortedSelection(selectedRows, logCount)
    {
      indices := [];
      for i := 0 to logCount
        invariant indices == SortedSelection(selectedRows, i)
      {
        if i in selectedRows {
          indices := indices + [i];
        }
      }
    }

    /** The logs copied by the copy handlers, in ascending index order. */
    method SelectedLogs(logs: seq<LogEntry>) returns (selected: seq<LogEntry>, ghost indices: seq<int>)
      ensures IsCopyOrder(indices, selectedRows, |logs|)
      ensures |selected| == |indices|
      ensures forall k :: 0 <= k < |indices| ==> selected[k] == logs[indices[k]]
    {
      var idx := CopyIndices(|logs|);
      SortedSelectionIsCopyOrder(selectedRows, |logs|);
      indices := idx;
      selected := seq(|idx|, k requires 0 <= k < |idx| => logs[idx[k]]);
    }

    /** Copy (Cmd/Ctrl+C or the copy event) in the full format: the selected logs, one per line. */
    method CopyText(lib: LogsCopyHelpers.DateLib, logs: seq<LogEntry>) returns (text: string, ghost indices: seq<int>)
      ensures IsCopyOrder(indices, selectedRows, |logs|)
      ensures text == LogsCopyHelpers.FormatLogEntries(lib, seq(|indices|, k requires 0 <= k < |indices| => logs[indices[k]]))
    {
      var selected;
      selected, indices := SelectedLogs(logs);
      assert selected == seq(|indices|, k requires 0 <= k < |indices| => logs[indices[k]]);
      text := LogsCopyHelpers.FormatLogEntries(lib, selected);
    }
  }

  /** The sorted selection holds exactly the selected indices below `count`, strictly ascending. */
  lemma {:induction false} SortedSelectionIsCopyOrder(selected: set<int>, count: nat)
    ensures IsCopyOrder(SortedSelection(selected, count), selected, count)
  {
    if count > 0 {
      SortedSelectionIsCopyOrder(selected, count - 1);
    }
  }
}
