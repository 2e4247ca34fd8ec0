/** The list of Pyroscope label filters: each change builds the new list handed to the parent. */
module PyroscopeFilters {
  import opened Base

  /** One filter of the list: an identifier taken from the clock when it is added, and its text. */
  datatype Filter = Filter(id: int, value: string)

  /** The filter added to the list: identified by the current time, and empty. */
  function EmptyFilter(now: int): Filter {
    Filter(now, [])
  }

  /** The effect that keeps at least one filter: an empty list is replaced by one empty filter, and
      any other list is left alone. */
  function KeepOneFilter(filters: seq<Filter>, now: int): (r: Option<seq<Filter>>)
    ensures r.Some? <==> filters == []
    ensures r.Some? ==> |r.value| == 1 && r.value[0].value == [] && r.value[0].id == now
  {
    if |filters| == 0 then Some([EmptyFilter(now)]) else None
  }

  /** addFilterItem: the list with one empty filter appended. */
  function AddFilterItem(filters: seq<Filter>, now: int): (r: seq<Filter>)
    ensures |r| == |filters| + 1 && r[..|filters|] == filters
    ensures r[|filters|].value == [] && r[|filters|].id == now
  {
    filters + [EmptyFilter(now)]
  }

  /** updateFilter: the filter at `index` gets the new text and keeps its identifier; every other
      filter is unchanged, and an index outside the list changes nothing. */
  function UpdateFilter(filters: seq<Filter>, index: int, newValue: string): (r: seq<Filter>)
    ensures |r| == |filters|
    ensures forall i :: 0 <= i < |r| && i != index ==> r[i] == filters[i]
    ensures 0 <= index < |r| ==> r[index].id == filters[index].id && r[index].value == newValue
    decreases |filters|
  {
    if filters == [] then []
    else
      var head := if index == 0 then filters[0].(value := newValue) else filters[0];
      [head] + UpdateFilter(filters[1..], index - 1, newValue)
  }

  /** deleteFilter: the list without the filter at `index`, in the same order; an index outside the
      list deletes nothing. */
  function DeleteFilter(filters: seq<Filter>, index: int): (r: seq<Filter>)
    ensures 0 <= index < |filters| ==> r == filters[..index] + filters[index + 1..]
    ensures !(0 <= index < |filters|) ==> r == filters
    decreases |filters|
  {
    if filters == [] then []
    else if index == 0 then filters[1..]
    else [filters[0]] + DeleteFilter(filters[1..], index - 1)
  }

  /** Deleting the filter just added gives the list back. */
  lemma DeleteAfterAdd(filters: seq<Filter>, now: int)
    ensures DeleteFilter(AddFilterItem(filters, now), |filters|) == filters
  {
    assert AddFilterItem(filters, now)[..|filters|] == filters;
  }

  /** Updating a filter and then deleting it is deleting it. */
  lemma DeleteAfterUpdate(filters: seq<Filter>, index: int, newValue: string)
    ensures DeleteFilter(UpdateFilter(filters, index, newValue), index) == DeleteFilter(filters, index)
  {
    var u := UpdateFilter(filters, index, newValue);
    if 0 <= index < |filters| {
      assert u[..index] == filters[..index];
      assert u[index + 1..] == filters[index + 1..];
    } else {
      assert u == filters;
    }
  }

  /** The last text written to a filter is the one it keeps. */
  lemma UpdateTwice(filters: seq<Filter>, index: int, first: string, second: string)
    ensures UpdateFilter(UpdateFilter(filters, index, first), index, second) == UpdateFilter(filters, index, second)
  {
    var a := UpdateFilter(UpdateFilter(filters, index, first), index, second);
    var b := UpdateFilter(filters, index, second);
    assert forall i :: 0 <= i < |a| ==> a[i] == b[i];
  }

  /** Deleting removes that one filter and keeps all the others. */
  lemma DeleteRemovesOne(filters: seq<Filter>, index: int)
    requires 0 <= index < |filters|
    ensures multiset(DeleteFilter(filters, index)) + multiset{filters[index]} == multiset(filters)
  {
    DeleteAtMultiset(filters, index);
  }
}
