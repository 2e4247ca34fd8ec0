/** The query-parameter part of the Prometheus datasource editor: renaming, editing, adding and
    removing entries of the `queryParams` record of the spec. */
module PrometheusEditor {
  import opened Base
  import opened PersesCore

  datatype ParamField = KeyField | ValueField

  /** The editor over a datasource spec; `queryParams` is the spec's record, absent when unset.
      Each handler copies the record, edits the copy in place and hands the new spec to `onChange`,
      which here stores it. */
  class DatasourceEditor {
    var queryParams: Option<Labels>

    /** The record is an object: no key twice. */
    ghost predicate Valid()
      reads this
    {
      queryParams.Some? ==> DistinctKeys(queryParams.value)
    }

    constructor (params: Option<Labels>)
      requires params.Some? ==> DistinctKeys(params.value)
      ensures queryParams == params && Valid()
    {
      queryParams := params;
    }

    /** handleQueryParamChange: for the entry at `index`, a new key takes over the old key's value and
        the old key goes; a new value replaces the entry's value. An index with no entry changes nothing. */
    method HandleQueryParamChange(index: int, field: ParamField, newValue: string)
      requires Valid()
      modifies this
      ensures Valid()
      ensures var entries := old(queryParams).GetOr([]);
        !(0 <= index < |entries|) ==> queryParams == old(queryParams)
      ensures var entries := old(queryParams).GetOr([]);
        0 <= index < |entries| ==>
          queryParams == Some(if field == KeyField then Rename(entries, entries[index].0, newValue)
                              else Assign(entries, entries[index].0, newValue))
    {
      var entries := queryParams.GetOr([]);
      if !(0 <= index < |entries|) {
        return;
      }
      var newParams := entries;
      var (oldKey, oldValue) := entries[index];
      assert Lookup(entries, oldKey) == Some(oldValue) by { EntryLookup(entries, index); }
      if field == KeyField {
        DeleteDistinct(newParams, oldKey);
        newParams := Delete(newParams, oldKey);
        newParams := Assign(newParams, newValue, oldValue);
      } else {
        newParams := Assign(newParams, oldKey, newValue);
      }
      queryParams := Some(newParams);
    }

    /** addQueryParam: the entry `'' -> ''`. */
    method AddQueryParam()
      requires Valid()
      modifies this
      ensures Valid()
      ensures queryParams == Some(Assign(old(queryParams).GetOr([]), "", ""))
    {
      var newParams := queryParams.GetOr([]);
      newParams := Assign(newParams, "", "");
      queryParams := Some(newParams);
    }

    /** removeQueryParam: the key's entry goes; an empty record becomes no record. */
    method RemoveQueryParam(key: string)
      requires Valid()
      modifies this
      ensures Valid()
      ensures var rest := Delete(old(queryParams).GetOr([]), key);
        queryParams == if rest == [] then None else Some(rest)
    {
      var newParams := queryParams.GetOr([]);
      DeleteDistinct(newParams, key);
      newParams := Delete(newParams, key);
      queryParams := if |newParams| > 0 then Some(newParams) else None;
    }
  }

  /** The value of an entry's key in a record with distinct keys is the entry's value. */
  lemma EntryLookup(ls: Labels, index: nat)
    requires DistinctKeys(ls) && index < |ls|
    ensures Lookup(ls, ls[index].0) == Some(ls[index].1)
  {
    var v := Lookup(ls, ls[index].0).value;
    var i :| 0 <= i < |ls| && ls[i] == (ls[index].0, v);
  }

  /** The record after renaming `oldKey` to `newKey`. */
  function Rename(ls: Labels, oldKey: string, newKey: string): Labels
    requires oldKey in Keys(ls)
  {
    Assign(Delete(ls, oldKey), newKey, Lookup(ls, oldKey).value)
  }

  /** Renaming moves the value to the new key, removes the old key, and leaves every other key as it
      was (a new key equal to another existing key takes over that key's value). */
  lemma RenameMovesValue(ls: Labels, oldKey: string, newKey: string)
    requires oldKey in Keys(ls)
    ensures Lookup(Rename(ls, oldKey, newKey), newKey) == Lookup(ls, oldKey)
    ensures newKey != oldKey ==> oldKey !in Keys(Rename(ls, oldKey, newKey))
    ensures Keys(Rename(ls, oldKey, newKey)) == Keys(ls) - {oldKey} + {newKey}
    ensures forall k :: k != oldKey && k != newKey ==> Lookup(Rename(ls, oldKey, newKey), k) == Lookup(ls, k)
  {
    assert Lookup(ls, oldKey).Some?;
    DeleteKeys(ls, oldKey);
    forall k | k != newKey ensures Lookup(Rename(ls, oldKey, newKey), k) == Lookup(Delete(ls, oldKey), k) {
    }
    forall k ensures Lookup(Delete(ls, oldKey), k) == if k == oldKey then None else Lookup(ls, k) {
      DeleteLookup(ls, oldKey, k);
    }
  }

  /** Editing a value keeps the key set and changes only that key's value. */
  lemma EditKeepsKeys(ls: Labels, key: string, value: string)
    requires key in Keys(ls)
    ensures Keys(Assign(ls, key, value)) == Keys(ls)
    ensures Lookup(Assign(ls, key, value), key) == Some(value)
    ensures forall k :: k != key ==> Lookup(Assign(ls, key, value), k) == Lookup(ls, k)
  {
  }

  /** Removing a parameter leaves no record, so that the spec drops its parameters, exactly when
      `key` was the record's only key. */
  lemma RemoveLastParam(ls: Labels, key: string)
    ensures Delete(ls, key) == [] <==> Keys(ls) <= {key}
  {
    var rest := Delete(ls, key);
    DeleteKeys(ls, key);
    if rest != [] {
      assert rest[0].0 in Keys(rest);
    }
  }
}
