/** The per-query settings editor of the time series chart: which query indexes are still free,
    and the edits of the settings list, each made on a draft copy of the list. */
module TimeSeriesQuerySettings {
  import opened Base

  const DefaultColorValue := "#555"
  const NoIndexAvailable := -1

  /** The settings of one query; absent fields are undefined. */
  datatype QuerySettings = QuerySettings(queryIndex: int, colorMode: Option<string>, colorValue: Option<string>,
                                         lineStyle: Option<string>, areaOpacity: Option<real>)

  /** A slider reports one number or several; an empty list gives undefined. */
  datatype SliderValue = One(v: real) | Several(vs: seq<real>)

  function SliderNumber(s: SliderValue): Option<real> {
    match s
    case One(v) => Some(v)
    case Several(vs) => if vs == [] then None else Some(vs[0])
  }

  /** `draft[i]` edited by `edit` when there is such an entry; the list unchanged otherwise. */
  function EditAt(list: seq<QuerySettings>, i: int, edit: QuerySettings -> QuerySettings): (r: seq<QuerySettings>)
    ensures |r| == |list|
    ensures forall j :: 0 <= j < |list| && j != i ==> r[j] == list[j]
    ensures 0 <= i < |list| ==> r[i] == edit(list[i])
  {
    if 0 <= i < |list| then list[i := edit(list[i])] else list
  }

  /** The queries `0 .. queryCount - 1` that no settings entry names, ascending. */
  function AvailableQueryIndexes(settings: Option<seq<QuerySettings>>, queryCount: nat): (r: seq<nat>)
    ensures forall q :: q in r <==> 0 <= q < queryCount && !Booked(settings, q)
    ensures r != [] ==> forall q :: 0 <= q < r[0] ==> Booked(settings, q)
    ensures forall a, b :: 0 <= a < b < |r| ==> r[a] < r[b]
    ensures |r| <= queryCount
  {
    if queryCount == 0 then []
    else
      var rest := AvailableQueryIndexes(settings, queryCount - 1);
      assert forall a :: 0 <= a < |rest| ==> rest[a] in rest;
      if Booked(settings, queryCount - 1) then rest else rest + [queryCount - 1]
  }

  /** Whether some settings entry is for query `q`. */
  predicate Booked(settings: Option<seq<QuerySettings>>, q: int) {
    settings.Some? && exists j :: 0 <= j < |settings.value| && settings.value[j].queryIndex == q
  }

  /** The first free query index, or -1 when none is left. */
  function FirstAvailableQueryIndex(settings: Option<seq<QuerySettings>>, queryCount: nat): (r: int)
    ensures r == NoIndexAvailable <==> forall q :: 0 <= q < queryCount ==> Booked(settings, q)
    ensures r != NoIndexAvailable ==> (0 <= r < queryCount && !Booked(settings, r)
      && forall q :: 0 <= q < r ==> Booked(settings, q))
  {
    var available := AvailableQueryIndexes(settings, queryCount);
    if available == [] then NoIndexAvailable
    else
      assert available[0] in available;
      available[0]
  }

  /** The editor over the chart options' `querySettings` list; each handler stores what it hands to
      `onChange`. `defaultAreaOpacity` is the chart model's default opacity. */
  class QuerySettingsEditor {
    var querySettings: Option<seq<QuerySettings>>
    const defaultAreaOpacity: real

    constructor (settings: Option<seq<QuerySettings>>, defaultOpacity: real)
      ensures querySettings == settings && defaultAreaOpacity == defaultOpacity
    {
      querySettings := settings;
      defaultAreaOpacity := defaultOpacity;
    }

    /** Applies `edit` to entry `i` of a draft of the list; nothing happens without a list. */
    method Edit(i: int, edit: QuerySettings -> QuerySettings)
      modifies this
      ensures querySettings == if old(querySettings).None? then None else Some(EditAt(old(querySettings).value, i, edit))
    {
      if querySettings.None? {
        return;
      }
      var draft := querySettings.value;
      if 0 <= i < |draft| {
        draft := draft[i := edit(draft[i])];
      }
      querySettings := Some(draft);
    }

    /** handleQueryIndexChange, with the parsed number of the input. */
    method HandleQueryIndexChange(i: int, newIndex: int)
      modifies this
      ensures querySettings == if old(querySettings).None? then None
        else Some(EditAt(old(querySettings).value, i, (qs: QuerySettings) => qs.(queryIndex := newIndex)))
    {
      Edit(i, (qs: QuerySettings) => qs.(queryIndex := newIndex));
    }

    /** handleColorModeChange: an empty mode clears both the mode and the value. */
    method HandleColorModeChange(i: int, newColorMode: string)
      modifies this
      ensures querySettings == if old(querySettings).None? then None
        else Some(EditAt(old(querySettings).value, i, (qs: QuerySettings) => ColorModeChanged(qs, newColorMode)))
    {
      Edit(i, (qs: QuerySettings) => ColorModeChanged(qs, newColorMode));
    }

    method HandleColorValueChange(i: int, colorValue: string)
      modifies this
      ensures querySettings == if old(querySettings).None? then None
        else Some(EditAt(old(querySettings).value, i, (qs: QuerySettings) => qs.(colorValue := Some(colorValue))))
    {
      Edit(i, (qs: QuerySettings) => qs.(colorValue := Some(colorValue)));
    }

    method HandleLineStyleChange(i: int, lineStyle: string)
      modifies this
      ensures querySettings == if old(querySettings).None? then None
        else Some(EditAt(old(querySettings).value, i, (qs: QuerySettings) => qs.(lineStyle := Some(lineStyle))))
    {
      Edit(i, (qs: QuerySettings) => qs.(lineStyle := Some(lineStyle)));
    }

    /** handleAreaOpacityChange: the slider's (first) number. */
    method HandleAreaOpacityChange(i: int, sliderValue: SliderValue)
      modifies this
      ensures querySettings == if old(querySettings).None? then None
        else Some(EditAt(old(querySettings).value, i, (qs: QuerySettings) => qs.(areaOpacity := SliderNumber(sliderValue))))
    {
      var newValue := SliderNumber(sliderValue);
      Edit(i, (qs: QuerySettings) => qs.(areaOpacity := newValue));
    }

    /** deleteQuerySettingsInput: `splice(i, 1)` on the draft; an index past the end removes nothing. */
    method DeleteQuerySettingsInput(i: nat)
      modifies this
      ensures old(querySettings).None? ==> querySettings.None?
      ensures old(querySettings).Some? ==> querySettings == Some(
        var list := old(querySettings).value; if i < |list| then list[..i] + list[i + 1..] else list)
    {
      if querySettings.None? {
        return;
      }
      var draft := querySettings.value;
      if i < |draft| {
        draft := draft[..i] + draft[i + 1..];
      }
      querySettings := Some(draft);
    }

    method AddColorOverride(i: int)
      modifies this
      ensures querySettings == if old(querySettings).None? then None
        else Some(EditAt(old(querySettings).value, i, (qs: QuerySettings) => qs.(colorMode := Some("fixed-single"), colorValue := Some(DefaultColorValue))))
    {
      Edit(i, (qs: QuerySettings) => qs.(colorMode := Some("fixed-single"), colorValue := Some(DefaultColorValue)));
    }

    method RemoveColorOverride(i: int)
      modifies this
      ensures querySettings == if old(querySettings).None? then None
        else Some(EditAt(old(querySettings).value, i, (qs: QuerySettings) => qs.(colorMode := None, colorValue := None)))
    {
      Edit(i, (qs: QuerySettings) => qs.(colorMode := None, colorValue := None));
    }

    method AddLineStyle(i: int)
      modifies this
      ensures querySettings == if old(querySettings).None? then None
        else Some(EditAt(old(querySettings).value, i, (qs: QuerySettings) => qs.(lineStyle := Some("solid"))))
    {
      Edit(i, (qs: QuerySettings) => qs.(lineStyle := Some("solid")));
    }

    method RemoveLineStyle(i: int)
      modifies this
      ensures querySettings == if old(querySettings).None? then None
        else Some(EditAt(old(querySettings).value, i, (qs: QuerySettings) => qs.(lineStyle := None)))
    {
      Edit(i, (qs: QuerySettings) => qs.(lineStyle := None));
    }

    method AddAreaOpacity(i: int)
      modifies this
      ensures querySettings == if old(querySettings).None? then None
        else Some(EditAt(old(querySettings).value, i, (qs: QuerySettings) => qs.(areaOpacity := Some(defaultAreaOpacity))))
    {
      var opacity := defaultAreaOpacity;
      Edit(i, (qs: QuerySettings) => qs.(areaOpacity := Some(opacity)));
    }

    method RemoveAreaOpacity(i: int)
      modifies this
      ensures querySettings == if old(querySettings).None? then None
        else Some(EditAt(old(querySettings).value, i, (qs: QuerySettings) => qs.(areaOpacity := None)))
    {
      Edit(i, (qs: QuerySettings) => qs.(areaOpacity := None));
    }

    /** addQuerySettingsInput: a new entry for the first free query index, at the end, or as the
        only entry of a new list. */
    method AddQuerySettingsInput(queryCount: nat)
      modifies this
      ensures var added := QuerySettings(FirstAvailableQueryIndex(old(querySettings), queryCount), None, None, None, None);
        querySettings == Some(old(querySettings).GetOr([]) + [added])
    {
      var defaultQuerySettings := QuerySettings(FirstAvailableQueryIndex(querySettings, queryCount), None, None, None, None);
      if querySettings.None? {
        assert [] + [defaultQuerySettings] == [defaultQuerySettings];
        querySettings := Some([defaultQuerySettings]);
      } else {
        var draft := querySettings.value;
        draft := draft + [defaultQuerySettings];
        querySettings := Some(draft);
      }
    }
  }

  /** The color-mode edit: an empty mode clears the mode and the value, any other sets the mode. */
  function ColorModeChanged(qs: QuerySettings, newColorMode: string): (r: QuerySettings)
    ensures newColorMode == "" ==> r.colorMode.None? && r.colorValue.None?
    ensures newColorMode != "" ==> r.colorMode == Some(newColorMode) && r.colorValue == qs.colorValue
    ensures r.queryIndex == qs.queryIndex && r.lineStyle == qs.lineStyle && r.areaOpacity == qs.areaOpacity
  {
    if newColorMode == "" then qs.(colorMode := None, colorValue := None)
    else qs.(colorMode := Some(newColorMode))
  }

  /** Removing a color override leaves neither a mode nor a value, and undoes adding one. */
  lemma RemoveColorOverrideClears(list: seq<QuerySettings>, i: int)
    requires 0 <= i < |list|
    ensures var r := EditAt(list, i, (qs: QuerySettings) => qs.(colorMode := None, colorValue := None));
      r[i].colorMode.None? && r[i].colorValue.None?
    ensures var added := EditAt(list, i, (qs: QuerySettings) => qs.(colorMode := Some("fixed-single"), colorValue := Some(DefaultColorValue)));
      list[i].colorMode.None? && list[i].colorValue.None? ==>
        EditAt(added, i, (qs: QuerySettings) => qs.(colorMode := None, colorValue := None)) == list
  {
    var added := EditAt(list, i, (qs: QuerySettings) => qs.(colorMode := Some("fixed-single"), colorValue := Some(DefaultColorValue)));
    if list[i].colorMode.None? && list[i].colorValue.None? {
      var back := EditAt(added, i, (qs: QuerySettings) => qs.(colorMode := None, colorValue := None));
      assert back[i] == list[i];
      assert forall j :: 0 <= j < |list| ==> back[j] == list[j];
    }
  }

  /** The first free index of a list that books every query is -1, and a new entry for it then
      names no query. */
  lemma AllBookedGivesNoIndex(settings: seq<QuerySettings>, queryCount: nat)
    requires forall q :: 0 <= q < queryCount ==> Booked(Some(settings), q)
    ensures FirstAvailableQueryIndex(Some(settings), queryCount) == NoIndexAvailable
  {
  }

  /** Adding an entry books the index it takes. */
  lemma {:induction false} AddedEntryIsBooked(settings: Option<seq<QuerySettings>>, queryCount: nat)
    requires FirstAvailableQueryIndex(settings, queryCount) != NoIndexAvailable
    ensures var q := FirstAvailableQueryIndex(settings, queryCount);
      var after := Some(settings.GetOr([]) + [QuerySettings(q, None, None, None, None)]);
      Booked(after, q) && !Booked(settings, q)
  {
    var q := FirstAvailableQueryIndex(settings, queryCount);
    var list := settings.GetOr([]) + [QuerySettings(q, None, None, None, None)];
    assert list[|list| - 1].queryIndex == q;
  }
}
