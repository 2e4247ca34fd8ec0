/** The table panel: which configuration each column and each cell gets from the panel's column
    and cell settings, which query mode it asks for, and the order of its keys and columns. */
module TablePanel {
  import opened Base
  import opened PersesCore

  /** A cell value as the table holds it; `Panel` is the per-series panel data an embedded panel
      column carries. */
  datatype CellValue = Null | Undefined | Str(s: string) | Num(n: real) | NaN | Bool(b: bool) | Panel

  /** A table row: the entries of a record, in key order. */
  type Row = seq<(string, CellValue)>

  datatype SortDirection = Asc | Desc

  /** One column setting; `plugin` is the kind of the panel embedded in its cells. */
  datatype ColumnSettings = ColumnSettings(name: string, header: Option<string>, headerDescription: Option<string>,
                                           cellDescription: Option<string>, hide: bool, plugin: Option<string>,
                                           format: Option<string>, enableSorting: Option<bool>, width: Option<real>,
                                           align: Option<string>, sort: Option<SortDirection>)

  /** How a column renders its cells: as they are, through `formatValue` when numeric, or as an
      embedded panel. */
  datatype CellRenderer = DefaultCell | FormattedCell(format: Option<string>) | EmbeddedPanel(kind: string)

  /** The column configuration handed to the table. */
  datatype ColumnConfig = ColumnConfig(accessorKey: string, header: string, headerDescription: Option<string>,
                                       enableSorting: Option<bool>, width: Option<real>, align: Option<string>,
                                       cellDescription: Option<string>, cell: CellRenderer)

  /** JavaScript truthiness of an optional string. */
  predicate Filled(s: Option<string>) {
    s.Some? && s.value != ""
  }

  /** The configuration of a column that has a setting (generateCellContentConfig included): an
      embedded panel always has a description, empty when the setting has none. */
  function Configured(name: string, c: ColumnSettings): (cfg: ColumnConfig)
    ensures cfg.accessorKey == name && cfg.header == c.header.GetOr(name)
    ensures c.plugin.Some? ==> cfg.cell == EmbeddedPanel(c.plugin.value) && cfg.cellDescription.Some?
    ensures c.plugin.None? ==> cfg.cell == FormattedCell(c.format) && (cfg.cellDescription.Some? <==> Filled(c.cellDescription))
  {
    var description :=
      if Filled(c.cellDescription) then Some(c.cellDescription.value)
      else if c.plugin.Some? then Some("")
      else None;
    ColumnConfig(name, c.header.GetOr(name), c.headerDescription, c.enableSorting, c.width, c.align, description,
                 if c.plugin.Some? then EmbeddedPanel(c.plugin.value) else FormattedCell(c.format))
  }

  /** The configuration of a column no setting names. */
  function DefaultColumn(name: string): ColumnConfig {
    ColumnConfig(name, name, None, None, None, None, None, DefaultCell)
  }

  /** The column configuration of `name`: the first setting with that name decides, a hidden one
      hiding the column; without such a setting the column keeps its name as header. */
  function ColumnConfigOf(name: string, settings: seq<ColumnSettings>): (r: Option<ColumnConfig>)
    ensures (forall j :: 0 <= j < |settings| ==> settings[j].name != name) ==> r == Some(DefaultColumn(name))
    ensures forall i :: (0 <= i < |settings| && settings[i].name == name && (forall j :: 0 <= j < i ==> settings[j].name != name)
      ==> r == if settings[i].hide then None else Some(Configured(name, settings[i])))
    ensures r.Some? ==> r.value.accessorKey == name
  {
    match FirstWhere(settings, (c: ColumnSettings) => c.name == name)
    case None => Some(DefaultColumn(name))
    case Some(i) => if settings[i].hide then None else Some(Configured(name, settings[i]))
  }

  /** generateColumnConfig: scans the settings and returns at the first one with the name. */
  method GenerateColumnConfig(name: string, settings: seq<ColumnSettings>) returns (config: Option<ColumnConfig>)
    ensures config == ColumnConfigOf(name, settings)
  {
    for i := 0 to |settings|
      invariant forall j :: 0 <= j < i ==> settings[j].name != name
    {
      if settings[i].name == name {
        if settings[i].hide {
          return None;
        }
        return Some(Configured(name, settings[i]));
      }
    }
    return Some(DefaultColumn(name));
  }

  /** The conditions a cell setting can have. Range bounds are the numbers `+min` and `+max`. */
  datatype Condition =
    | ValueCondition(value: Option<string>)
    | RangeCondition(min: Option<real>, max: Option<real>)
    | RegexCondition(expr: Option<string>)
    | MiscCondition(misc: Option<string>)

  datatype CellSettings = CellSettings(condition: Condition, text: Option<string>, textColor: Option<string>,
                                       backgroundColor: Option<string>)

  datatype CellConfig = CellConfig(text: Option<string>, textColor: Option<string>, backgroundColor: Option<string>)

  /** The JavaScript conversions the rules rely on: `String` of a number, `Number` of a string
      (`None` for NaN), and `RegExp(expr).test(s)`. */
  datatype Conversions = Conversions(numberToString: real -> string, parseNumber: string -> Option<real>,
                                     regexTest: (string, string) -> bool)

  /** `String(value)`. */
  function StringOf(conv: Conversions, v: CellValue): string {
    match v
    case Null => "null"
    case Undefined => "undefined"
    case Str(s) => s
    case Num(n) => conv.numberToString(n)
    case NaN => "NaN"
    case Bool(b) => if b then "true" else "false"
    case Panel => "[object Object]"
  }

  /** `Number(value)`, `None` when it is NaN. */
  function NumberOf(conv: Conversions, v: CellValue): Option<real> {
    match v
    case Null => Some(0.0)
    case Undefined => None
    case Str(s) => conv.parseNumber(s)
    case Num(n) => Some(n)
    case NaN => None
    case Bool(b) => Some(if b then 1.0 else 0.0)
    case Panel => None
  }

  /** The range test as written: a value matches when it is within both bounds, or at least the
      minimum, or at most the maximum. */
  predicate RangeMatchesAsWritten(n: real, min: Option<real>, max: Option<real>) {
    (min.Some? && max.Some? && n >= min.value && n <= max.value)
    || (min.Some? && n >= min.value)
    || (max.Some? && n <= max.value)
  }

  /** The range test as intended: within every bound that is given, and at least one is given. */
  predicate InRange(n: real, min: Option<real>, max: Option<real>) {
    (min.Some? || max.Some?) && (min.None? || n >= min.value) && (max.None? || n <= max.value)
  }

  /** As written, a range with both bounds (minimum not above maximum) matches every number, even
      one outside it. */
  lemma RangeAsWrittenMatchesOutside(n: real, min: real, max: real)
    requires min <= max
    ensures RangeMatchesAsWritten(n, Some(min), Some(max))
    ensures RangeMatchesAsWritten(25.0, Some(10.0), Some(20.0)) && !InRange(25.0, Some(10.0), Some(20.0))
  {
  }

  /** The intended test: with both bounds it is membership of the closed interval; with one bound it
      agrees with the test as written. */
  lemma InRangeIntended(n: real, min: Option<real>, max: Option<real>)
    ensures min.Some? && max.Some? ==> (InRange(n, min, max) <==> min.value <= n <= max.value)
    ensures min.None? || max.None? ==> (InRange(n, min, max) <==> RangeMatchesAsWritten(n, min, max))
  {
  }

  /** The `Misc` conditions: an empty string, null or undefined, NaN, and the two booleans. */
  predicate MiscMatches(misc: string, v: CellValue) {
    (misc == "empty" && v == Str(""))
    || (misc == "null" && (v == Null || v == Undefined))
    || (misc == "NaN" && v == NaN)
    || (misc == "true" && v == Bool(true))
    || (misc == "false" && v == Bool(false))
  }

  /** Whether a cell setting applies to a value. */
  predicate Matches(conv: Conversions, v: CellValue, s: CellSettings) {
    match s.condition
    case ValueCondition(value) => value == Some(StringOf(conv, v))
    case RangeCondition(min, max) => NumberOf(conv, v).Some? && RangeMatchesAsWritten(NumberOf(conv, v).value, min, max)
    case RegexCondition(expr) => Filled(expr) && conv.regexTest(expr.value, StringOf(conv, v))
    case MiscCondition(misc) => Filled(misc) && MiscMatches(misc.value, v)
  }

  function ConfigOf(s: CellSettings): CellConfig {
    CellConfig(s.text, s.textColor, s.backgroundColor)
  }

  /** The cell configuration of a value: that of the first setting applying to it, if any. */
  function CellConfigOf(conv: Conversions, v: CellValue, settings: seq<CellSettings>): (r: Option<CellConfig>)
    ensures r.None? <==> forall j :: 0 <= j < |settings| ==> !Matches(conv, v, settings[j])
    ensures forall i :: (0 <= i < |settings| && Matches(conv, v, settings[i]) && (forall j :: 0 <= j < i ==> !Matches(conv, v, settings[j]))
      ==> r == Some(ConfigOf(settings[i])))
  {
    match FirstWhere(settings, (s: CellSettings) => Matches(conv, v, s))
    case None => None
    case Some(i) => Some(ConfigOf(settings[i]))
  }

  /** generateCellConfig: returns at the first setting that applies. */
  method GenerateCellConfig(conv: Conversions, v: CellValue, settings: seq<CellSettings>) returns (config: Option<CellConfig>)
    ensures config == CellConfigOf(conv, v, settings)
  {
    for i := 0 to |settings|
      invariant forall j :: 0 <= j < i ==> !Matches(conv, v, settings[j])
    {
      if Matches(conv, v, settings[i]) {
        return Some(ConfigOf(settings[i]));
      }
    }
    return None;
  }

  /** A value rule applies exactly when its text is `String(value)`. */
  lemma ValueRuleMatchesByString(conv: Conversions, v: CellValue, s: CellSettings)
    requires s.condition.ValueCondition?
    ensures Matches(conv, v, s) <==> s.condition.value == Some(StringOf(conv, v))
  {
  }

  datatype QueryMode = Instant | Range

  /** Whether some column embeds a panel. */
  function AnyPlugin(columns: seq<ColumnSettings>): (b: bool)
    ensures b <==> exists i :: 0 <= i < |columns| && columns[i].plugin.Some?
  {
    if columns == [] then false
    else columns[0].plugin.Some? || (assert forall i :: 0 <= i < |columns| - 1 ==> columns[1..][i] == columns[i + 1];
                                     AnyPlugin(columns[1..]))
  }

  /** getTablePanelQueryOptions: a range query when some column embeds a panel, else an instant one. */
  function GetTablePanelQueryOptions(columnSettings: Option<seq<ColumnSettings>>): (mode: QueryMode)
    ensures mode == Range <==> columnSettings.Some? && exists i :: 0 <= i < |columnSettings.value| && columnSettings.value[i].plugin.Some?
  {
    if AnyPlugin(columnSettings.GetOr([])) then Range else Instant
  }

  /** The keys of a row, in order. */
  function RowKeys(row: Row): (ks: seq<string>)
    ensures |ks| == |row| && forall i :: 0 <= i < |row| ==> ks[i] == row[i].0
  {
    seq(|row|, i requires 0 <= i < |row| => row[i].0)
  }

  /** The keys of all rows, row after row. */
  function AllKeys(rows: seq<Row>): (ks: seq<string>)
    ensures forall k :: k in ks <==> exists i :: 0 <= i < |rows| && k in Keys(rows[i])
  {
    if rows == [] then []
    else
      var init := rows[..|rows| - 1];
      var last := rows[|rows| - 1];
      assert forall i :: 0 <= i < |init| ==> init[i] == rows[i];
      assert forall k :: k in RowKeys(last) <==> k in Keys(last) by {
        forall k ensures k in RowKeys(last) <==> k in Keys(last) {
          if k in RowKeys(last) {
            var j :| 0 <= j < |last| && RowKeys(last)[j] == k;
            assert last[j].0 == k;
          }
        }
      }
      AllKeys(init) + RowKeys(last)
  }

  /** The table's keys: every key of every row, each once, in the order first seen. */
  method CollectKeys(rows: seq<Row>) returns (keys: seq<string>)
    ensures keys == Dedupe(AllKeys(rows))
  {
    keys := [];
    for i := 0 to |rows|
      invariant keys == Dedupe(AllKeys(rows[..i]))
    {
      keys := PushNewKeys(keys, AllKeys(rows[..i]), rows[i]);
      AllKeysStep(rows, i);
    }
    assert rows[..|rows|] == rows;
  }

  /** The inner loop of the key collection: each key of `entry` not yet collected is pushed. */
  method PushNewKeys(keys0: seq<string>, ghost seen: seq<string>, entry: Row) returns (keys: seq<string>)
    requires keys0 == Dedupe(seen)
    ensures keys == Dedupe(seen + RowKeys(entry))
  {
    keys := keys0;
    ghost var ks := RowKeys(entry);
    assert seen + ks[..0] == seen;
    for j := 0 to |entry|
      invariant keys == Dedupe(seen + ks[..j])
    {
      var key := entry[j].0;
      assert seen + ks[..j + 1] == (seen + ks[..j]) + [key];
      DedupeSnoc(seen + ks[..j], key);
      if key !in keys {
        keys := keys + [key];
      }
    }
    assert ks[..|entry|] == ks;
  }

  /** The keys of one row more. */
  lemma AllKeysStep(rows: seq<Row>, i: nat)
    requires i < |rows|
    ensures AllKeys(rows[..i + 1]) == AllKeys(rows[..i]) + RowKeys(rows[i])
  {
    assert rows[..i + 1][..i] == rows[..i];
  }

  /** What the keys are: no key twice, exactly the keys of the rows, in the order first seen. */
  lemma KeysShape(rows: seq<Row>)
    ensures var ks := Dedupe(AllKeys(rows));
      NoDuplicates(ks)
      && (forall k :: k in ks <==> exists i :: 0 <= i < |rows| && k in Keys(rows[i]))
      && forall i, j :: 0 <= i < j < |ks| ==> FirstIndex(AllKeys(rows), ks[i]) < FirstIndex(AllKeys(rows), ks[j])
  {
    var all := AllKeys(rows);
    DedupeNoDuplicates(all);
    forall i, j | 0 <= i < j < |Dedupe(all)| ensures FirstIndex(all, Dedupe(all)[i]) < FirstIndex(all, Dedupe(all)[j]) {
      DedupeFirstOccurrenceOrder(all, i, j);
    }
  }

  /** The names of `xs` that `keep` says to keep, in order. */
  function Filter(xs: seq<string>, keep: string -> bool): (r: seq<string>)
    ensures forall x :: x in r <==> x in xs && keep(x)
    ensures |r| <= |xs|
  {
    if xs == [] then []
    else
      var rest := Filter(xs[..|xs| - 1], keep);
      var x := xs[|xs| - 1];
      assert forall y :: y in xs <==> y in xs[..|xs| - 1] || y == x;
      if keep(x) then rest + [x] else rest
  }

  function Names(settings: seq<ColumnSettings>): (ns: seq<string>)
    ensures |ns| == |settings| && forall i :: 0 <= i < |settings| ==> ns[i] == settings[i].name
  {
    seq(|settings|, i requires 0 <= i < |settings| => settings[i].name)
  }

  /** The customized columns: the setting names that are keys, in settings order. */
  function CustomizedColumns(keys: seq<string>, settings: Option<seq<ColumnSettings>>): (names: seq<string>)
    ensures forall n :: n in names <==> n in keys && settings.Some? && n in Names(settings.value)
  {
    if settings.None? then [] else Filter(Names(settings.value), n => n in keys)
  }

  /** The default columns: the other keys, in key order. */
  function DefaultColumns(keys: seq<string>, customized: seq<string>): (names: seq<string>)
    ensures forall n :: n in names <==> n in keys && n !in customized
  {
    Filter(keys, n => n !in customized)
  }

  /** The configurations of the columns `names`, hidden ones skipped, in order. */
  function Configs(names: seq<string>, settings: seq<ColumnSettings>): (cs: seq<ColumnConfig>)
    ensures forall c :: c in cs ==> c.accessorKey in names && ColumnConfigOf(c.accessorKey, settings) == Some(c)
    ensures forall n :: n in names && ColumnConfigOf(n, settings).Some? ==> ColumnConfigOf(n, settings).value in cs
  {
    if names == [] then []
    else
      var rest := Configs(names[..|names| - 1], settings);
      var n := names[|names| - 1];
      assert forall m :: m in names <==> m in names[..|names| - 1] || m == n;
      match ColumnConfigOf(n, settings)
      case None => rest
      case Some(c) => rest + [c]
  }

  /** The columns: those of the customized columns in settings order, then those of the other keys
      in key order, each pushed unless hidden. */
  method BuildColumns(keys: seq<string>, settings: Option<seq<ColumnSettings>>) returns (columns: seq<ColumnConfig>)
    ensures var s := settings.GetOr([]); var customized := CustomizedColumns(keys, settings);
      columns == Configs(customized, s) + Configs(DefaultColumns(keys, customized), s)
  {
    var s := settings.GetOr([]);
    var customized := CustomizedColumns(keys, settings);
    var defaults := DefaultColumns(keys, customized);
    columns := PushConfigs([], customized, s);
    EmptyFront(Configs(customized, s));
    columns := PushConfigs(columns, defaults, s);
  }

  /** One loop of generateColumnConfigs: the configuration of each of `names` pushed onto `columns0`
      unless hidden. */
  method PushConfigs(columns0: seq<ColumnConfig>, names: seq<string>, s: seq<ColumnSettings>)
    returns (columns: seq<ColumnConfig>)
    ensures columns == columns0 + Configs(names, s)
  {
    columns := columns0;
    for i := 0 to |names|
      invariant columns == columns0 + Configs(names[..i], s)
    {
      var config := GenerateColumnConfig(names[i], s);
      ConfigsStep(names, i, s);
      if config.Some? {
        columns := columns + [config.value];
      }
    }
    assert names[..|names|] == names;
  }

  /** The configurations of one name more. */
  lemma ConfigsStep(names: seq<string>, i: nat, s: seq<ColumnSettings>)
    requires i < |names|
    ensures Configs(names[..i + 1], s)
            == Configs(names[..i], s) + (match ColumnConfigOf(names[i], s) case None => [] case Some(c) => [c])
  {
    assert names[..i + 1][..i] == names[..i];
  }

  /** Every column is a key's, every key that is not hidden has its column, and a hidden key has none. */
  lemma ColumnsCoverKeys(keys: seq<string>, settings: Option<seq<ColumnSettings>>)
    ensures var s := settings.GetOr([]); var customized := CustomizedColumns(keys, settings);
      var columns := Configs(customized, s) + Configs(DefaultColumns(keys, customized), s);
      (forall c :: c in columns ==> c.accessorKey in keys)
      && (forall k :: k in keys && ColumnConfigOf(k, s).Some? ==> ColumnConfigOf(k, s).value in columns)
      && (forall c :: c in columns ==> ColumnConfigOf(c.accessorKey, s) == Some(c))
  {
    var s := settings.GetOr([]);
    var customized := CustomizedColumns(keys, settings);
    forall k | k in keys && ColumnConfigOf(k, s).Some?
      ensures ColumnConfigOf(k, s).value in Configs(customized, s) + Configs(DefaultColumns(keys, customized), s)
    {
      if k in customized {
        assert ColumnConfigOf(k, s).value in Configs(customized, s);
      } else {
        assert ColumnConfigOf(k, s).value in Configs(DefaultColumns(keys, customized), s);
      }
    }
  }

  /** One sorting entry: a column and whether it sorts descending. */
  datatype ColumnSort = ColumnSort(id: string, desc: bool)

  /** The positions of the settings that carry a sort direction, in increasing order. */
  ghost function SortPositions(s: seq<ColumnSettings>): (ps: seq<nat>)
    ensures forall k :: 0 <= k < |ps| ==> ps[k] < |s| && s[ps[k]].sort.Some?
    ensures forall i :: 0 <= i < |s| && s[i].sort.Some? ==> i in ps
    ensures forall k, l :: 0 <= k < l < |ps| ==> ps[k] < ps[l]
    ensures |ps| <= |s|
  {
    if s == [] then []
    else
      var init := s[..|s| - 1];
      var ps := SortPositions(init);
      assert forall i :: 0 <= i < |s| - 1 ==> init[i] == s[i];
      if s[|s| - 1].sort.Some? then ps + [|s| - 1] else ps
  }

  /** The sorting entry of a setting. */
  function SortOf(c: ColumnSettings): ColumnSort {
    ColumnSort(c.name, c.sort == Some(Desc))
  }

  /** generateDefaultSortingState: one entry per column with a sort direction, in settings order,
      descending exactly for `desc`. */
  function DefaultSorting(settings: Option<seq<ColumnSettings>>): (sorting: seq<ColumnSort>)
    decreases if settings.Some? then |settings.value| else 0
    ensures settings.None? ==> sorting == []
    ensures settings.Some? ==> |sorting| <= |settings.value|
    ensures settings.Some? ==> forall e :: e in sorting <==>
      exists i :: 0 <= i < |settings.value| && settings.value[i].sort.Some?
        && e == ColumnSort(settings.value[i].name, settings.value[i].sort == Some(Desc))
    ensures settings.Some? ==> FollowsPositions(settings.value, sorting)
  {
    if settings.None? || settings.value == [] then []
    else
      var s := settings.value;
      var init := s[..|s| - 1];
      var rest := DefaultSorting(Some(init));
      var c := s[|s| - 1];
      var sorting := if c.sort.Some? then rest + [ColumnSort(c.name, c.sort == Some(Desc))] else rest;
      FollowsSnoc(s, rest);
      SortingMembers(s, sorting);
      sorting
  }

  /** The entries follow the sort positions of the settings: one per position, the entry of the
      setting there. */
  ghost predicate FollowsPositions(s: seq<ColumnSettings>, sorting: seq<ColumnSort>) {
    var ps := SortPositions(s);
    |sorting| == |ps| && forall k :: 0 <= k < |sorting| ==> sorting[k] == SortOf(s[ps[k]])
  }

  /** Entries following the positions of all settings but the last, with the last one's entry added
      when it sorts, follow the positions of all of them. */
  lemma FollowsSnoc(s: seq<ColumnSettings>, rest: seq<ColumnSort>)
    requires s != [] && FollowsPositions(s[..|s| - 1], rest)
    ensures var c := s[|s| - 1];
      FollowsPositions(s, if c.sort.Some? then rest + [ColumnSort(c.name, c.sort == Some(Desc))] else rest)
  {
    SortPositionsSnoc(s);
  }

  /** Entries that follow the sort positions are exactly the entries of the settings that sort. */
  lemma SortingMembers(s: seq<ColumnSettings>, sorting: seq<ColumnSort>)
    requires FollowsPositions(s, sorting)
    ensures |sorting| <= |s|
    ensures forall e :: e in sorting <==>
      exists i :: 0 <= i < |s| && s[i].sort.Some? && e == ColumnSort(s[i].name, s[i].sort == Some(Desc))
  {
    var ps := SortPositions(s);
    forall e | e in sorting
      ensures exists i :: 0 <= i < |s| && s[i].sort.Some? && e == ColumnSort(s[i].name, s[i].sort == Some(Desc))
    {
      var k :| 0 <= k < |sorting| && sorting[k] == e;
      assert s[ps[k]].sort.Some? && e == SortOf(s[ps[k]]);
    }
    forall i | 0 <= i < |s| && s[i].sort.Some?
      ensures ColumnSort(s[i].name, s[i].sort == Some(Desc)) in sorting
    {
      var k :| 0 <= k < |ps| && ps[k] == i;
      assert sorting[k] == SortOf(s[i]);
    }
  }

  /** The sort positions of settings with one more at the end: those of the others, then the last
      when it sorts, and each names the same setting in both. */
  lemma SortPositionsSnoc(s: seq<ColumnSettings>)
    requires s != []
    ensures var init, ps := s[..|s| - 1], SortPositions(s[..|s| - 1]);
      SortPositions(s) == (if s[|s| - 1].sort.Some? then ps + [|s| - 1] else ps)
      && forall k :: 0 <= k < |ps| ==> s[ps[k]] == init[ps[k]]
  {
  }

  /** `{...base, ...row}`: the row's entries assigned over the base's, one after the other. */
  function Spread(base: Row, row: Row): (ext: Row)
    ensures forall k :: Lookup(ext, k) == if k in Keys(row) then Lookup(row, k) else Lookup(base, k)
    ensures DistinctKeys(base) ==> DistinctKeys(ext)
  {
    if row == [] then base
    else
      var init, last := row[..|row| - 1], row[|row| - 1];
      assert row == init + [last];
      KeysSnoc(init, last);
      assert forall k :: k != last.0 ==> Lookup(row, k) == Lookup(init, k);
      Assign(Spread(base, init), last.0, last.1)
  }

  /** `keysAsObj`: every key of the table with the value undefined. */
  function KeysObject(keys: seq<string>): (obj: Row)
    ensures forall k :: Lookup(obj, k) == if k in keys then Some(Undefined) else None
    ensures NoDuplicates(keys) ==> DistinctKeys(obj)
  {
    var obj := seq(|keys|, i requires 0 <= i < |keys| => (keys[i], Undefined));
    forall k | k in keys ensures exists i :: 0 <= i < |obj| && obj[i].0 == k {
      var i :| 0 <= i < |keys| && keys[i] == k;
      assert obj[i].0 == k;
    }
    obj
  }

  /** A row extended with every key of the table, so that a missing cell is undefined. */
  function ExtendRow(row: Row, keys: seq<string>): Row {
    Spread(KeysObject(keys), row)
  }

  /** The value of a cell of the extended row: the row's own, else undefined for a table key. */
  lemma ExtendRowValue(row: Row, keys: seq<string>, k: string)
    ensures Lookup(ExtendRow(row, keys), k) ==
      if k in Keys(row) then Lookup(row, k) else if k in keys then Some(Undefined) else None
  {
  }

  /** The name of a cell's configuration: the row index and the key, joined by `_`. */
  function CellKey(index: nat, key: string): string {
    NatToString(index) + "_" + key
  }

  /** Distinct cells have distinct names: the row index has no `_` in it. */
  lemma CellKeyInjective(i: nat, k: string, j: nat, m: string)
    requires CellKey(i, k) == CellKey(j, m)
    ensures i == j && k == m
  {
    var a, b := NatToString(i), NatToString(j);
    var s := CellKey(i, k);
    assert s == CellKey(j, m);
    var n := if |a| < |b| then |a| else |b|;
    assert s[n] == (a + "_" + k)[n] == (b + "_" + m)[n];
    assert |a| == |b|;
    assert a == s[..|a|] == b;
    ParseNatToString(i);
    ParseNatToString(j);
    assert k == s[|a| + 1..] == m;
  }

  /** The cell configurations of one row's entries, in entry order, added to `acc`. */
  function RowConfigs(conv: Conversions, settings: seq<CellSettings>, index: nat, entries: Row,
                      acc: map<string, CellConfig>): map<string, CellConfig>
  {
    if entries == [] then acc
    else
      var m := RowConfigs(conv, settings, index, entries[..|entries| - 1], acc);
      var (k, v) := entries[|entries| - 1];
      match CellConfigOf(conv, v, settings)
      case None => m
      case Some(c) => m[CellKey(index, k) := c]
  }

  /** The cell configurations of the rows, row after row. */
  function AllRowConfigs(conv: Conversions, settings: seq<CellSettings>, rows: seq<Row>, keys: seq<string>): map<string, CellConfig> {
    if rows == [] then map[]
    else RowConfigs(conv, settings, |rows| - 1, ExtendRow(rows[|rows| - 1], keys),
                    AllRowConfigs(conv, settings, rows[..|rows| - 1], keys))
  }

  /** No cell configurations without cell settings. */
  function CellConfigs(conv: Conversions, cellSettings: Option<seq<CellSettings>>, rows: seq<Row>, keys: seq<string>): map<string, CellConfig> {
    if cellSettings.None? then map[] else AllRowConfigs(conv, cellSettings.value, rows, keys)
  }

  /** The cell configurations: for each row, each entry of the extended row whose value some cell
      setting applies to gets that configuration, under the name of its row index and key. */
  method BuildCellConfigs(conv: Conversions, rows: seq<Row>, keys: seq<string>, cellSettings: Option<seq<CellSettings>>)
    returns (result: map<string, CellConfig>)
    ensures result == CellConfigs(conv, cellSettings, rows, keys)
  {
    if cellSettings.None? {
      return map[];
    }
    var settings := cellSettings.value;
    result := map[];
    var index := 0;
    while index < |rows|
      invariant index <= |rows|
      invariant result == AllRowConfigs(conv, settings, rows[..index], keys)
    {
      var extendRow := ExtendRow(rows[index], keys);
      result := AddRowConfigs(conv, settings, index, extendRow, result);
      AllRowConfigsStep(conv, settings, rows, keys, index);
      index := index + 1;
    }
    assert rows[..|rows|] == rows;
  }

  /** The inner loop of the cell configurations: one row's configured entries added to `before`. */
  method AddRowConfigs(conv: Conversions, settings: seq<CellSettings>, index: nat, extendRow: Row,
                       before: map<string, CellConfig>) returns (result: map<string, CellConfig>)
    ensures result == RowConfigs(conv, settings, index, extendRow, before)
  {
    result := before;
    for e := 0 to |extendRow|
      invariant result == RowConfigs(conv, settings, index, extendRow[..e], before)
    {
      var (key, value) := extendRow[e];
      var cellConfig := GenerateCellConfig(conv, value, settings);
      assert extendRow[..e + 1][..e] == extendRow[..e];
      if cellConfig.Some? {
        result := result[CellKey(index, key) := cellConfig.value];
      }
    }
    assert extendRow[..|extendRow|] == extendRow;
  }

  /** The configurations of one row more. */
  lemma AllRowConfigsStep(conv: Conversions, settings: seq<CellSettings>, rows: seq<Row>, keys: seq<string>, i: nat)
    requires i < |rows|
    ensures AllRowConfigs(conv, settings, rows[..i + 1], keys)
            == RowConfigs(conv, settings, i, ExtendRow(rows[i], keys), AllRowConfigs(conv, settings, rows[..i], keys))
  {
    assert rows[..i + 1][..i] == rows[..i];
  }

  /** The configuration of the cell of key `k` in `entries`, if the row has the key and some
      setting applies to its value. */
  function CellOf(conv: Conversions, settings: seq<CellSettings>, entries: Row, k: string): Option<CellConfig> {
    if Lookup(entries, k).Some? then CellConfigOf(conv, Lookup(entries, k).value, settings) else None
  }

  /** `m[n := c]` when there is a configuration `c`, `m` otherwise. */
  function Put<V>(m: map<string, V>, n: string, c: Option<V>): (r: map<string, V>)
    ensures forall s :: s in r <==> s in m || (c.Some? && s == n)
    ensures c.Some? ==> r[n] == c.value
    ensures forall s :: s in m && s != n ==> r[s] == m[s]
  {
    match c
    case None => m
    case Some(v) => m[n := v]
  }

  /** `m` is `acc` with, for every key `k` that `f` configures, the entry `name(k)` set to that
      configuration, and nothing else changed. */
  ghost predicate Added<V>(acc: map<string, V>, m: map<string, V>, f: string -> Option<V>, name: string -> string) {
    (forall s :: s in m <==> s in acc || exists k :: f(k).Some? && s == name(k))
    && (forall k :: f(k).Some? ==> m[name(k)] == f(k).value)
    && (forall s :: s in acc && (forall k :: f(k).Some? ==> s != name(k)) ==> m[s] == acc[s])
  }

  /** Setting one key more, that `f` did not configure, keeps `Added`. */
  lemma AddedSnoc<V>(acc: map<string, V>, m: map<string, V>, f0: string -> Option<V>, f1: string -> Option<V>,
                     name: string -> string, key: string)
    requires Added(acc, m, f0, name)
    requires f0(key).None?
    requires forall k :: k != key ==> f1(k) == f0(k)
    requires forall k :: name(k) == name(key) ==> k == key
    ensures Added(acc, Put(m, name(key), f1(key)), f1, name)
  {
    var r := Put(m, name(key), f1(key));
    forall s ensures s in r <==> s in acc || exists k :: f1(k).Some? && s == name(k) {
      if s in m && s !in acc {
        var k :| f0(k).Some? && s == name(k);
        assert k != key && f1(k).Some?;
      }
    }
  }

  /** One row's configurations: every configured cell of the row gets its configuration under its
      name, and nothing else changes. */
  lemma {:induction false} RowConfigsMeaning(conv: Conversions, settings: seq<CellSettings>, index: nat, entries: Row,
                                             acc: map<string, CellConfig>)
    requires DistinctKeys(entries)
    ensures Added(acc, RowConfigs(conv, settings, index, entries, acc),
                  k => CellOf(conv, settings, entries, k), k => CellKey(index, k))
  {
    if entries != [] {
      var init, last := entries[..|entries| - 1], entries[|entries| - 1];
      assert entries == init + [last];
      RowConfigsMeaning(conv, settings, index, init, acc);
      forall k | k != last.0 ensures CellOf(conv, settings, entries, k) == CellOf(conv, settings, init, k) {
        LookupSnoc(init, last, k);
      }
      LookupSnoc(init, last, last.0);
      assert Lookup(init, last.0).None?;
      forall k | CellKey(index, k) == CellKey(index, last.0) ensures k == last.0 {
        CellKeyInjective(index, k, index, last.0);
      }
      AddedSnoc(acc, RowConfigs(conv, settings, index, init, acc), k => CellOf(conv, settings, init, k),
                k => CellOf(conv, settings, entries, k), k => CellKey(index, k), last.0);
    }
  }

  /** The value of a key in a row with one entry more. */
  lemma LookupSnoc(init: Row, last: (string, CellValue), k: string)
    ensures Lookup(init + [last], k) == if k == last.0 then Some(last.1) else Lookup(init, k)
  {
    assert (init + [last])[..|init|] == init;
  }

  /** `m` holds, for every row `i < n` and key `k` that `g` configures, that configuration under
      `name(i, k)`, and nothing else. */
  ghost predicate AllAdded<V>(m: map<string, V>, g: (nat, string) -> Option<V>, n: nat, name: (nat, string) -> string) {
    (forall i, k :: 0 <= i < n ==> (name(i, k) in m <==> g(i, k).Some?))
    && (forall i, k :: 0 <= i < n && g(i, k).Some? ==> m[name(i, k)] == g(i, k).value)
    && (forall s :: s in m ==> exists i, k :: 0 <= i < n && s == name(i, k))
  }

  /** Adding row `n` to the rows before it keeps `AllAdded`. */
  lemma AllAddedStep<V>(m0: map<string, V>, m1: map<string, V>, g0: (nat, string) -> Option<V>,
                        g1: (nat, string) -> Option<V>, n: nat, name: (nat, string) -> string,
                        f: string -> Option<V>, nameN: string -> string)
    requires AllAdded(m0, g0, n, name)
    requires forall i, k :: 0 <= i < n ==> g1(i, k) == g0(i, k)
    requires forall k :: f(k) == g1(n, k) && nameN(k) == name(n, k)
    requires Added(m0, m1, f, nameN)
    requires forall i, k, j, k' :: name(i, k) == name(j, k') ==> i == j && k == k'
    ensures AllAdded(m1, g1, n + 1, name)
  {
    assert forall i, k, k' :: 0 <= i < n ==> name(i, k) != name(n, k');
    forall s | s in m1 ensures exists i, k :: 0 <= i < n + 1 && s == name(i, k) {
      if s !in m0 {
        var k :| f(k).Some? && s == nameN(k);
        assert s == name(n, k);
      }
    }
    forall i, k | 0 <= i < n && g1(i, k).Some? ensures m1[name(i, k)] == g1(i, k).value {
      assert forall k' :: name(i, k) != nameN(k');
    }
    forall i, k | 0 <= i < n && name(i, k) in m1 ensures g1(i, k).Some? {
      assert forall k' :: name(i, k) != nameN(k');
    }
    forall k ensures name(n, k) in m1 <==> g1(n, k).Some? {
      assert name(n, k) !in m0;
      if name(n, k) in m1 {
        var k' :| f(k').Some? && name(n, k) == nameN(k');
        assert k == k';
      }
    }
  }

  /** The configuration of the cell of row `i` and key `k` of the extended rows. */
  function RowCell(conv: Conversions, settings: seq<CellSettings>, rows: seq<Row>, keys: seq<string>, i: nat, k: string)
    : Option<CellConfig>
  {
    if i < |rows| then CellOf(conv, settings, ExtendRow(rows[i], keys), k) else None
  }

  /** All rows' configurations: the cell of row `i` and key `k` has a configuration exactly when the
      extended row has a configured value there, and every configuration names a cell of a row. */
  lemma {:induction false} AllRowConfigsMeaning(conv: Conversions, settings: seq<CellSettings>, rows: seq<Row>, keys: seq<string>)
    requires NoDuplicates(keys)
    ensures AllAdded(AllRowConfigs(conv, settings, rows, keys), (i: nat, k: string) => RowCell(conv, settings, rows, keys, i, k),
                     |rows|, (i: nat, k: string) => CellKey(i, k))
  {
    if rows != [] {
      var n := |rows| - 1;
      var init := rows[..n];
      var ext := ExtendRow(rows[n], keys);
      var prev := AllRowConfigs(conv, settings, init, keys);
      AllRowConfigsMeaning(conv, settings, init, keys);
      RowConfigsMeaning(conv, settings, n, ext, prev);
      forall i, k, j, k' | CellKey(i, k) == CellKey(j, k') ensures i == j && k == k' {
        CellKeyInjective(i, k, j, k');
      }
      forall i: nat, k | i < n ensures RowCell(conv, settings, rows, keys, i, k) == RowCell(conv, settings, init, keys, i, k) {
        assert rows[i] == init[i];
      }
      AllAddedStep(prev, AllRowConfigs(conv, settings, rows, keys),
                   (i: nat, k: string) => RowCell(conv, settings, init, keys, i, k),
                   (i: nat, k: string) => RowCell(conv, settings, rows, keys, i, k), n, (i: nat, k: string) => CellKey(i, k),
                   k => CellOf(conv, settings, ext, k), k => CellKey(n, k));
    }
  }

  /** The configuration of one cell of the table, as the configurations of all rows hold it. */
  lemma CellAt(conv: Conversions, settings: seq<CellSettings>, rows: seq<Row>, keys: seq<string>, i: nat, k: string)
    requires NoDuplicates(keys) && i < |rows|
    ensures var m := AllRowConfigs(conv, settings, rows, keys); var c := CellOf(conv, settings, ExtendRow(rows[i], keys), k);
      (CellKey(i, k) in m <==> c.Some?) && (c.Some? ==> m[CellKey(i, k)] == c.value)
  {
    var m := AllRowConfigs(conv, settings, rows, keys);
    var g := (i: nat, k: string) => RowCell(conv, settings, rows, keys, i, k);
    var name := (i: nat, k: string) => CellKey(i, k);
    AllRowConfigsMeaning(conv, settings, rows, keys);
    assert AllAdded(m, g, |rows|, name);
    assert name(i, k) in m <==> g(i, k).Some?;
    assert g(i, k) == CellOf(conv, settings, ExtendRow(rows[i], keys), k);
  }

  /** The cell configurations of the table: with cell settings, the cell of row `i` and key `k` is
      configured exactly when its value (undefined for a table key the row lacks) has a first
      applying setting, whose configuration it gets. */
  lemma CellConfigsMeaning(conv: Conversions, cellSettings: Option<seq<CellSettings>>, rows: seq<Row>, keys: seq<string>)
    requires NoDuplicates(keys)
    ensures cellSettings.None? ==> CellConfigs(conv, cellSettings, rows, keys) == map[]
    ensures cellSettings.Some? ==> forall i, k :: 0 <= i < |rows| ==>
      var v := if k in Keys(rows[i]) then Lookup(rows[i], k) else if k in keys then Some(Undefined) else None;
      ((CellKey(i, k) in CellConfigs(conv, cellSettings, rows, keys)) <==> (v.Some? && CellConfigOf(conv, v.value, cellSettings.value).Some?))
      && (CellKey(i, k) in CellConfigs(conv, cellSettings, rows, keys) ==>
            CellConfigs(conv, cellSettings, rows, keys)[CellKey(i, k)] == CellConfigOf(conv, v.value, cellSettings.value).value)
  {
    if cellSettings.Some? {
      var settings := cellSettings.value;
      var m := AllRowConfigs(conv, settings, rows, keys);
      forall i, k | 0 <= i < |rows| ensures
        var v := if k in Keys(rows[i]) then Lookup(rows[i], k) else if k in keys then Some(Undefined) else None;
        ((CellKey(i, k) in m) <==> (v.Some? && CellConfigOf(conv, v.value, settings).Some?))
        && (CellKey(i, k) in m ==> m[CellKey(i, k)] == CellConfigOf(conv, v.value, settings).value)
      {
        CellAt(conv, settings, rows, keys, i, k);
        ExtendRowValue(rows[i], keys, k);
      }
    }
  }
}
