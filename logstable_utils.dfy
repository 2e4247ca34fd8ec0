/** Severity detection of a log line and the conversion of log entries into table rows. */
module LogsTableUtils {
  import opened Base
  import opened PersesCore

  datatype Severity = Critical | Error | Warning | Info | Debug | Trace | Unknown | Other

  /** `severityAbbreviations`, in the order its entries are enumerated. */
  const Abbreviations: seq<(Severity, seq<string>)> := [
    (Critical, ["critical", "emerg", "fatal", "alert", "crit"]),
    (Error, ["error", "err", "eror"]),
    (Debug, ["debug", "dbug"]),
    (Info, ["info", "inf", "information", "notice"]),
    (Trace, ["trace"]),
    (Warning, ["warn", "warning"]),
    (Unknown, ["unknown"]),
    (Other, [""])
  ]

  /** `abbreviations.some(abbr => abbr && level.includes(abbr))` */
  predicate AnyOccurs(level: string, abbrs: seq<string>) {
    exists j :: 0 <= j < |abbrs| && abbrs[j] != "" && Includes(level, abbrs[j])
  }

  /** The lower-cased `level` label, if present. */
  function LevelOf(log: LogEntry): Option<string> {
    if log.labels.Some? then
      match Lookup(log.labels.value, "level")
      case Some(l) => Some(Lower(l))
      case None => None
    else None
  }

  /** getSeverity: the first severity with a non-empty abbreviation occurring in the lower-cased level. */
  method GetSeverity(log: LogEntry) returns (sev: Severity)
    ensures LevelOf(log).None? || LevelOf(log).value == "" ==> sev == Unknown
    ensures sev != Other
    ensures LevelOf(log).Some? && LevelOf(log).value != "" ==>
      ((exists k :: 0 <= k < |Abbreviations| && Abbreviations[k].0 == sev
                    && AnyOccurs(LevelOf(log).value, Abbreviations[k].1)
                    && forall j :: 0 <= j < k ==> !AnyOccurs(LevelOf(log).value, Abbreviations[j].1))
       || (sev == Unknown && forall k :: 0 <= k < |Abbreviations| ==> !AnyOccurs(LevelOf(log).value, Abbreviations[k].1)))
  {
    var level := LevelOf(log);
    if level.Some? && level.value != "" {
      var l := level.value;
      for k := 0 to |Abbreviations|
        invariant forall j :: 0 <= j < k ==> !AnyOccurs(l, Abbreviations[j].1)
      {
        var abbrs := Abbreviations[k].1;
        var found := false;
        for j := 0 to |abbrs|
          invariant !found ==> forall m :: 0 <= m < j ==> !(abbrs[m] != "" && Includes(l, abbrs[m]))
          invariant found ==> AnyOccurs(l, abbrs)
        {
          if abbrs[j] != "" && Includes(l, abbrs[j]) {
            found := true;
            break;
          }
        }
        if found {
          assert Abbreviations[7].1 == [""];
          return Abbreviations[k].0;
        }
      }
    }
    return Unknown;
  }

  /** The cell of column `col`: the entry's labels overlaid with `timestamp` and `line`, '' when absent. */
  function CellValue(numberText: real -> string, e: LogEntry, col: string): string {
    var ts := match e.timestamp
      case Seconds(s) => numberText(s)
      case Text(t) => t;
    var fields := e.labels.GetOr([]) + [("timestamp", ts), ("line", e.line)];
    Lookup(fields, col).GetOr("")
  }

  /** `timestamp` and `line` override same-named labels; any other column reads its label or ''. */
  lemma CellValueSpec(numberText: real -> string, e: LogEntry, col: string)
    ensures col == "line" ==> CellValue(numberText, e, col) == e.line
    ensures col == "timestamp" && e.timestamp.Text? ==> CellValue(numberText, e, col) == e.timestamp.t
    ensures col != "line" && col != "timestamp" && e.labels.Some? ==>
      CellValue(numberText, e, col) == Lookup(e.labels.value, col).GetOr("")
    ensures col != "line" && col != "timestamp" && e.labels.None? ==> CellValue(numberText, e, col) == ""
  {
    var ls := e.labels.GetOr([]);
    var ts := match e.timestamp
      case Seconds(s) => numberText(s)
      case Text(t) => t;
    var fields := ls + [("timestamp", ts), ("line", e.line)];
    assert fields[..|fields| - 1] == ls + [("timestamp", ts)];
    assert (ls + [("timestamp", ts)])[..|ls|] == ls;
    assert "line" != "timestamp" by {
      assert "line"[0] != "timestamp"[0];
    }
    if col != "line" {
      assert Lookup(fields, col) == Lookup(ls + [("timestamp", ts)], col);
    }
  }

  /** convertLogEntriesToLogTableRows: one row per entry whose keys are exactly the columns. */
  method ConvertLogEntriesToLogTableRows(numberText: real -> string, entries: seq<LogEntry>, allColumns: seq<string>)
    returns (records: seq<map<string, string>>)
    ensures |records| == |entries|
    ensures forall i :: 0 <= i < |entries| ==> records[i].Keys == set c | c in allColumns
    ensures forall i, c :: 0 <= i < |entries| && c in allColumns ==> records[i][c] == CellValue(numberText, entries[i], c)
  {
    records := [];
    for i := 0 to |entries|
      invariant |records| == i
      invariant forall k :: 0 <= k < i ==> records[k].Keys == set c | c in allColumns
      invariant forall k, c :: 0 <= k < i && c in allColumns ==> records[k][c] == CellValue(numberText, entries[k], c)
    {
      var e := entries[i];
      var row: map<string, string> := map[];
      for j := 0 to |allColumns|
        invariant row.Keys == set c | c in allColumns[..j]
        invariant forall c :: c in row ==> row[c] == CellValue(numberText, e, c)
      {
        row := row[allColumns[j] := CellValue(numberText, e, allColumns[j])];
      }
      assert allColumns[..|allColumns|] == allColumns;
      records := records + [row];
    }
  }
}
