/** The plain-text forms the logs table copies to the clipboard. */
module LogsCopyHelpers {
  import opened Base
  import opened PersesCore

  /** The date library the formatting leans on: `new Date(ms).toISOString()` and `Date.parse`. */
  datatype DateLib = DateLib(isoString: real -> string, parse: string -> real)

  /** formatTimestamp: a number counts as seconds, so does a string of digits; any other
      string goes through `Date.parse`. */
  function FormatTimestamp(lib: DateLib, ts: Timestamp): string
  {
    match ts
    case Seconds(s) => lib.isoString(s * 1000.0)
    case Text(t) =>
      if t != [] && AllDigits(t) then lib.isoString(ParseDigits(t) as real * 1000.0)
      else lib.isoString(lib.parse(t))
  }

  /** A digit-only string timestamp gives the same text as the same number of seconds. */
  lemma DigitTimestampIsSeconds(lib: DateLib, n: nat)
    ensures FormatTimestamp(lib, Text(NatToString(n))) == FormatTimestamp(lib, Seconds(n as real))
  {
    ParseNatToString(n);
  }

  /** `key="value"` */
  function LabelPair(kv: (string, string)): string {
    kv.0 + "=\"" + kv.1 + "\""
  }

  /** formatLabels: the pairs in entry order, separated by single spaces. */
  function FormatLabels(labels: Labels): (r: string)
    ensures r == "" <==> labels == []
  {
    if labels == [] then ""
    else
      var r := Join(seq(|labels|, i requires 0 <= i < |labels| => LabelPair(labels[i])), " ");
      JoinNonEmpty(seq(|labels|, i requires 0 <= i < |labels| => LabelPair(labels[i])), " ");
      r
  }

  lemma {:induction false} JoinNonEmpty(parts: seq<string>, sep: string)
    requires parts != [] && parts[|parts| - 1] != []
    ensures Join(parts, sep) != []
  {
  }

  /** One more entry adds one space and its `key="value"` pair at the end. */
  lemma FormatLabelsAppend(labels: Labels, kv: (string, string))
    requires labels != []
    ensures FormatLabels(labels + [kv]) == FormatLabels(labels) + " " + LabelPair(kv)
  {
    var ls := labels + [kv];
    var parts := seq(|ls|, i requires 0 <= i < |ls| => LabelPair(ls[i]));
    assert parts[..|parts| - 1] == seq(|labels|, i requires 0 <= i < |labels| => LabelPair(labels[i]));
  }

  /** formatLogEntry: `{timestamp} {labels} {message}`, the labels segment left out when there are none. */
  function FormatLogEntry(lib: DateLib, log: LogEntry): (r: string)
    ensures log.labels.None? || log.labels.value == [] ==> r == FormatTimestamp(lib, log.timestamp) + " " + log.line
    ensures log.labels.Some? && log.labels.value != [] ==>
      r == FormatTimestamp(lib, log.timestamp) + " " + FormatLabels(log.labels.value) + " " + log.line
  {
    var timestamp := FormatTimestamp(lib, log.timestamp);
    var labels := FormatLabels(log.labels.GetOr([]));
    if labels != "" then timestamp + " " + labels + " " + log.line else timestamp + " " + log.line
  }

  /** formatLogMessage: the message text alone. */
  function FormatLogMessage(log: LogEntry): (r: string)
    ensures r == log.line
  {
    log.line
  }

  function FormattedEntries(lib: DateLib, logs: seq<LogEntry>): (r: seq<string>)
    ensures |r| == |logs|
    ensures forall i :: 0 <= i < |logs| ==> r[i] == FormatLogEntry(lib, logs[i])
  {
    seq(|logs|, i requires 0 <= i < |logs| => FormatLogEntry(lib, logs[i]))
  }

  /** formatLogEntries: one entry per line. */
  function FormatLogEntries(lib: DateLib, logs: seq<LogEntry>): (r: string)
    ensures logs == [] ==> r == ""
  {
    Join(FormattedEntries(lib, logs), "\n")
  }

  /** Splitting the copied text at line breaks gives back one formatted entry per log,
      as long as no entry spans several lines. */
  lemma FormatLogEntriesLines(lib: DateLib, logs: seq<LogEntry>)
    requires logs != []
    requires forall i :: 0 <= i < |logs| ==> '\n' !in FormatLogEntry(lib, logs[i])
    ensures Split(FormatLogEntries(lib, logs), '\n') == FormattedEntries(lib, logs)
  {
    SplitJoin(FormattedEntries(lib, logs), '\n');
  }
}
