# Perses plugins: a verified model of the data transforms

This project models the logic at the core of the Perses plugins repository: the small sequential
transforms that the panel, query and datasource plugins run between a backend's answer and what a
dashboard shows, and the retry loop of the script that publishes a plugin's CUE module. Each
source file of that core has its own module:

- parsers and serialisers: the Tempo filter tokenizer (`TempoFilter`), CSV export of bar charts
  (`BarchartCsv`), the logs table's copy formats (`LogsCopyHelpers`), LogQL completion
  (`LokiComplete`), SQL macro substitution (`SqlVariables`, `SqlVariablesProps`), Pyroscope filter
  parsing (`PyroscopeFilterItem`), Splunk URL building (`SplunkClient`), histogram range strings
  (`TimeSeriesTable`);
- validators: the InfluxDB plugin spec of the Go SDK (`InfluxDBSpec`) and the read-only query guard
  of the browser datasource (`InfluxDBDatasource`);
- result reshaping: Loki (`LokiTypes`, `LokiLogData`, `LokiData`, `LokiTimeSeries`, `LokiLogQuery`),
  SQL (`SqlTimeSeries`), ClickHouse (`ClickHouseData`, `ClickHouseLogData`), Splunk
  (`SplunkTimeSeries`, `SplunkLogData`) and the status history chart (`StatusHistory`);
- selection and lookup rules: the logs table's severity and rows (`LogsTableUtils`), the table panel's
  column and cell rules (`TablePanel`), histogram thresholds (`HistogramThresholds`), the stat,
  gauge and pie charts (`StatChart`, `GaugeChart`, `PieColors`), Prometheus label capture
  (`PrometheusVariables`);
- edits of lists and records in place: conditional formats (`ConditionalPanel`), Prometheus query
  parameters (`PrometheusEditor`), Pyroscope filters (`PyroscopeFilters`), time series query
  settings (`TimeSeriesQuerySettings`), exponential histogram buckets (`HistogramBuckets`) and the
  logs table's row selection (`LogsSelection`);
- the bounded publish retry (`CuePublish`).

`Base` holds `Option`/`Result` and string helpers, `PersesCore` the label records, log entries and
time series every plugin exchanges (a JavaScript record is a list of entries in insertion order;
the order `Object.keys` and `Object.entries` give integer-like keys is not modelled, see "Left out"),
`KeyOrder` the sort of entries by key and `TimeSort` the sort of samples by time.

Code that changes state step by step is modelled as methods with loops, or as classes whose methods
update fields (`LogsSelection.LogSelection`, `ConditionalPanel.ConditionalEditor`,
`PrometheusEditor.DatasourceEditor`, `TimeSeriesQuerySettings.QuerySettingsEditor`,
`InfluxDBSpec.SpecVar`, `PyroscopeFilterItem.FilterItem`); each such method is proved against a
function that specifies it, and the properties the source promises are proved about those
functions. Foreign helpers the code calls (regular expressions, `Date`, `Number()`,
`applyValueMapping`, `formatValue`, the backend clients) are function-valued parameters, so every
property holds whatever they do; `localeCompare` is not among them, it is fixed as ordinal order
(`KeyOrder.Below`). JavaScript numbers are exact `real`s.

## Model

| member | source | states |
|---|---|---|
| PersesCore.Lookup | prometheus/src/plugins/PrometheusDatasourceEditor.tsx:40-48 | some value exactly when some entry has the key, and then an entry holding the key and that value |
| PersesCore.Assign | prometheus/src/plugins/PrometheusDatasourceEditor.tsx:45-47 | `obj[key] = value`: the key then looks up the value, every other key looks up as before, the keys gain the key, distinct keys stay distinct |
| PersesCore.AssignInPlace | prometheus/src/plugins/PrometheusDatasourceEditor.tsx:47 | assigning a key already present keeps the set of keys and changes only that key's value |
| PersesCore.Delete | prometheus/src/plugins/PrometheusDatasourceEditor.tsx:66-70 | `delete obj[key]`: exactly the entries with another key remain |
| PersesCore.DeleteLookup | prometheus/src/plugins/PrometheusDatasourceEditor.tsx:66-70 | after deleting a key it looks up nothing and every other key looks up as before |
| PersesCore.DeleteKeys | prometheus/src/plugins/PrometheusDatasourceEditor.tsx:66-70 | deleting a key removes exactly it from the keys |
| PersesCore.DeleteAbsent | prometheus/src/plugins/PrometheusDatasourceEditor.tsx:66-70 | deleting a key that is absent changes nothing |
| Base.Join | logstable/src/utils/copyHelpers.ts:69 | `join(sep)`: its length is the parts' lengths plus one separator between each two |
| Base.Split | influxdb/src/datasource/influxdb/InfluxDBDatasource.ts:40 | `split(c)`: never empty; SplitJoin states it undoes a join of parts without c |
| Base.SplitJoin | logstable/src/utils/copyHelpers.ts:69 | splitting a join of parts without the separator gives the parts back |
| Base.Trim | loki/src/queries/loki-log-query/LokiLogQuery.tsx:87 | `trim()`: a slice of the input with no whitespace at either end, empty exactly when the input is all whitespace |
| Base.Dedupe | statushistorychart/src/utils/data-transform.ts:85-111 | the distinct values of a `Set` in insertion order: exactly the input's values |
| Base.DedupeNoDuplicates | statushistorychart/src/utils/data-transform.ts:85-111 | the distinct values hold no duplicates |
| Base.DedupeFirstOccurrenceOrder | statushistorychart/src/utils/data-transform.ts:85-111 | the distinct values keep the order of their first occurrences |
| Base.LowerChar | barchart/src/CSVExportUtils.ts:80 | ASCII `toLowerCase` of one character: never an upper-case ASCII letter, and only such a letter is changed |
| Base.UpperChar | influxdb/src/datasource/influxdb/InfluxDBDatasource.ts:40 | ASCII `toUpperCase` of one character: never a lower-case ASCII letter, and only such a letter is changed |
| TempoFilter.SplitByUnquotedWhitespace | tempo/src/components/filter/filter.ts:31-45 | the loop returns exactly the maximal runs of non-separator characters, none empty, whose concatenation is the input without its unquoted spaces; empty input gives no chunk |
| TempoFilter.SplitStep | tempo/src/components/filter/filter.ts:36-41 | one character of the loop follows one step of the scan: an unescaped quote flips the quoting state, an unquoted space pushes the raw chunk and starts the next after it |
| TempoFilter.Scan | tempo/src/components/filter/filter.ts:35-42 | the finished chunks and the current chunk after scanning a prefix, the quote flag toggled by an unescaped quote; stated by ScanDoneNonEmpty and ScanConcat |
| TempoFilter.Chunks | tempo/src/components/filter/filter.ts:31-45 | the finished chunks plus a non-empty last one; stated by ChunksNonEmpty and ChunksConcat |
| TempoFilter.ScanDoneNonEmpty | tempo/src/components/filter/filter.ts:39-40 | every chunk finished while scanning a prefix is non-empty |
| TempoFilter.ChunksNonEmpty | tempo/src/components/filter/filter.ts:44 | no chunk of the split is empty |
| TempoFilter.ScanConcat | tempo/src/components/filter/filter.ts:35-42 | the finished chunks plus the current one are the scanned prefix without its separators |
| TempoFilter.ChunksConcat | tempo/src/components/filter/filter.ts:35-44 | concatenating the chunks gives the input with its unquoted spaces removed |
| TempoFilter.ScanWithoutSeparators | tempo/src/components/filter/filter.ts:35-42 | a prefix with no unquoted space finishes no chunk and is carried whole as the current chunk |
| TempoFilter.QuotedSpacesDoNotSplit | tempo/src/components/filter/filter.ts:36-38 | a non-empty string whose spaces all sit inside quotes is a single chunk |
| TempoFilter.QuotedSpaceKept | tempo/src/components/filter/filter.ts:36-38 | a space met inside quotes is appended to the current chunk and finishes nothing |
| TempoFilter.EscapedQuoteKeepsState | tempo/src/components/filter/filter.ts:36 | a quote preceded by a backslash does not toggle the quoting state |
| TempoFilter.SeparatorRunIsOneSeparator | tempo/src/components/filter/filter.ts:38-44 | a second unquoted space right after a first finishes no further chunk, so runs of spaces act as one separator |
| BarchartCsv.EscapeCsvValue | barchart/src/CSVExportUtils.ts:87-104 | null or undefined gives ''; a value with no comma, quote, CR or LF is returned unchanged; any other is wrapped in quotes |
| BarchartCsv.DoubleQuotes | barchart/src/CSVExportUtils.ts:100 | doubling the quotes never shortens the text |
| BarchartCsv.UndoubleDoubleQuotes | barchart/src/CSVExportUtils.ts:100 | doubling every quote is undone by reading each doubled quote back as one |
| BarchartCsv.EscapeRoundTrip | barchart/src/CSVExportUtils.ts:87-104 | a CSV reader recovers exactly `String(value)` from the escaped cell, quoted or not |
| BarchartCsv.ReplaceForbidden | barchart/src/CSVExportUtils.ts:74 | each of `<>:"/\|?*` becomes a space and every other character is kept, position by position |
| BarchartCsv.WordEnd | barchart/src/CSVExportUtils.ts:76 | the end of a word is the first whitespace at or after its start, or the end of the text |
| BarchartCsv.Words | barchart/src/CSVExportUtils.ts:75-77 | the split words are never empty |
| BarchartCsv.Capitalize | barchart/src/CSVExportUtils.ts:82 | capitalising a word keeps its length |
| BarchartCsv.LowerClean | barchart/src/CSVExportUtils.ts:80 | lower-casing introduces no whitespace and no forbidden character |
| BarchartCsv.CapitalizeClean | barchart/src/CSVExportUtils.ts:82 | capitalising introduces no whitespace and no forbidden character |
| BarchartCsv.CapitalizedTailClean | barchart/src/CSVExportUtils.ts:78-84 | the capitalised later words joined together are clean when the words are |
| BarchartCsv.WordsClean | barchart/src/CSVExportUtils.ts:75-77 | after the replacement the words hold no whitespace or forbidden character and concatenate to exactly the kept characters |
| BarchartCsv.FirstWordClean | barchart/src/CSVExportUtils.ts:76-77 | a leading word followed by clean words concatenating to the rest's kept characters gives the same for the whole text |
| BarchartCsv.WordsFront | barchart/src/CSVExportUtils.ts:76 | a text that starts with a non-whitespace character splits into its first word and the words after it |
| BarchartCsv.KeptPrefix | barchart/src/CSVExportUtils.ts:74-77 | a prefix of kept characters is kept whole in front of what the rest keeps |
| BarchartCsv.CapitalizedTailLower | barchart/src/CSVExportUtils.ts:82-84 | capitalising later words changes only letter case of their concatenation |
| BarchartCsv.SanitizeFilenameSpec | barchart/src/CSVExportUtils.ts:72-85 | the sanitised name has no whitespace and none of `<>:"/\|?*`, and up to letter case it is exactly the input's characters that are neither |
| BarchartCsv.CamelJoinClean | barchart/src/CSVExportUtils.ts:78-84 | the first word lower-cased and the rest capitalised, joined, stay clean |
| BarchartCsv.CamelJoinLower | barchart/src/CSVExportUtils.ts:78-84 | the camel-case join equals the plain concatenation up to letter case |
| BarchartCsv.KeptReplace | barchart/src/CSVExportUtils.ts:74 | replacing forbidden characters with spaces does not change which characters are kept |
| BarchartCsv.SanitizeFilename | barchart/src/CSVExportUtils.ts:72-85 | replace, split into words, camel-join; its meaning is stated by SanitizeFilenameSpec, CamelJoinClean and CamelJoinLower |
| BarchartCsv.ExtractExportableData | barchart/src/CSVExportUtils.ts:44-70 | the result is undefined exactly when no query carries a non-empty series list; otherwise it holds all those series in order and the first metadata found |
| BarchartCsv.AllSeriesEmpty | barchart/src/CSVExportUtils.ts:50-62 | no series are gathered exactly when no query contributes one |
| BarchartCsv.FirstNumeric | barchart/src/CSVExportUtils.ts:131-148 | an aggregated value is the `Number(value)` of some entry, any real number, the first entry holding one |
| BarchartCsv.SeriesLabel | barchart/src/CSVExportUtils.ts:151 | the label is the series name when it is non-empty, else `Series i+1` |
| BarchartCsv.RowLines | barchart/src/CSVExportUtils.ts:166 | one line per row, each the escaped label, a comma and the escaped `String` of its value (or an empty cell) |
| BarchartCsv.ValueCell | barchart/src/CSVExportUtils.ts:166 | the escaped `String(value)`, or the empty cell for a row without a value; its reading back is EscapeRoundTrip |
| BarchartCsv.RowLine | barchart/src/CSVExportUtils.ts:166 | the escaped label, a comma, the value cell; its end is stated by RowLineEnd |
| BarchartCsv.CsvText | barchart/src/CSVExportUtils.ts:110-173 | the header and the row lines joined by line feeds, or empty; ExportDataAsCsv computes it and CsvNoTrailingNewline states its end |
| BarchartCsv.AggregateValue | barchart/src/CSVExportUtils.ts:129-148 | the inner loop finds the first entry whose value is a number (any real), skipping entries of neither shape |
| BarchartCsv.CollectRows | barchart/src/CSVExportUtils.ts:118-154 | the outer loop pushes one row per series with values, in order, each with its label and the first numeric value as a real |
| BarchartCsv.RenderedJoin | barchart/src/CSVExportUtils.ts:161-170 | after each row the accumulated text is the header and the lines so far joined by line feeds, with a line feed only before a further row |
| BarchartCsv.RenderRows | barchart/src/CSVExportUtils.ts:161-170 | the accumulated text is the header followed by the row lines joined by line feeds |
| BarchartCsv.ExportDataAsCsv | barchart/src/CSVExportUtils.ts:110-173 | the text is empty when there are no series or none with values, else the header and one line per series with values, its value written by `String` and escaped |
| BarchartCsv.RowsCount | barchart/src/CSVExportUtils.ts:118-154 | there is exactly one row per series that has values |
| BarchartCsv.WithValuesSnoc | barchart/src/CSVExportUtils.ts:125-127 | one series more adds one to the count of series with values exactly when it has values |
| BarchartCsv.CsvNoTrailingNewline | barchart/src/CSVExportUtils.ts:163-170 | a non-empty CSV never ends with a line break |
| BarchartCsv.LinesEnd | barchart/src/CSVExportUtils.ts:163-170 | the joined lines of at least one row end with something other than a line break |
| BarchartCsv.JoinEnd | barchart/src/CSVExportUtils.ts:167-169 | a joined list ends with the last character of its last part |
| BarchartCsv.RowLineEnd | barchart/src/CSVExportUtils.ts:166 | a row line is never empty and never ends with a line break: it ends with `,` when the value cell is empty, else with the cell's last character, which is a quote when the cell was quoted |
| LogsCopyHelpers.DigitTimestampIsSeconds | logstable/src/utils/copyHelpers.ts:19-29 | a digit-only string timestamp is formatted exactly as the same number of seconds given as a number |
| LogsCopyHelpers.FormatLabels | logstable/src/utils/copyHelpers.ts:34-38 | the text is empty exactly when there are no labels |
| LogsCopyHelpers.FormatLabelsAppend | logstable/src/utils/copyHelpers.ts:37 | one label more appends a single space and its `key="value"` pair, so pairs come in entry order |
| LogsCopyHelpers.FormatLogEntry | logstable/src/utils/copyHelpers.ts:44-48 | empty or missing labels give `timestamp line`; otherwise `timestamp labels line` |
| LogsCopyHelpers.FormatLogMessage | logstable/src/utils/copyHelpers.ts:53-55 | the message is exactly the log line |
| LogsCopyHelpers.FormattedEntries | logstable/src/utils/copyHelpers.ts:69 | one formatted entry per log, in order |
| LogsCopyHelpers.FormatLogEntries | logstable/src/utils/copyHelpers.ts:68-70 | no logs give '' |
| LogsCopyHelpers.FormatLogEntriesLines | logstable/src/utils/copyHelpers.ts:68-70 | splitting the text at line feeds gives back the formatted entries, one per log, when no entry holds a line feed |
| LogsTableUtils.GetSeverity | logstable/src/components/utils.ts:29-41 | no or empty level gives unknown; otherwise the first severity in table order with a non-empty abbreviation inside the lower-cased level, else unknown; never other |
| LogsTableUtils.CellValueSpec | logstable/src/components/utils.ts:49-55 | `line` and `timestamp` override same-named labels; any other column reads its label, and '' when it is missing |
| LogsTableUtils.ConvertLogEntriesToLogTableRows | logstable/src/components/utils.ts:43-59 | one record per entry whose keys are exactly the columns, each holding that column's cell value |
| LogsSelection.LogSelection.constructor | logstable/src/components/VirtualizedLogsList.tsx:152-195 | a new list has no selected row and no anchor |
| LogsSelection.LogSelection.HandleRowSelect | logstable/src/components/VirtualizedLogsList.tsx:152-195 | shift with an anchor selects exactly the indices between anchor and click; shift without one selects the click and anchors it; ctrl or meta toggles only the click and anchors it; a plain click moves only the anchor |
| LogsSelection.LogSelection.SelectAll | logstable/src/components/VirtualizedLogsList.tsx:247-254 | every index is selected and, when there are logs, the anchor is the last one |
| LogsSelection.LogSelection.Escape | logstable/src/components/VirtualizedLogsList.tsx:275-278 | a non-empty selection is cleared with its anchor; an empty one changes nothing |
| LogsSelection.LogSelection.CopyIndices | logstable/src/components/VirtualizedLogsList.tsx:264-267 | the copied indices are the selected ones sorted ascending, out-of-range ones dropped |
| LogsSelection.LogSelection.SelectedLogs | logstable/src/components/VirtualizedLogsList.tsx:132-135 | the copied logs are those at the selected in-range indices, in ascending index order |
| LogsSelection.LogSelection.CopyText | logstable/src/components/VirtualizedLogsList.tsx:264-269 | the copied text formats the selected in-range logs in ascending index order |
| LogsSelection.SortedSelectionIsCopyOrder | logstable/src/components/VirtualizedLogsList.tsx:132-135 | the sorted selection is strictly ascending and holds exactly the selected indices below the log count |
| LokiComplete.CreateLineFilterCompletion | loki/src/components/complete.ts:408-422 | the completion's label is the operator followed by `""`, of text type with boost 10, and it inserts that label with the cursor one character before its end |
| LokiComplete.ApplyLineFilter | loki/src/components/complete.ts:412-418 | the operator and `""` replace the range, cursor one before their end; its meaning is LineFilterCursorInsideQuotes |
| LokiComplete.LineFilterCursorInsideQuotes | loki/src/components/complete.ts:412-418 | applying a line-filter completion leaves the cursor between the two inserted quotes and the text around the replaced range untouched |
| LokiComplete.StripPipe | loki/src/components/complete.ts:320 | removing the pipe from an operator that holds one shortens it by one |
| LokiComplete.CompletePipeFunctions | loki/src/components/complete.ts:289-355 | after `!` only the `!=` and `!~` completions; otherwise the line filters of the context followed by the 11 parser and formatter names, each prefixed by the context's prefix |
| LokiComplete.LineFilterCompletions | loki/src/components/complete.ts:306-328 | one line-filter completion per operator, in order |
| LokiComplete.AppendNamed | loki/src/components/complete.ts:337-352 | one completion per name is appended after the existing ones, which are kept |
| LokiComplete.LineFiltersAfterPipe | loki/src/components/complete.ts:313-323 | after `\| ` no line filter is offered; after `\|` the operators are `=` and `~` |
| LokiComplete.PipeNamesDistinct | loki/src/components/complete.ts:336-346 | the 11 parser and formatter names are pairwise distinct, so each is offered once |
| LokiComplete.ReplaceAllAppend | loki/src/components/complete.ts:432-433 | replacing every occurrence distributes over concatenation |
| LokiComplete.TwoPassesAreOne | loki/src/components/complete.ts:432-433 | doubling backslashes and then escaping quotes equals escaping both in one pass |
| LokiComplete.EscapeString | loki/src/components/complete.ts:424-435 | no change for a backtick quote, else backslashes then quotes escaped; its inverse is stated by EscapeStringRoundTrip |
| LokiComplete.Unescape | loki/src/components/complete.ts:430-434 | how a LogQL reader reads a double-quoted body back; the partner of EscapeString in UnescapeEscapeBoth |
| LokiComplete.UnescapeEscapeBoth | loki/src/components/complete.ts:430-434 | unescaping undoes the escaping of backslashes and quotes |
| LokiComplete.EscapeStringRoundTrip | loki/src/components/complete.ts:424-435 | a string escaped for `"` quoting reads back unchanged |
| LokiComplete.ApplyQuotedCompletion | loki/src/components/complete.ts:444-463 | a quote just before or after the range is absorbed and chosen, a label with a backtick forces `"`, and the inserted text is quote, escaped label, quote |
| LokiComplete.QuotedCompletionReadsBack | loki/src/components/complete.ts:455-461 | the inserted literal reads back as exactly the label, whichever quote was chosen |
| LokiLogQuery.CalculateVolumeInterval | loki/src/queries/loki-log-query/LokiLogQuery.tsx:51-73 | the loops compute the volume interval function; the result is a standard interval label, the smallest giving 20 to 100 bars when one exists, else the first whose bar count is closest to 40 |
| LokiLogQuery.VolumeStep | loki/src/queries/loki-log-query/LokiLogQuery.tsx:91-93 | the step of the volume query: `1m` without a time range, the volume interval of end - start with one |
| LokiLogQuery.FirstFitting | loki/src/queries/loki-log-query/LokiLogQuery.tsx:53-58 | the first loop returns the first interval giving 20 to 100 bars, or none exactly when no interval does; it equals the first-fit search function |
| LokiLogQuery.Closest | loki/src/queries/loki-log-query/LokiLogQuery.tsx:61-72 | the fallback loop returns an interval of least distance to 40 bars, the first of those; it equals the closest-interval function |
| LokiLogQuery.FirstFitFrom | loki/src/queries/loki-log-query/LokiLogQuery.tsx:53-58 | the first interval at or after k that gives 20 to 100 bars, if any |
| LokiLogQuery.FirstFitFromSpec | loki/src/queries/loki-log-query/LokiLogQuery.tsx:53-58 | the search returns an interval that fits with none fitting between k and it, or none exactly when no interval from k fits |
| LokiLogQuery.ClosestBefore | loki/src/queries/loki-log-query/LokiLogQuery.tsx:61-72 | among the first n intervals, the first of least distance to 40 bars |
| LokiLogQuery.ClosestBeforeSpec | loki/src/queries/loki-log-query/LokiLogQuery.tsx:61-72 | its distance is no larger than any of the first n intervals' and strictly smaller than every earlier one's |
| LokiLogQuery.VolumeInterval | loki/src/queries/loki-log-query/LokiLogQuery.tsx:51-73 | the first fitting interval's label, else the closest interval's label |
| LokiLogQuery.VolumeIntervalSpec | loki/src/queries/loki-log-query/LokiLogQuery.tsx:51-73 | the volume interval is a standard label; the smallest fitting interval when one fits, else the first closest to 40 bars |
| LokiLogQuery.VolumeExpression | loki/src/queries/loki-log-query/LokiLogQuery.tsx:95 | `sum by (level, detected_level) (count_over_time(query[interval]))`; CreateVolumeQuery states where it is used |
| LokiLogQuery.OneHourUsesMinutes | loki/src/queries/loki-log-query/LokiLogQuery.tsx:25-58 | an hour's range picks `1m`, the first interval giving 20 to 100 bars |
| LokiLogQuery.CreateVolumeQuery | loki/src/queries/loki-log-query/LokiLogQuery.tsx:86-110 | null exactly for a missing or blank query; otherwise a volume expression over the query with the same datasource, step `1m` without a time range and the volume interval of end - start with one |
| LokiLogData.ConvertStreamsToLogs | loki/src/queries/loki-log-query/get-loki-log-data.ts:22-39 | the entries come stream by stream and value by value, and totalCount is their number, the sum of the streams' value counts |
| LokiLogData.GetLokiLogData | loki/src/queries/loki-log-query/get-loki-log-data.ts:41-81 | an empty query gives empty logs without a client call; a streams result gives its converted logs; any other result empty logs |
| LokiTypes.StreamLogs | loki/src/queries/loki-query/get-loki-data.ts:36-42 | one entry per stream value, in order, each carrying the stream's labels |
| LokiTypes.StreamsLogsCount | loki/src/queries/loki-query/get-loki-data.ts:32-49 | the entry count is the sum of the streams' value counts |
| LokiTypes.StreamsLogsAt | loki/src/queries/loki-query/get-loki-data.ts:35-43 | value `j` of stream `i` sits after all values of earlier streams and carries stream `i`'s labels |
| LokiTypes.StreamsLogsAppend | loki/src/queries/loki-query/get-loki-data.ts:35-43 | one stream more appends exactly its entries |
| LokiTypes.MetricName | loki/src/queries/loki-query/get-loki-data.ts:53-55 | no labels give '' and one label gives `k=v` |
| LokiTypes.MetricNameAppend | loki/src/queries/loki-query/get-loki-data.ts:53-55 | one label more appends `, k=v`, so pairs are joined by ', ' in order |
| LokiData.MatrixSeries | loki/src/queries/loki-query/get-loki-data.ts:52-60 | a matrix result becomes a series named by its joined labels, keeping its labels and one converted point per sample |
| LokiData.ConvertMatrixToTimeSeries | loki/src/queries/loki-query/get-loki-data.ts:51-62 | one series per matrix result, in order |
| LokiData.GetLokiData | loki/src/queries/loki-query/get-loki-data.ts:64-108 | an empty query gives no series with result type matrix; a matrix gives its series; streams give no series and the logs; any other result an empty matrix |
| LokiTimeSeries.FlatResultsCount | loki/src/queries/loki-query/get-time-series-data.ts:38-53 | flattening streams gives one matrix result per log line |
| LokiTimeSeries.FlatResultsShape | loki/src/queries/loki-query/get-time-series-data.ts:41-47 | each flat result has exactly one sample and the labels of some stream |
| LokiTimeSeries.ConvertLokiToMatrix | loki/src/queries/loki-query/get-time-series-data.ts:31-55 | a matrix passes through unchanged, streams are flattened, any other result becomes empty |
| LokiTimeSeries.SamplePoints | loki/src/queries/loki-query/get-time-series-data.ts:65-68 | one point per sample, in milliseconds, with null for a non-numeric value |
| LokiTimeSeries.LogLinesAreNullSamples | loki/src/queries/loki-query/get-time-series-data.ts:65-74 | there are as many log lines as null points, and each is a non-numeric sample with its time in milliseconds |
| LokiTimeSeries.MatrixToTimeSeries | loki/src/queries/loki-query/get-time-series-data.ts:57-78 | one series per matrix result with its joined name, its labels, its points and its log lines |
| LokiTimeSeries.GetTimeSeriesData | loki/src/queries/loki-query/get-time-series-data.ts:80-105 | an empty query gives no series; otherwise the series of the response converted to a matrix |
| SqlVariables.WordRunEnd | sql/src/model/replace-sql-builtin-variables.ts:29-45 | the end of the run of word characters that follows a macro name, which decides whether `\b` matches after it |
| SqlVariables.ReplaceMacro | sql/src/model/replace-sql-builtin-variables.ts:29-45 | one `replace(/…\b/g)` pass: each occurrence of the macro (followed by a non-word character or the end, when the boundary is asked for) becomes its replacement, left to right; stated by the lemmas below |
| SqlVariables.ReplaceTimeFilter | sql/src/model/replace-sql-builtin-variables.ts:48-51 | one `replace(/\$__timeFilter\((\w+)\)/g)` pass: each macro with a word-character column becomes the rendering of its column; stated by the lemmas below |
| SqlVariables.ReplaceTimesAndInterval | sql/src/model/replace-sql-builtin-variables.ts:29-45 | the eight time and interval replacements in the source's order |
| SqlVariables.ReplaceSqlBuiltinVariables | sql/src/model/replace-sql-builtin-variables.ts:25-54 | the chain, then the time filter with quoted ISO times; its behaviour is stated by NoMacrosUnchanged, TimeFromForm, TimeFromInContext, TimeFilterInContext and the forms below |
| SqlVariables.ReplaceSqlBuiltinVariablesUnix | sql/src/model/replace-sql-builtin-variables.ts:59-89 | the same with Unix seconds; stated by NoMacrosUnchanged and UnixTimeFromForm |
| SqlVariables.ReplaceMacroPlainPrefix | sql/src/model/replace-sql-builtin-variables.ts:29-45 | text without `$` before the rest passes through unchanged and the rest is replaced as on its own |
| SqlVariables.ReplaceMacroAtToken | sql/src/model/replace-sql-builtin-variables.ts:29-45 | a macro at the start, followed by a non-word character or the end when the boundary is asked for, becomes its replacement and the rest is replaced on its own |
| SqlVariables.ReplaceMacroInContext | sql/src/model/replace-sql-builtin-variables.ts:29-45 | a macro inside a larger text, after text without `$` and before a non-word character or the end, becomes its replacement with its surroundings kept |
| SqlVariables.ReplaceMacroWordFollowed | sql/src/model/replace-sql-builtin-variables.ts:29-45 | a macro followed by a word character is not replaced when `\b` is asked for |
| SqlVariables.ReplaceTimeFilterPlainPrefix | sql/src/model/replace-sql-builtin-variables.ts:48-51 | text without `$` before the rest passes through the time filter step unchanged |
| SqlVariables.ReplaceTimeFilterAt | sql/src/model/replace-sql-builtin-variables.ts:48-51 | a time filter macro at the start becomes the rendering of its column and the rest is replaced on its own |
| SqlVariables.ReplaceTimeFilterInContext | sql/src/model/replace-sql-builtin-variables.ts:48-51 | a time filter macro inside a larger text becomes the rendering of its column with its surroundings kept |
| SqlVariables.ReplaceMacroNoDollar | sql/src/model/replace-sql-builtin-variables.ts:29-45 | a text without `$` is left unchanged by any macro replacement |
| SqlVariables.ReplaceTimeFilterNoDollar | sql/src/model/replace-sql-builtin-variables.ts:48-51 | a text without `$` is left unchanged by the `$__timeFilter(column)` replacement |
| SqlVariables.ReplaceTimesAndIntervalNoDollar | sql/src/model/replace-sql-builtin-variables.ts:29-45 | when neither the query nor any replacement holds `$`, the eight time and interval replacements leave the query unchanged |
| SqlVariables.ReplaceMacroWhole | sql/src/model/replace-sql-builtin-variables.ts:29-45 | a query that is exactly the macro becomes exactly its replacement |
| SqlVariables.ReplaceMacroMiss | sql/src/model/replace-sql-builtin-variables.ts:29-45 | a query with one leading `$` that differs from the macro within its length is not touched |
| SqlVariables.ChainHitsAt | sql/src/model/replace-sql-builtin-variables.ts:29-45 | when only the k-th of the eight replacements matches and its result holds no `$`, the chain produces exactly that result |
| SqlVariables.ChainMisses | sql/src/model/replace-sql-builtin-variables.ts:29-45 | when none of the eight replacements matches, the chain leaves the query unchanged |
| SqlVariables.FilterLeavesResult | sql/src/model/replace-sql-builtin-variables.ts:25-54 | when the time and interval replacements give a text without `$`, the time filter step keeps it, so the whole function returns it |
| SqlVariables.UnixFilterLeavesResult | sql/src/model/replace-sql-builtin-variables.ts:59-89 | the same for the Unix-seconds variant |
| SqlVariables.WordRunEndAt | sql/src/model/replace-sql-builtin-variables.ts:29-45 | any position ending a run of word characters (followed by a non-word character or the end) is the run end computed |
| SqlVariablesProps.NoMacrosUnchanged | sql/src/model/replace-sql-builtin-variables.ts:25-89 | both variants leave a query without `$` unchanged |
| SqlVariablesProps.IntToStringNoDollar | sql/src/model/replace-sql-builtin-variables.ts:39-45 | a rendered interval number never contains `$` |
| SqlVariablesProps.TimeFromForm | sql/src/model/replace-sql-builtin-variables.ts:29-31 | `$__timeFrom` becomes the start time as a quoted ISO string |
| SqlVariablesProps.BracedTimeFromForm | sql/src/model/replace-sql-builtin-variables.ts:29-31 | `${__timeFrom}` becomes the same quoted start time |
| SqlVariablesProps.IntervalForm | sql/src/model/replace-sql-builtin-variables.ts:39-41 | `$__interval` becomes the interval in whole seconds, floor(intervalMs / 1000) |
| SqlVariablesProps.IntervalFormOf | sql/src/model/replace-sql-builtin-variables.ts:39-41 | the same, for a query variable equal to `$__interval` |
| SqlVariablesProps.IntervalMsForm | sql/src/model/replace-sql-builtin-variables.ts:44-45 | `$__interval_ms` becomes the interval in milliseconds and is not taken for `$__interval` followed by `_ms` |
| SqlVariablesProps.IntervalMsFormOf | sql/src/model/replace-sql-builtin-variables.ts:44-45 | the same, for a query variable equal to `$__interval_ms` |
| SqlVariablesProps.IntervalSkipsIntervalMs | sql/src/model/replace-sql-builtin-variables.ts:39-41 | the word boundary after `$__interval` does not match inside `$__interval_ms` |
| SqlVariablesProps.UnixTimeFromForm | sql/src/model/replace-sql-builtin-variables.ts:67-72 | in the Unix variant `$__timeFrom` becomes floor(startMs / 1000) unquoted |
| SqlVariablesProps.UnixTimeFromFormOf | sql/src/model/replace-sql-builtin-variables.ts:67-72 | the same, for a query variable equal to `$__timeFrom` |
| SqlVariablesProps.TimeFilterForm | sql/src/model/replace-sql-builtin-variables.ts:48-51 | `$__timeFilter(col)` becomes `col BETWEEN 'from' AND 'to'` |
| SqlVariablesProps.TimeFilterFormOf | sql/src/model/replace-sql-builtin-variables.ts:48-51 | the same, for a query variable holding the macro |
| SqlVariablesProps.TimeFilterSurvivesChain | sql/src/model/replace-sql-builtin-variables.ts:29-45 | none of the eight time and interval replacements touches a `$__timeFilter(col)` macro |
| SqlVariablesProps.TimeFilterShape | sql/src/model/replace-sql-builtin-variables.ts:48-51 | a time filter macro has a single `$` and differs from every time and interval macro within their length |
| SqlVariablesProps.TimeFilterRendered | sql/src/model/replace-sql-builtin-variables.ts:48-51 | the time filter step replaces the whole macro by the rendering of its column |
| SqlVariablesProps.TimeFromInContext | sql/src/model/replace-sql-builtin-variables.ts:29-31 | `$__timeFrom` inside a query, between $-free text and a non-word character or the end, becomes the quoted ISO start time and the rest of the query is kept |
| SqlVariablesProps.MissInContext | sql/src/model/replace-sql-builtin-variables.ts:29-45 | after $-free text, a text with one leading `$` that differs from the macro within its length is not touched |
| SqlVariablesProps.TimeFilterInContext | sql/src/model/replace-sql-builtin-variables.ts:48-51 | `$__timeFilter(col)` inside a $-free query becomes `col BETWEEN 'from' AND 'to'` with the rest of the query kept |
| SqlVariablesProps.TimeFilterShapeWithTail | sql/src/model/replace-sql-builtin-variables.ts:48-51 | a time filter macro followed by $-free text has a single `$` and differs from every time and interval macro within their length |
| SqlTimeSeries.ParseTimeValue | sql/src/queries/sql-time-series-query/SQLTimeSeriesQuery.tsx:160-174 | a date keeps its milliseconds; `unix` multiplies the parsed integer by 1000; `unix_ms` keeps it; any other format parses as a date |
| SqlTimeSeries.UnixSecondsAreThousandMillis | sql/src/queries/sql-time-series-query/SQLTimeSeriesQuery.tsx:160-174 | for a non-date cell the `unix` reading is exactly 1000 times the `unix_ms` reading |
| SqlTimeSeries.DetectTimeColumn | sql/src/queries/sql-time-series-query/SQLTimeSeriesQuery.tsx:147-158 | none exactly when no column name mentions a time keyword; otherwise the first column name that does |
| SqlTimeSeries.Interval | sql/src/queries/sql-time-series-query/SQLTimeSeriesQuery.tsx:48-50 | the minimum step when it is set and non-zero; otherwise the range in whole seconds, at least 1 |
| SqlTimeSeries.PrepareQuery | sql/src/queries/sql-time-series-query/SQLTimeSeriesQuery.tsx:26-53 | an empty query gives no request; otherwise the step is the interval in milliseconds and the query has its built-in variables replaced with that step |
| SqlTimeSeries.Names | sql/src/queries/sql-time-series-query/SQLTimeSeriesQuery.tsx:98-101 | the column names, position by position |
| SqlTimeSeries.WithoutTimeAndLabels | sql/src/queries/sql-time-series-query/SQLTimeSeriesQuery.tsx:98-101 | exactly the names that are neither the time column nor a label column |
| SqlTimeSeries.DefaultValueColumns | sql/src/queries/sql-time-series-query/SQLTimeSeriesQuery.tsx:98-101 | the default value columns are exactly the result columns other than the time and label columns |
| SqlTimeSeries.SeriesKey | sql/src/queries/sql-time-series-query/SQLTimeSeriesQuery.tsx:119-127 | the series key carries the value column as `__name__` |
| SqlTimeSeries.RowPointsOtherKey | sql/src/queries/sql-time-series-query/SQLTimeSeriesQuery.tsx:118-135 | a row contributes no point to a key none of its value columns produces |
| SqlTimeSeries.PointsOtherKey | sql/src/queries/sql-time-series-query/SQLTimeSeriesQuery.tsx:106-136 | the rows contribute no point to a key none of them produces |
| SqlTimeSeries.SameShape | sql/src/queries/sql-time-series-query/SQLTimeSeriesQuery.tsx:139-142 | sorting each series' points keeps the series well formed and keyed by the same label sets |
| SqlTimeSeries.IndexOfKey | sql/src/queries/sql-time-series-query/SQLTimeSeriesQuery.tsx:119-127 | the position of the series with the given labels, or the count when there is none |
| SqlTimeSeries.TransformToTimeSeries | sql/src/queries/sql-time-series-query/SQLTimeSeriesQuery.tsx:84-145 | no rows give no series; the "No time column found" error exactly when no time column is given or detected; otherwise one series per distinct key, series i labelled by the i-th distinct key in the order the rows and value columns first meet them, holding exactly that key's points, each sorted by time and a permutation of them |
| SqlTimeSeries.SortEach | sql/src/queries/sql-time-series-query/SQLTimeSeriesQuery.tsx:139-142 | each series keeps its name and labels, and its points become a time-sorted permutation |
| SqlTimeSeries.BuildRowLabels | sql/src/queries/sql-time-series-query/SQLTimeSeriesQuery.tsx:110-115 | the labels are the row's label-column values, as the label function defines them |
| SqlTimeSeries.AddRow | sql/src/queries/sql-time-series-query/SQLTimeSeriesQuery.tsx:106-136 | adding one row keeps every series' points equal to the points of the rows seen so far for its key, and the keys equal to those rows' keys, the series labelled by the distinct keys met so far in first-met order |
| SqlTimeSeries.RowDone | sql/src/queries/sql-time-series-query/SQLTimeSeriesQuery.tsx:106-136 | after every value column of the row, the grouping invariant covers the row as a whole |
| SqlTimeSeries.AddCell | sql/src/queries/sql-time-series-query/SQLTimeSeriesQuery.tsx:118-135 | one value column of a row extends the grouping invariant by that column; a key not met before gets a new series, last |
| SqlTimeSeries.KeysStep | sql/src/queries/sql-time-series-query/SQLTimeSeriesQuery.tsx:118-127 | one more value column adds exactly its key to the keys seen |
| SqlTimeSeries.NewSeries | sql/src/queries/sql-time-series-query/SQLTimeSeriesQuery.tsx:119-127 | creating an empty series for an unseen key keeps the grouping invariant with that key added |
| SqlTimeSeries.WellFormedAppend | sql/src/queries/sql-time-series-query/SQLTimeSeriesQuery.tsx:119-127 | appending a series whose labels are fresh and name its value column keeps the series well formed |
| SqlTimeSeries.KeyedAppend | sql/src/queries/sql-time-series-query/SQLTimeSeriesQuery.tsx:119-127 | appending a series adds its labels to the keys |
| SqlTimeSeries.RowPointsStep | sql/src/queries/sql-time-series-query/SQLTimeSeriesQuery.tsx:130-134 | one more value column adds its parsed point to the key it produces, when the value parses |
| SqlTimeSeries.DistinctLabels | sql/src/queries/sql-time-series-query/SQLTimeSeriesQuery.tsx:119-127 | two series of a well-formed result have different labels |
| SqlTimeSeries.AddPoint | sql/src/queries/sql-time-series-query/SQLTimeSeriesQuery.tsx:129-134 | pushing the cell's point onto the series of its key keeps the grouping invariant one column further |
| SqlTimeSeries.GroupRows | sql/src/queries/sql-time-series-query/SQLTimeSeriesQuery.tsx:106-136 | the series are keyed by exactly the keys the rows produce, series i is labelled by the i-th distinct key in first-met order, and each holds exactly its key's points in row order |
| SqlTimeSeries.RowKeySeq | sql/src/queries/sql-time-series-query/SQLTimeSeriesQuery.tsx:118-119 | the keys of one row, one per value column, in column order |
| SqlTimeSeries.KeySeq | sql/src/queries/sql-time-series-query/SQLTimeSeriesQuery.tsx:106-119 | the keys the grouping loop meets, rows in order and value columns in order within a row |
| SqlTimeSeries.KeySeqKeys | sql/src/queries/sql-time-series-query/SQLTimeSeriesQuery.tsx:106-119 | a key is met exactly when some row and value column give rise to it |
| SqlTimeSeries.FirstSeenOrder | sql/src/queries/sql-time-series-query/SQLTimeSeriesQuery.tsx:121-128 | of two series, the earlier one's key is first met before the later one's |
| SqlTimeSeries.OrderNewKey | sql/src/queries/sql-time-series-query/SQLTimeSeriesQuery.tsx:121-128 | a key met for the first time is appended as the last series |
| SqlTimeSeries.OrderOldKey | sql/src/queries/sql-time-series-query/SQLTimeSeriesQuery.tsx:121-129 | a key met before adds no series |
| SqlTimeSeries.LabelsAfterPoint | sql/src/queries/sql-time-series-query/SQLTimeSeriesQuery.tsx:132-134 | pushing a point changes no series' labels |
| ClickHouseData.CeilThousandth | clickhouse/src/queries/click-house-time-series-query/get-click-house-data.ts:27 | the ceiling of a range divided by 1000: the least integer c with x <= 1000c |
| ClickHouseData.CalculateStep | clickhouse/src/queries/click-house-time-series-query/get-click-house-data.ts:21-30 | the step is at least 15000 ms, covers the range in at most 1000 steps, is at least a non-zero suggested step, and is one of those three candidates |
| ClickHouseData.BuildLabels | clickhouse/src/queries/click-house-time-series-query/get-click-house-data.ts:36-45 | the labels are exactly the row's columns other than `time` and `value`, each holding its value as text (null and undefined as the empty string), with distinct names |
| ClickHouseData.BuildLabelsStep | clickhouse/src/queries/click-house-time-series-query/get-click-house-data.ts:39-43 | one more row entry keeps the label invariant: keys, values and distinctness |
| ClickHouseData.KeyParts | clickhouse/src/queries/click-house-time-series-query/get-click-house-data.ts:51 | one `k=v` part per label, in order |
| ClickHouseData.CanonicalKey | clickhouse/src/queries/click-house-time-series-query/get-click-house-data.ts:48-50 | the labels sorted by key; the corrected grouping key, exact by CanonicalKeyExact |
| ClickHouseData.LabelsToKey | clickhouse/src/queries/click-house-time-series-query/get-click-house-data.ts:47-53 | labelsToKey: the sorted `k=v` parts joined by commas; LabelsToKeyOrderFree and LabelsToKeyCollision state what it identifies |
| ClickHouseData.LabelsToKeyOrderFree | clickhouse/src/queries/click-house-time-series-query/get-click-house-data.ts:47-53 | two label sets with the same entries get the same grouping key, whatever their order |
| ClickHouseData.CanonicalKeyExact | clickhouse/src/queries/click-house-time-series-query/get-click-house-data.ts:47-53 | the corrected key (the sorted entries themselves) is equal exactly when the label sets hold the same entries |
| ClickHouseData.LabelsToKeyCollision | clickhouse/src/queries/click-house-time-series-query/get-click-house-data.ts:47-53 | two different label sets, a value holding `,b=`, get the same joined key, so the rows are merged into one series |
| ClickHouseData.NameParts | clickhouse/src/queries/click-house-time-series-query/get-click-house-data.ts:60 | one `k="v"` part per label, in order |
| ClickHouseData.LabelsToName | clickhouse/src/queries/click-house-time-series-query/get-click-house-data.ts:55-61 | `series` for no labels, the single value for one label, otherwise the `k="v"` parts joined by `, ` |
| ClickHouseData.RowTimestamp | clickhouse/src/queries/click-house-time-series-query/get-click-house-data.ts:77-84 | a number above 1e12 is taken as milliseconds, any other number as seconds times 1000, anything else is parsed as a date |
| ClickHouseData.RowValue | clickhouse/src/queries/click-house-time-series-query/get-click-house-data.ts:86-88 | a number is kept, a text is parsed with 0 when it does not parse, null and undefined give 0 |
| ClickHouseData.RowKey | clickhouse/src/queries/click-house-time-series-query/get-click-house-data.ts:73-75 | the grouping key of a row, labelsToKey of its labels, as the source uses it |
| ClickHouseData.BuildTimeSeries | clickhouse/src/queries/click-house-time-series-query/get-click-house-data.ts:63-110 | no data gives no series; otherwise one series per distinct labelsToKey key, series i carrying the labels of the i-th row whose key no earlier row has (so in first-seen order, with the labels of the first row of its key), named from those labels and holding its rows' points sorted by time; rows whose label sets collide under labelsToKey share a series |
| ClickHouseData.SortEach | clickhouse/src/queries/click-house-time-series-query/get-click-house-data.ts:98-107 | each series keeps its name and labels, and its points become a time-sorted permutation of the same length |
| ClickHouseData.SameLengthsSameTotal | clickhouse/src/queries/click-house-time-series-query/get-click-house-data.ts:98-107 | sorting keeps the total number of points |
| ClickHouseData.GroupRows | clickhouse/src/queries/click-house-time-series-query/get-click-house-data.ts:71-94 | the series are keyed by exactly the rows' labelsToKey keys, series i carries the labels of the i-th row whose key no earlier row has, each holds the points of its key's rows in row order, and the total number of points is the number of rows |
| ClickHouseData.FirstIndices | clickhouse/src/queries/click-house-time-series-query/get-click-house-data.ts:73-92 | the positions of the rows that open a new map entry, each within the rows and in increasing order |
| ClickHouseData.FirstIndicesAreFirst | clickhouse/src/queries/click-house-time-series-query/get-click-house-data.ts:73-92 | a position is listed exactly when no earlier row has the labelsToKey key of its row |
| ClickHouseData.KeysOf | clickhouse/src/queries/click-house-time-series-query/get-click-house-data.ts:73-75 | one labelsToKey key per row, in row order |
| ClickHouseData.FirstPositions | clickhouse/src/queries/click-house-time-series-query/get-click-house-data.ts:73-92 | the positions whose key no earlier position holds, within the sequence and increasing |
| ClickHouseData.FirstPositionsAreFirst | clickhouse/src/queries/click-house-time-series-query/get-click-house-data.ts:73-92 | a position is listed exactly when no earlier position holds its key |
| ClickHouseData.FirstIndicesSnoc | clickhouse/src/queries/click-house-time-series-query/get-click-house-data.ts:73-92 | one more row adds its own position exactly when no earlier row has its key, and otherwise adds nothing |
| ClickHouseData.OrderNew | clickhouse/src/queries/click-house-time-series-query/get-click-house-data.ts:90-93 | a row with an unseen key opens the next series, last, with its own labels |
| ClickHouseData.OrderExisting | clickhouse/src/queries/click-house-time-series-query/get-click-house-data.ts:90-93 | a row with a seen key opens no series and changes no series' labels |
| ClickHouseData.IndexOfKey | clickhouse/src/queries/click-house-time-series-query/get-click-house-data.ts:90-93 | the position of the series with the given key, or the count when there is none |
| ClickHouseData.SeriesKeys | clickhouse/src/queries/click-house-time-series-query/get-click-house-data.ts:90-93 | one key per series, series i's key at position i |
| ClickHouseData.FindKeyFrom | clickhouse/src/queries/click-house-time-series-query/get-click-house-data.ts:90-93 | the first position at or after `from` holding the key, or the count |
| ClickHouseData.AddRow | clickhouse/src/queries/click-house-time-series-query/get-click-house-data.ts:73-94 | one more row adds its point to the series of its labelsToKey key (a new one when unseen), keeping the grouping invariant |
| ClickHouseData.AddRowNew | clickhouse/src/queries/click-house-time-series-query/get-click-house-data.ts:90-93 | a row with an unseen key starts a new series holding its point |
| ClickHouseData.AddRowExisting | clickhouse/src/queries/click-house-time-series-query/get-click-house-data.ts:93 | a row with a known key appends its point to that series |
| ClickHouseData.KeyAlreadyThere | clickhouse/src/queries/click-house-time-series-query/get-click-house-data.ts:90 | adding a key already held leaves the keying unchanged |
| ClickHouseData.AllKeysAppend | clickhouse/src/queries/click-house-time-series-query/get-click-house-data.ts:73-75 | the keys of the rows with one more row are the old keys plus that row's key |
| ClickHouseData.WellFormedMore | clickhouse/src/queries/click-house-time-series-query/get-click-house-data.ts:73-94 | series well formed for some rows stay well formed with one more row |
| ClickHouseData.NewSeries | clickhouse/src/queries/click-house-time-series-query/get-click-house-data.ts:90-92 | a new empty series for an unseen key keeps the series well formed, keyed and holding exactly their rows' points |
| ClickHouseData.NewSeriesWellFormed | clickhouse/src/queries/click-house-time-series-query/get-click-house-data.ts:90-92 | a new series for an unseen key keeps the series well formed |
| ClickHouseData.DistinctAppend | clickhouse/src/queries/click-house-time-series-query/get-click-house-data.ts:90-92 | appending a series with a fresh key keeps the keys distinct |
| ClickHouseData.NewSeriesEmpty | clickhouse/src/queries/click-house-time-series-query/get-click-house-data.ts:90-92 | the new series starts with exactly the (empty) points of its key among the earlier rows |
| ClickHouseData.KeyedAppend | clickhouse/src/queries/click-house-time-series-query/get-click-house-data.ts:90-92 | appending a series adds its key to the keys |
| ClickHouseData.PointsOtherKey | clickhouse/src/queries/click-house-time-series-query/get-click-house-data.ts:73-94 | rows contribute no point to a key none of them has |
| ClickHouseData.AddPoint | clickhouse/src/queries/click-house-time-series-query/get-click-house-data.ts:93 | pushing the row's point onto its series keeps the invariant for the rows with that row added |
| ClickHouseData.SameShape | clickhouse/src/queries/click-house-time-series-query/get-click-house-data.ts:98-107 | series with the same names and labels stay well formed and keyed alike |
| ClickHouseData.AddPointValues | clickhouse/src/queries/click-house-time-series-query/get-click-house-data.ts:93 | after the push every series holds exactly the points of its key among the rows so far |
| ClickHouseData.TotalPointsUpdate | clickhouse/src/queries/click-house-time-series-query/get-click-house-data.ts:93 | pushing one point adds one to the total |
| ClickHouseData.SameLabelsOneSeries | clickhouse/src/queries/click-house-time-series-query/get-click-house-data.ts:70-94 | two rows with the same label entries, in any order, get the same labelsToKey key and end up in the same series |
| ClickHouseData.GetTimeSeriesData | clickhouse/src/queries/click-house-time-series-query/get-click-house-data.ts:112-143 | an empty query gives no series; otherwise the step is the calculated step, the executed query has built-in and then user variables replaced, and the series are those built from the response |
| ClickHouseLogData.FlattenObject | clickhouse/src/queries/click-house-log-query/get-click-house-log-data.ts:22-37 | the recursive flattening loop computes the flattening function |
| ClickHouseLogData.Flatten | clickhouse/src/queries/click-house-log-query/get-click-house-log-data.ts:22-37 | flattenObject as a function: nested objects under dotted keys; stated by FlattenLeaves, FlattenDistinct, FlattenKeysGrow and FlattenKeepsLeaves |
| ClickHouseLogData.AssignEntries | clickhouse/src/queries/click-house-log-query/get-click-house-log-data.ts:32 | every entry after an assignment is the assigned one or an earlier one |
| ClickHouseLogData.AssignLeaf | clickhouse/src/queries/click-house-log-query/get-click-house-log-data.ts:32 | assigning a non-object keeps the result free of objects |
| ClickHouseLogData.FlattenLeaves | clickhouse/src/queries/click-house-log-query/get-click-house-log-data.ts:22-37 | the flattened result holds no nested objects |
| ClickHouseLogData.FlattenDistinct | clickhouse/src/queries/click-house-log-query/get-click-house-log-data.ts:22-37 | the flattened result has distinct keys |
| ClickHouseLogData.FlattenKeysGrow | clickhouse/src/queries/click-house-log-query/get-click-house-log-data.ts:22-37 | flattening never drops a key already in the result |
| ClickHouseLogData.FlattenKeepsLeaves | clickhouse/src/queries/click-house-log-query/get-click-house-log-data.ts:27-33 | every leaf field appears under its dotted path, one and two levels deep |
| ClickHouseLogData.FlattenFlat | clickhouse/src/queries/click-house-log-query/get-click-house-log-data.ts:22-37 | an object without nested objects flattens to its own fields |
| ClickHouseLogData.Shown | clickhouse/src/queries/click-house-log-query/get-click-house-log-data.ts:56 | the empty string, null and undefined show as `--`, anything else as its text |
| ClickHouseLogData.LineEntries | clickhouse/src/queries/click-house-log-query/get-click-house-log-data.ts:54-55 | exactly the entries whose key is not `Timestamp` |
| ClickHouseLogData.LineParts | clickhouse/src/queries/click-house-log-query/get-click-house-log-data.ts:56 | one `<key> value` part per entry, in order |
| ClickHouseLogData.WithTimestamp | clickhouse/src/queries/click-house-log-query/get-click-house-log-data.ts:43-45 | `Timestamp` takes `log_time` when it is falsy and `log_time` is truthy; every other key is unchanged |
| ClickHouseLogData.ConvertEntry | clickhouse/src/queries/click-house-log-query/get-click-house-log-data.ts:40-64 | the conversion loop computes the entry function |
| ClickHouseLogData.EntryShape | clickhouse/src/queries/click-house-log-query/get-click-house-log-data.ts:40-64 | the entry's timestamp follows the fallback, its labels are the flattened fields sorted by key with no nested objects, and its line leaves out `Timestamp` |
| ClickHouseLogData.SortedLookup | clickhouse/src/queries/click-house-log-query/get-click-house-log-data.ts:47-52 | sorting entries with distinct keys does not change any lookup |
| ClickHouseLogData.UniqueLookup | clickhouse/src/queries/click-house-log-query/get-click-house-log-data.ts:47-52 | in sorted entries, each key looks up its own value |
| ClickHouseLogData.ConvertStreamsToLogs | clickhouse/src/queries/click-house-log-query/get-click-house-log-data.ts:39-70 | one entry per row, in order, and the total count is the number of rows |
| ClickHouseLogData.GetClickHouseLogData | clickhouse/src/queries/click-house-log-query/get-click-house-log-data.ts:72-104 | an empty query gives no entries; otherwise a 60-second step, built-in then user variables replaced, and the response converted entry by entry |
| SplunkClient.AsArray | splunk/src/queries/splunk-time-series-query/get-splunk-time-series-data.ts:24 | a single result becomes a one-element list; a list is kept |
| SplunkClient.FloorSeconds | splunk/src/queries/splunk-time-series-query/get-splunk-time-series-data.ts:71-72 | the whole seconds of a millisecond time, rounded down |
| SplunkClient.TimeBound | splunk/src/queries/splunk-time-series-query/get-splunk-time-series-data.ts:79-80 | a non-empty given bound wins; otherwise the range bound in whole seconds as text |
| SplunkClient.JoinPath | splunk/src/model/splunk-client.ts:74-81 | a relative datasource URL and a path are joined with exactly one slash between them |
| SplunkClient.JoinPathKeepsParts | splunk/src/model/splunk-client.ts:74-81 | the joined path starts with the datasource URL and ends with a slash and the path |
| SplunkClient.BuildUrl | splunk/src/model/splunk-client.ts:69-84 | an absolute http(s) datasource URL is the base of the path; any other is joined to the path and resolved against the page origin |
| SplunkClient.OutputMode | splunk/src/model/splunk-client.ts:96 | the given output mode when non-empty, otherwise a non-empty default (json) |
| SplunkClient.SearchForm | splunk/src/model/splunk-client.ts:92-96 | the form holds the search first, the earliest and latest times only when given, and the output mode last |
| SplunkClient.ResultsQuery | splunk/src/model/splunk-client.ts:150-153 | the output mode comes first; count and offset appear exactly when they are non-zero, with their values as text |
| SplunkClient.RequestOf | splunk/src/model/splunk-client.ts:86-275 | each call goes to its endpoint URL; job creation and export are POSTs with a form starting with the search; the rest are GETs with the output mode first; the index listing asks for json and count 0 |
| SplunkClient.NonBlank | splunk/src/model/splunk-client.ts:243 | exactly the lines that are not blank after trimming |
| SplunkClient.ExportResults | splunk/src/model/splunk-client.ts:241-243 | one parsed result per non-blank line of the trimmed response text, in order |
| SplunkClient.ParseAll | splunk/src/model/splunk-client.ts:243 | one parsed result per line, in order |
| SplunkClient.ExportOneResultPerLine | splunk/src/model/splunk-client.ts:241-243 | a response of non-blank lines joined by newlines gives one result per line |
| SplunkClient.NonBlankAll | splunk/src/model/splunk-client.ts:243 | filtering lines that are all non-blank keeps them all |
| SplunkClient.NonBlankSnoc | splunk/src/model/splunk-client.ts:243 | a non-blank last line is kept at the end |
| SplunkTimeSeries.NumberOrZero | splunk/src/queries/splunk-time-series-query/get-splunk-time-series-data.ts:37 | a number is kept; a text that parses gives its number; missing, null and unparsable values give 0 |
| SplunkTimeSeries.MetricKeys | splunk/src/queries/splunk-time-series-query/get-splunk-time-series-data.ts:31 | exactly the first result's fields other than `_time` |
| SplunkTimeSeries.ConvertResultsToTimeSeries | splunk/src/queries/splunk-time-series-query/get-splunk-time-series-data.ts:21-42 | one series per metric key of the first result, each with one point per result; stated by SeriesShape and SingleResult |
| SplunkTimeSeries.SeriesShape | splunk/src/queries/splunk-time-series-query/get-splunk-time-series-data.ts:21-42 | no results give no series; otherwise one series per metric field of the first result, labelled `metric`, with one point per result at its time in seconds and its value or 0 |
| SplunkTimeSeries.SingleResult | splunk/src/queries/splunk-time-series-query/get-splunk-time-series-data.ts:24 | a single result converts like a one-element list |
| SplunkTimeSeries.SearchCall | splunk/src/queries/splunk-time-series-query/get-splunk-time-series-data.ts:76-87 | export when an allowed endpoint mentions `/export`, otherwise a job, with the query as search and the given or computed time bounds |
| SplunkTimeSeries.GetSplunkTimeSeriesData | splunk/src/queries/splunk-time-series-query/get-splunk-time-series-data.ts:44-114 | no query gives no series and the 60 s step; otherwise the executed query has variables replaced, the step is the suggested step or 60 s, and the series are converted from the results |
| SplunkLogData.LabelsWithout | splunk/src/queries/splunk-log-query/get-splunk-log-data.ts:33 | exactly the result's fields outside the dropped names, each as text |
| SplunkLogData.EntryOf | splunk/src/queries/splunk-log-query/get-splunk-log-data.ts:29-37 | time in seconds, the raw line when truthy or else the whole result as JSON, and every field except `_time` and `_raw` as a label |
| SplunkLogData.ConvertResultsToLogs | splunk/src/queries/splunk-log-query/get-splunk-log-data.ts:22-43 | one entry per result, in order, and the count is the number of entries |
| SplunkLogData.IndexEntry | splunk/src/queries/splunk-log-query/get-splunk-log-data.ts:89-107 | an index becomes an entry stamped now, with its name as the line and every other field as a label |
| SplunkLogData.RouteOf | splunk/src/queries/splunk-log-query/get-splunk-log-data.ts:81-87 | export when an endpoint mentions `/export` or the datasource is direct; the index listing only when neither holds and an endpoint mentions `/indexes` |
| SplunkLogData.DirectNeverListsIndexes | splunk/src/queries/splunk-log-query/get-splunk-log-data.ts:81-87 | a direct datasource always exports, so the index branch's own direct test is never reached |
| SplunkLogData.GetSplunkLogData | splunk/src/queries/splunk-log-query/get-splunk-log-data.ts:45-151 | no query gives no entries; otherwise the executed query has variables replaced and the count equals the entries; on the index route the entries are the indexes' entries (none without a list); on the export route they are the converted results of the export search for the replaced query and the time bounds; on the job route the converted results of the job created for that query and those bounds |
| InfluxDBSpec.Validate | influxdb/sdk/go/datasource/datasource.go:74-96 | no error exactly for a valid spec; the first failing rule gives its message, in the order direct URL or proxy missing, both set, then an unknown version |
| InfluxDBSpec.VersionFieldsIndependent | influxdb/sdk/go/datasource/datasource.go:84-94 | a v1 spec's validity does not depend on the organization or bucket, and a v3 spec's does not depend on the database |
| InfluxDBSpec.SpecVar.constructor | influxdb/sdk/go/datasource/datasource.go:37-46 | a spec variable holds its initial spec |
| InfluxDBSpec.SpecVar.UnmarshalJSON | influxdb/sdk/go/datasource/datasource.go:48-59 | a decoding error is returned and the spec left unchanged; otherwise the validation result is returned and the spec replaced only when it is valid |
| InfluxDBSpec.DecodeTwice | influxdb/sdk/go/datasource/datasource.go:48-59 | decoding a valid spec and then an invalid one leaves the valid one in place |
| InfluxDBDatasource.ValidateReadOnlyQuery | influxdb/src/datasource/influxdb/InfluxDBDatasource.ts:24-47 | an error exactly when the trimmed query starts, in any case, with a write keyword followed by whitespace; the message names the first word in upper case |
| InfluxDBDatasource.ReadStatementsPass | influxdb/src/datasource/influxdb/InfluxDBDatasource.ts:24-47 | a query starting with S or s (SELECT, SHOW) is never refused |
| InfluxDBDatasource.WriteStatementRejected | influxdb/src/datasource/influxdb/InfluxDBDatasource.ts:25-39 | each of the eight write keywords, followed by whitespace, is refused |
| InfluxDBDatasource.CreateClient | influxdb/src/datasource/influxdb/InfluxDBDatasource.ts:80-171 | the "No URL specified" error exactly when the direct URL (when present) or else the proxy URL is empty; the direct URL wins when present; v1 clients offer the v1 query, v3 clients the SQL and Flux queries |
| InfluxDBDatasource.DirectUrlFirst | influxdb/src/datasource/influxdb/InfluxDBDatasource.ts:83 | a non-empty direct URL is always used, whatever the proxy URL |
| InfluxDBDatasource.EmptyDirectUrlFails | influxdb/src/datasource/influxdb/InfluxDBDatasource.ts:83-86 | an empty direct URL is not replaced by the proxy URL, so client creation fails |
| InfluxDBDatasource.QueryV1Request | influxdb/src/datasource/influxdb/InfluxDBDatasource.ts:97-105 | an error exactly when neither the spec nor the call gives a database; otherwise a GET of /query with the call's database (else the spec's) and the query |
| InfluxDBDatasource.QueryV3SQLRequest | influxdb/src/datasource/influxdb/InfluxDBDatasource.ts:115-138 | a write query is refused with the read-only message; any other is a POST of /api/v2/query with the query and the CSV dialect |
| InfluxDBDatasource.QueryV3FluxRequest | influxdb/src/datasource/influxdb/InfluxDBDatasource.ts:144-163 | without an organization the "Organization is required" error comes first; otherwise write queries are refused and others are a POST with the organization and query |
| PrometheusVariables.Present | prometheus/src/plugins/prometheus-variables.tsx:199-208 | exactly the values the samples' metrics hold for the label |
| PrometheusVariables.Capture | prometheus/src/plugins/prometheus-variables.tsx:199-208 | the loop collects the label's present values, first occurrences only, in sample order |
| PrometheusVariables.CaptureShape | prometheus/src/plugins/prometheus-variables.tsx:199-208 | the captured values have no duplicates, are exactly the values present, and keep the order of first appearance |
| PrometheusVariables.CapturingMatrix | prometheus/src/plugins/prometheus-variables.tsx:199-208 | a matrix result captures the deduplicated values of its samples' label |
| PrometheusVariables.CapturingVector | prometheus/src/plugins/prometheus-variables.tsx:210-219 | a vector result captures the deduplicated values of its samples' label |
| PrometheusVariables.StringArrayToVariableOptions | prometheus/src/plugins/prometheus-variables.tsx:224-230 | no values give no options; otherwise one option per value, in order, labelled with its value |
| PrometheusVariables.HandleDatasourceChange | prometheus/src/plugins/prometheus-variables.tsx:47-59 | a non-Prometheus selector is an error; the default selector is stored as absent; any other is stored as given |
| PrometheusEditor.DatasourceEditor.constructor | prometheus/src/plugins/PrometheusDatasourceEditor.tsx:29-32 | the editor starts with the spec's query parameters |
| PrometheusEditor.DatasourceEditor.HandleQueryParamChange | prometheus/src/plugins/PrometheusDatasourceEditor.tsx:34-54 | an index outside the entries changes nothing; a key edit renames the entry keeping its value; a value edit sets that entry's value; keys stay distinct |
| PrometheusEditor.DatasourceEditor.AddQueryParam | prometheus/src/plugins/PrometheusDatasourceEditor.tsx:56-64 | adds (or resets) the entry with empty key and empty value |
| PrometheusEditor.DatasourceEditor.RemoveQueryParam | prometheus/src/plugins/PrometheusDatasourceEditor.tsx:66-74 | removes the key, and the parameters become absent when none remain |
| PrometheusEditor.EntryLookup | prometheus/src/plugins/PrometheusDatasourceEditor.tsx:34-40 | with distinct keys, the entry at an index is what its key looks up |
| PrometheusEditor.RenameMovesValue | prometheus/src/plugins/PrometheusDatasourceEditor.tsx:42-45 | a rename moves the old key's value to the new key, drops the old key and leaves every other key alone |
| PrometheusEditor.EditKeepsKeys | prometheus/src/plugins/PrometheusDatasourceEditor.tsx:46-47 | a value edit keeps the keys, sets that key and leaves every other key alone |
| PrometheusEditor.RemoveLastParam | prometheus/src/plugins/PrometheusDatasourceEditor.tsx:66-74 | for any record, removing a key leaves no entries, so that the parameters become absent, exactly when that key was the record's only key |
| TablePanel.Configured | table/src/TablePanel.tsx:22-66 | the column keeps its name as accessor and its header or else its name; a plugin column embeds the panel and always has a description; any other formats its cell and has a description exactly when one is set |
| TablePanel.ColumnConfigOf | table/src/TablePanel.tsx:46-74 | the first setting with the column's name decides: hidden gives no column, otherwise its configuration; with no setting the default column |
| TablePanel.GenerateColumnConfig | table/src/TablePanel.tsx:51-74 | the search loop returns the column configuration defined above |
| TablePanel.RangeMatchesAsWritten | table/src/TablePanel.tsx:82-100 | the range test as written: both bounds around the number, or at least the minimum, or at most the maximum |
| TablePanel.InRange | table/src/TablePanel.tsx:82-100 | the corrected range test: within every given bound, with at least one given |
| TablePanel.Matches | table/src/TablePanel.tsx:76-125 | whether one rule applies to a value: value by `String`, range as written on a number, regex when set, and the five misc cases |
| TablePanel.RangeAsWrittenMatchesOutside | table/src/TablePanel.tsx:82-100 | whenever min <= max every number matches the range rule as written, so 25 matches [10, 20] though it lies outside it |
| TablePanel.InRangeIntended | table/src/TablePanel.tsx:82-100 | the corrected range rule with both bounds matches exactly the numbers between them, and with one bound or none behaves as written |
| TablePanel.CellConfigOf | table/src/TablePanel.tsx:76-128 | no configuration exactly when no rule matches (a range rule by the three checks as written, so a bound given matches on its own); otherwise the first matching rule's text and colours |
| TablePanel.GenerateCellConfig | table/src/TablePanel.tsx:76-128 | the search loop returns the cell configuration defined above |
| TablePanel.ValueRuleMatchesByString | table/src/TablePanel.tsx:78 | a value rule matches exactly when its value equals the cell rendered as a string |
| TablePanel.AnyPlugin | table/src/TablePanel.tsx:133 | true exactly when some column renders a plugin |
| TablePanel.GetTablePanelQueryOptions | table/src/TablePanel.tsx:130-135 | range mode exactly when some column setting renders a plugin, instant otherwise |
| TablePanel.RowKeys | table/src/TablePanel.tsx:186 | the keys of a row, in order |
| TablePanel.AllKeys | table/src/TablePanel.tsx:182-194 | exactly the keys present in some row |
| TablePanel.CollectKeys | table/src/TablePanel.tsx:182-194 | the loop collects every row's keys, first occurrences only, in order |
| TablePanel.PushNewKeys | table/src/TablePanel.tsx:186-190 | one row's keys extend the collected keys as if they had been seen with the earlier rows |
| TablePanel.AllKeysStep | table/src/TablePanel.tsx:185-191 | the keys of one more row follow the earlier rows' keys |
| TablePanel.KeysShape | table/src/TablePanel.tsx:182-194 | the collected keys have no duplicates, are exactly the keys of the rows and keep the order of first appearance |
| TablePanel.Filter | table/src/TablePanel.tsx:201-202 | exactly the kept elements |
| TablePanel.Names | table/src/TablePanel.tsx:201 | the names of the column settings, in order |
| TablePanel.CustomizedColumns | table/src/TablePanel.tsx:200-201 | exactly the keys that some column setting names |
| TablePanel.DefaultColumns | table/src/TablePanel.tsx:202 | exactly the keys that are not customized |
| TablePanel.Configs | table/src/TablePanel.tsx:204-215 | exactly the configurations of the named columns that are not hidden, each for its own name |
| TablePanel.BuildColumns | table/src/TablePanel.tsx:196-218 | the customized columns' configurations come first, then the other keys' |
| TablePanel.PushConfigs | table/src/TablePanel.tsx:204-215 | the loop appends the configurations of the given names |
| TablePanel.ConfigsStep | table/src/TablePanel.tsx:205-208 | one more name adds its configuration unless it is hidden |
| TablePanel.ColumnsCoverKeys | table/src/TablePanel.tsx:196-218 | every column belongs to a key, every key that is not hidden has its column, and each column is its key's configuration |
| TablePanel.DefaultSorting | table/src/TablePanel.tsx:258-269 | no settings give no sorting; otherwise entry k is the entry of the k-th setting with a sort, in settings order, so there are as many entries as such settings, each descending exactly for desc; an entry occurs exactly when some setting with a sort gives it |
| TablePanel.SortPositions | table/src/TablePanel.tsx:260-261 | the positions the filter keeps: in increasing order, each a setting with a sort, and every setting with a sort among them |
| TablePanel.FollowsSnoc | table/src/TablePanel.tsx:260-267 | filtering then mapping one more setting adds its entry at the end exactly when it has a sort |
| TablePanel.SortingMembers | table/src/TablePanel.tsx:260-267 | entries following the kept positions are at most as many as the settings and are exactly the entries of the settings with a sort |
| TablePanel.Spread | table/src/TablePanel.tsx:241-244 | the row's own values win over the base's |
| TablePanel.KeysObject | table/src/TablePanel.tsx:233-239 | every key maps to undefined and nothing else is present |
| TablePanel.ExtendRowValue | table/src/TablePanel.tsx:231-244 | the extended row holds the row's value, else undefined for a known key, else nothing |
| TablePanel.CellKeyInjective | table/src/TablePanel.tsx:249 | the cell name `index_key` determines the row index and the key |
| TablePanel.BuildCellConfigs | table/src/TablePanel.tsx:221-256 | the loops build exactly the cell configuration map defined by rows and rules |
| TablePanel.CellConfigs | table/src/TablePanel.tsx:221-256 | the empty map without rules, else the configurations of all rows; its meaning is CellConfigsMeaning |
| TablePanel.AddRowConfigs | table/src/TablePanel.tsx:246-251 | one row's loop adds exactly that row's cell configurations |
| TablePanel.AllRowConfigsStep | table/src/TablePanel.tsx:230-253 | the map for one more row is the earlier map with that row's configurations added |
| TablePanel.Put | table/src/TablePanel.tsx:248-250 | a configuration is stored under its name when there is one; everything else stays |
| TablePanel.AddedSnoc | table/src/TablePanel.tsx:246-251 | one more cell keeps the "added exactly the matching cells" relation |
| TablePanel.RowConfigsMeaning | table/src/TablePanel.tsx:246-251 | a row adds exactly its cells that match a rule, each with the first matching rule |
| TablePanel.LookupSnoc | table/src/TablePanel.tsx:246 | looking up in an entry list with one more entry |
| TablePanel.AllAddedStep | table/src/TablePanel.tsx:230-253 | the relation for all rows so far extends by one row |
| TablePanel.AllRowConfigsMeaning | table/src/TablePanel.tsx:221-256 | after all rows the map holds exactly each row's matching cells |
| TablePanel.CellAt | table/src/TablePanel.tsx:221-256 | cell (i, k) is in the map exactly when its extended value matches a rule, and then with that rule's configuration |
| TablePanel.CellConfigsMeaning | table/src/TablePanel.tsx:221-256 | no rules give the empty map; otherwise cell `i_k` is present exactly when the row's value, or undefined for a missing known key, matches a rule (range rules as written), and holds the first matching rule's configuration |
| ConditionalPanel.ConditionalEditor.constructor | table/src/components/ConditionalPanel.tsx:169-172 | the editor starts with the given rules and no changes sent |
| ConditionalPanel.ConditionalEditor.WithoutRules | table/src/components/ConditionalPanel.tsx:170 | rules default to none |
| ConditionalPanel.ConditionalEditor.Copy | table/src/components/ConditionalPanel.tsx:175 | a fresh array holding the same rules |
| ConditionalPanel.ConditionalEditor.HandleCellChange | table/src/components/ConditionalPanel.tsx:174-178 | the rules are not changed in place; the change sent is the rules with the one at the index replaced |
| ConditionalPanel.ConditionalEditor.HandleCellDelete | table/src/components/ConditionalPanel.tsx:180-184 | the rules are not changed in place; the change sent is the rules without that one, or nothing when none remain |
| ConditionalPanel.ConditionalEditor.HandleAddCell | table/src/components/ConditionalPanel.tsx:186-190 | the change sent is the rules with a new empty value rule appended |
| ConditionalPanel.ChangeKeepsOthers | table/src/components/ConditionalPanel.tsx:174-178 | a change replaces exactly the rule at the index |
| ConditionalPanel.DeleteRemovesOne | table/src/components/ConditionalPanel.tsx:180-184 | a delete removes exactly one rule and shifts the later ones down; deleting the only rule leaves none |
| ConditionalPanel.DeleteUndoesAdd | table/src/components/ConditionalPanel.tsx:180-190 | deleting the rule just added restores the rules |
| TimeSeriesQuerySettings.EditAt | timeserieschart/src/TimeSeriesChartQuerySettings.tsx:65-233 | an edit changes only the entry at the index, when there is one, and keeps the length |
| TimeSeriesQuerySettings.AvailableQueryIndexes | timeserieschart/src/TimeSeriesChartQuerySettings.tsx:237-243 | exactly the query indexes below the count that no settings entry books, in increasing order |
| TimeSeriesQuerySettings.FirstAvailableQueryIndex | timeserieschart/src/TimeSeriesChartQuerySettings.tsx:245-247 | -1 exactly when every index is booked; otherwise the least index not booked |
| TimeSeriesQuerySettings.QuerySettingsEditor.constructor | timeserieschart/src/TimeSeriesChartQuerySettings.tsx:45-47 | the editor starts with the panel's settings list and the default area opacity |
| TimeSeriesQuerySettings.QuerySettingsEditor.Edit | timeserieschart/src/TimeSeriesChartQuerySettings.tsx:49-55 | an absent list stays absent; otherwise the list is edited at the index |
| TimeSeriesQuerySettings.QuerySettingsEditor.HandleQueryIndexChange | timeserieschart/src/TimeSeriesChartQuerySettings.tsx:65-77 | the entry at the index gets the new query index |
| TimeSeriesQuerySettings.QuerySettingsEditor.HandleColorModeChange | timeserieschart/src/TimeSeriesChartQuerySettings.tsx:78-97 | the entry at the index gets the colour mode change below |
| TimeSeriesQuerySettings.QuerySettingsEditor.HandleColorValueChange | timeserieschart/src/TimeSeriesChartQuerySettings.tsx:99-113 | the entry at the index gets the new colour value |
| TimeSeriesQuerySettings.QuerySettingsEditor.HandleLineStyleChange | timeserieschart/src/TimeSeriesChartQuerySettings.tsx:114-128 | the entry at the index gets the new line style |
| TimeSeriesQuerySettings.QuerySettingsEditor.HandleAreaOpacityChange | timeserieschart/src/TimeSeriesChartQuerySettings.tsx:129-144 | the entry at the index gets the slider's (first) value as area opacity |
| TimeSeriesQuerySettings.QuerySettingsEditor.DeleteQuerySettingsInput | timeserieschart/src/TimeSeriesChartQuerySettings.tsx:145-153 | an absent list stays absent; otherwise the entry at the index is removed, and an index past the end changes nothing |
| TimeSeriesQuerySettings.QuerySettingsEditor.AddColorOverride | timeserieschart/src/TimeSeriesChartQuerySettings.tsx:155-167 | the entry at the index gets the fixed-single mode and the default colour #555 |
| TimeSeriesQuerySettings.QuerySettingsEditor.RemoveColorOverride | timeserieschart/src/TimeSeriesChartQuerySettings.tsx:169-181 | the entry at the index loses its colour mode and value |
| TimeSeriesQuerySettings.QuerySettingsEditor.AddLineStyle | timeserieschart/src/TimeSeriesChartQuerySettings.tsx:183-194 | the entry at the index gets the solid line style |
| TimeSeriesQuerySettings.QuerySettingsEditor.RemoveLineStyle | timeserieschart/src/TimeSeriesChartQuerySettings.tsx:196-207 | the entry at the index loses its line style |
| TimeSeriesQuerySettings.QuerySettingsEditor.AddAreaOpacity | timeserieschart/src/TimeSeriesChartQuerySettings.tsx:209-220 | the entry at the index gets the default area opacity |
| TimeSeriesQuerySettings.QuerySettingsEditor.RemoveAreaOpacity | timeserieschart/src/TimeSeriesChartQuerySettings.tsx:222-233 | the entry at the index loses its area opacity |
| TimeSeriesQuerySettings.QuerySettingsEditor.AddQuerySettingsInput | timeserieschart/src/TimeSeriesChartQuerySettings.tsx:249-264 | a new entry for the first available query index is appended, starting the list when there was none |
| TimeSeriesQuerySettings.ColorModeChanged | timeserieschart/src/TimeSeriesChartQuerySettings.tsx:85-91 | an empty mode clears both mode and value; any other sets the mode and keeps the value; the other fields are kept |
| TimeSeriesQuerySettings.RemoveColorOverrideClears | timeserieschart/src/TimeSeriesChartQuerySettings.tsx:155-181 | removing an override clears mode and value, and removing one just added restores an entry that had none |
| TimeSeriesQuerySettings.AllBookedGivesNoIndex | timeserieschart/src/TimeSeriesChartQuerySettings.tsx:239-247 | when every index is booked there is no available index |
| TimeSeriesQuerySettings.AddedEntryIsBooked | timeserieschart/src/TimeSeriesChartQuerySettings.tsx:245-264 | the index given to a new entry was free before and is booked after |
| HistogramBuckets.PowGrows | histogramchart/src/components/exponential-utils.ts:61-63 | each power of a base of at least 2 at least doubles the previous one |
| HistogramBuckets.MinLower | histogramchart/src/components/exponential-utils.ts:48 | the least lower bound among the linear buckets |
| HistogramBuckets.MaxUpper | histogramchart/src/components/exponential-utils.ts:49 | the greatest upper bound among the linear buckets |
| HistogramBuckets.RemainingShrinks | histogramchart/src/components/exponential-utils.ts:60-70 | while a bucket is still generated, the distance left to the maximum decreases, so generation ends |
| HistogramBuckets.PushKeepsGenerated | histogramchart/src/components/exponential-utils.ts:65-66 | pushing the next power bucket keeps the generated buckets contiguous |
| HistogramBuckets.GenerateExponentialBucketsWithOffset | histogramchart/src/components/exponential-utils.ts:39-73 | empty buckets are the "Buckets can not be empty" error exactly; otherwise the buckets generated from the floored least lower bound to the ceiled greatest upper bound |
| HistogramBuckets.GenerateBuckets | histogramchart/src/components/exponential-utils.ts:46-72 | the first bucket is [min, min+1), each next one is [min+base^n, min+base^(n+1)), and generation stops at the first lower bound not below the maximum |
| HistogramBuckets.GenerationStep | histogramchart/src/components/exponential-utils.ts:60-70 | one loop turn either pushes the next bucket or stops exactly when its lower bound reaches the maximum |
| HistogramBuckets.GeneratedWellFormed | histogramchart/src/components/exponential-utils.ts:46-72 | generated buckets are contiguous and increasing, start at the minimum, reach the maximum, and start with count 0 |
| HistogramBuckets.WellFormedMonotone | histogramchart/src/components/exponential-utils.ts:61-66 | in contiguous buckets every later bucket starts at or after each earlier one ends |
| HistogramBuckets.Bounds | histogramchart/src/components/exponential-utils.ts:112-148 | one pair of bounds per bucket |
| HistogramBuckets.Fractions | histogramchart/src/components/exponential-utils.ts:92-100 | one fraction per engaged bucket |
| HistogramBuckets.AddShare | histogramchart/src/components/exponential-utils.ts:102-105 | adding a share to one bucket keeps all bounds |
| HistogramBuckets.AddShareTotal | histogramchart/src/components/exponential-utils.ts:102-105 | adding a share raises the total count by that share |
| HistogramBuckets.AddShares | histogramchart/src/components/exponential-utils.ts:102-105 | adding every share keeps all bounds |
| HistogramBuckets.AddSharesStep | histogramchart/src/components/exponential-utils.ts:102-105 | the shares are added one engaged bucket after another |
| HistogramBuckets.RedistributeLinearBuckets | histogramchart/src/components/exponential-utils.ts:82-106 | the buckets in place become the redistribution of the linear bucket's count over the engaged buckets by their overlap fractions |
| HistogramBuckets.AddSharesInPlace | histogramchart/src/components/exponential-utils.ts:102-105 | the in-place loop adds each fraction times the count to its engaged bucket |
| HistogramBuckets.SharesSumScaled | histogramchart/src/components/exponential-utils.ts:102-105 | the shares added sum to the sum of the fractions times the count |
| HistogramBuckets.AddSharesTotal | histogramchart/src/components/exponential-utils.ts:102-105 | adding the shares raises the total by their sum |
| HistogramBuckets.SumPrefixStep | histogramchart/src/components/exponential-utils.ts:92-105 | summing one more prefix element |
| HistogramBuckets.Span | histogramchart/src/components/exponential-utils.ts:130-143 | the consecutive indexes from the starting one |
| HistogramBuckets.OverlapSumPrefix | histogramchart/src/components/exponential-utils.ts:92-100 | the overlaps of the first engaged buckets add up to the distance from the linear lower bound to the last one's upper bound |
| HistogramBuckets.FractionsSumToOne | histogramchart/src/components/exponential-utils.ts:92-100 | over contiguous buckets covering the linear bucket, the fractions sum to exactly 1 |
| HistogramBuckets.OverlapSumWhole | histogramchart/src/components/exponential-utils.ts:92-100 | the overlaps of all engaged buckets add up to the linear bucket's width |
| HistogramBuckets.FractionsPrefixSum | histogramchart/src/components/exponential-utils.ts:92-100 | the first fractions sum to their overlaps divided by the width |
| HistogramBuckets.EquivalentIndex | histogramchart/src/components/exponential-utils.ts:116-124 | the equivalent bucket is an index of the buckets |
| HistogramBuckets.EngagedEnd | histogramchart/src/components/exponential-utils.ts:130-143 | the first bucket from the cursor whose upper bound reaches the linear upper bound, or none when the cursor would run past the end |
| HistogramBuckets.ConvertOne | histogramchart/src/components/exponential-utils.ts:115-146 | placing one linear bucket never changes any bucket's bounds |
| HistogramBuckets.ConvertAll | histogramchart/src/components/exponential-utils.ts:112-148 | placing every linear bucket never changes any bucket's bounds |
| HistogramBuckets.FindEquivalentBucketIndex | histogramchart/src/components/exponential-utils.ts:116-124 | the search loop returns the last bucket whose lower bound is at most the linear lower bound, stopping at the first that is above it |
| HistogramBuckets.CollectEngagedIndexes | histogramchart/src/components/exponential-utils.ts:130-143 | no list exactly when the cursor would run past the last bucket; otherwise the consecutive indexes from the equivalent bucket to the first whose upper bound reaches the linear upper bound |
| HistogramBuckets.PlaceLinearBucket | histogramchart/src/components/exponential-utils.ts:115-146 | placing one linear bucket fails exactly as the placement function does, and otherwise leaves the buckets as it computes, with the same bounds |
| HistogramBuckets.ConvertLinearToExponentialBuckets | histogramchart/src/components/exponential-utils.ts:112-148 | empty data is the empty-buckets error; otherwise it fails exactly as the conversion function does and else leaves the converted buckets, always with the same bounds |
| HistogramBuckets.ConvertOneTotal | histogramchart/src/components/exponential-utils.ts:115-146 | for contiguous buckets covering it, placing one linear bucket succeeds and raises the total count by exactly its count |
| HistogramBuckets.EquivalentBucketContains | histogramchart/src/components/exponential-utils.ts:116-124 | in contiguous buckets covering it, the equivalent bucket contains the linear lower bound |
| HistogramBuckets.SpreadTotal | histogramchart/src/components/exponential-utils.ts:129-146 | a linear bucket spanning several buckets finds its engaged end and the redistribution adds exactly its count |
| HistogramBuckets.RedistributedTotal | histogramchart/src/components/exponential-utils.ts:82-106 | with fractions summing to 1 the redistribution adds exactly the count |
| HistogramBuckets.ConvertAllTotal | histogramchart/src/components/exponential-utils.ts:112-148 | for covering contiguous buckets, conversion succeeds and the total count grows by exactly the linear buckets' total |
| HistogramBuckets.GenerateThenConvert | histogramchart/src/components/exponential-utils.ts:39-148 | converting well-formed linear data into the buckets generated for it succeeds, keeps the bounds, and the total count equals the linear total |
| HistogramBuckets.SameBoundsCover | histogramchart/src/components/exponential-utils.ts:112-148 | buckets with the same bounds stay contiguous and covering |
| HistogramBuckets.ZeroTotal | histogramchart/src/components/exponential-utils.ts:52-66 | buckets that all count 0 total 0 |
| HistogramThresholds.PaletteAt | histogramchart/src/utils/thresholds.ts:27 | the palette colour at the index when there is one |
| HistogramThresholds.NoMatchingColor | histogramchart/src/utils/thresholds.ts:24-31 | no colour matches exactly when the value is below every step |
| HistogramThresholds.LastMatchingStep | histogramchart/src/utils/thresholds.ts:24-33 | the last matching colour is that of the last step the value reaches |
| HistogramThresholds.GetColorFromThresholds | histogramchart/src/utils/thresholds.ts:17-36 | with no steps, or a value below every step, the thresholds' default colour or else the default; otherwise the colour of the last step the value reaches |
| HistogramThresholds.StepColorFromPalette | histogramchart/src/utils/thresholds.ts:27 | a step without its own colour takes the palette colour at its index, or the thresholds' default, or the default |
| StatusHistory.TimestampsShape | statushistorychart/src/utils/data-transform.ts:39-44 | the timestamps are empty exactly when start is after end; otherwise they are start, start+step, ..., each at most end, and the next step would pass end |
| StatusHistory.GenerateCompleteTimestamps | statushistorychart/src/utils/data-transform.ts:35-45 | no time scale gives no timestamps; for a scale on which the source's loop ends (a positive step, or start past end) the loop produces the timestamps from start to end by step |
| StatusHistory.Insert | statushistorychart/src/utils/data-transform.ts:70-80 | inserting adds exactly one element |
| StatusHistory.Sort | statushistorychart/src/utils/data-transform.ts:70-80 | sorting is a permutation |
| StatusHistory.SortByEqualKeepsOrder | statushistorychart/src/utils/data-transform.ts:70-80 | a comparator that calls everything equal leaves the order unchanged (the sort is stable) |
| StatusHistory.AsWrittenKeepsOrder | statushistorychart/src/utils/data-transform.ts:71-79 | the comparator as written compares each name with itself, so sorting by it never changes the series order |
| StatusHistory.CompareTransitive | statushistorychart/src/utils/data-transform.ts:72-78 | ordinal string comparison is transitive |
| StatusHistory.CompareFlip | statushistorychart/src/utils/data-transform.ts:72-78 | ordinal string comparison is antisymmetric |
| StatusHistory.AsWrittenComparator | statushistorychart/src/utils/data-transform.ts:71-79 | the comparator as written, comparing each name with itself |
| StatusHistory.NameComparator | statushistorychart/src/utils/data-transform.ts:70-80 | the comparator as intended, by name ascending or descending |
| StatusHistory.NameTransitive | statushistorychart/src/utils/data-transform.ts:70-80 | the intended name comparator, ascending or descending, is transitive |
| StatusHistory.NameFlip | statushistorychart/src/utils/data-transform.ts:70-80 | the intended name comparator is antisymmetric |
| StatusHistory.InsertMembers | statushistorychart/src/utils/data-transform.ts:70-80 | the inserted list holds exactly the old elements and the new one |
| StatusHistory.InsertSorted | statushistorychart/src/utils/data-transform.ts:70-80 | inserting into a list sorted by name keeps it sorted |
| StatusHistory.SnocSorted | statushistorychart/src/utils/data-transform.ts:70-80 | appending an element no smaller than every other keeps a list sorted |
| StatusHistory.SortSorted | statushistorychart/src/utils/data-transform.ts:70-80 | sorting with the intended comparator gives a sorted list |
| StatusHistory.SortByName | statushistorychart/src/utils/data-transform.ts:70-80 | the intended sort is a permutation ordered by name, ascending or descending as configured |
| StatusHistory.XIndex | statushistorychart/src/utils/data-transform.ts:95 | the first position of the time on the x axis, or -1 exactly when it is absent |
| StatusHistory.SeriesItemsMeaning | statushistorychart/src/utils/data-transform.ts:94-108 | one series gives an item for exactly each sample with a value at a time on the x axis |
| StatusHistory.SeriesItemsHas | statushistorychart/src/utils/data-transform.ts:94-108 | the same, for one given item |
| StatusHistory.ItemsMeaning | statushistorychart/src/utils/data-transform.ts:90-109 | the items are exactly those of the samples of every series, each with its x position, the series position as y, its value and its label |
| StatusHistory.ItemsStep | statushistorychart/src/utils/data-transform.ts:90-109 | the items of one more series follow those of the earlier ones |
| StatusHistory.ItemValues | statushistorychart/src/utils/data-transform.ts:102 | the values of the items, in order |
| StatusHistory.Colors | statushistorychart/src/utils/data-transform.ts:111-127 | one colour per distinct value, in the same order |
| StatusHistory.LegendItems | statushistorychart/src/utils/data-transform.ts:129-144 | one legend item per distinct value: its colour or the fallback, its (mapped) label, and the id `index-value` |
| StatusHistory.Names | statushistorychart/src/utils/data-transform.ts:91-92 | the display names of the series, in order (empty when missing) |
| StatusHistory.GatherSeries | statushistorychart/src/utils/data-transform.ts:63-68 | the loop concatenates every result's series in order |
| StatusHistory.OrderedSeries | statushistorychart/src/utils/data-transform.ts:63-80 | the series in chart order are the query results' series in query order, whatever the sorting, since the comparator as written calls every pair equal |
| StatusHistory.ModelOf | statushistorychart/src/utils/data-transform.ts:47-155 | the specified data model; its shape is stated by ModelShape and EmptyResultsEmptyModel |
| StatusHistory.PushSeriesItems | statushistorychart/src/utils/data-transform.ts:94-108 | one series' loop appends exactly its items and keeps the legend set equal to the distinct item values |
| StatusHistory.PushStep | statushistorychart/src/utils/data-transform.ts:95-107 | one sample is pushed, with its value added to the legend set, exactly when it has a value at a time on the x axis |
| StatusHistory.LegendSnoc | statushistorychart/src/utils/data-transform.ts:102 | adding an item adds its value to the legend set when it is new |
| StatusHistory.WalkSeries | statushistorychart/src/utils/data-transform.ts:83-109 | the loop gives the series names as y axis, all the items, and the distinct item values as legend set |
| StatusHistory.WalkStep | statushistorychart/src/utils/data-transform.ts:90-109 | one series keeps the walk invariant: names, items and legend set |
| StatusHistory.NamesSnoc | statushistorychart/src/utils/data-transform.ts:91-92 | the names of one more series follow the earlier names |
| StatusHistory.UseStatusHistoryDataModel | statushistorychart/src/utils/data-transform.ts:47-155 | the data model computed step by step equals the one specified from the results, colours and options, the series passed through the sort as written and so kept in query order |
| StatusHistory.EmptyResultsEmptyModel | statushistorychart/src/utils/data-transform.ts:53-61 | no query results give an entirely empty model |
| StatusHistory.LegendValues | statushistorychart/src/utils/data-transform.ts:102-111 | the distinct values have no duplicates, are exactly the item values, and keep their first-seen order |
| StatusHistory.ModelShape | statushistorychart/src/utils/data-transform.ts:47-155 | the series are all the results' series in query order whatever the sorting, one y category each with its name; the items are exactly the valued samples on the x axis; one colour and one legend item per distinct value, in first-seen order |
| TimeSeriesTable.LeftDelim | timeseriestable/src/components/DataTable.tsx:95 | `[` exactly for boundary rules 1 and 3, otherwise `(` |
| TimeSeriesTable.RightDelim | timeseriestable/src/components/DataTable.tsx:96 | `]` exactly for boundary rules 0 and 3, otherwise `)` |
| TimeSeriesTable.BucketRangeString | timeseriestable/src/components/DataTable.tsx:98-105 | the range string is the two boundaries plus six characters |
| TimeSeriesTable.RangeStringReadsBack | timeseriestable/src/components/DataTable.tsx:98-105 | the range string reads back: its delimiters tell the boundary rule and it holds the left boundary, ` -> ` and the right boundary |
| TimeSeriesTable.DelimitersTellRulesApart | timeseriestable/src/components/DataTable.tsx:95-96 | two boundary rules in 0..3 with the same delimiters are the same rule |
| TimeSeriesTable.HistogramRows | timeseriestable/src/components/DataTable.tsx:107-129 | one row per bucket with its range string and count |
| TimeSeriesTable.ValueLines | timeseriestable/src/components/DataTable.tsx:60-69 | one line per value; a timestamp is shown exactly when the series has more than one value |
| TimeSeriesTable.RowOf | timeseriestable/src/components/DataTable.tsx:59-88 | a series' row: its histograms when present, otherwise its value lines; stated by BuildRows and TimestampsIffSeveralValues |
| TimeSeriesTable.BuildRows | timeseriestable/src/components/DataTable.tsx:57-93 | one row per series with its name; names are formatted exactly when there are fewer than 1000 series; histograms are shown exactly when present |
| TimeSeriesTable.DataTable | timeseriestable/src/components/DataTable.tsx:35-55 | the warning shows exactly when there are at least 1000 series, and there is one row per series |
| TimeSeriesTable.WarningIffUnformatted | timeseriestable/src/components/DataTable.tsx:45-58 | the warning shows exactly when names are not formatted |
| TimeSeriesTable.TimestampsIffSeveralValues | timeseriestable/src/components/DataTable.tsx:60-65 | a values cell shows timestamps exactly when the series has several values |
| StatChart.ValueOrLabel | statchart/src/StatChartPanel.tsx:192-205 | a non-empty label wins; otherwise a number with non-empty mappings goes through the mapping, and everything else is shown raw |
| StatChart.RawValueReadsBack | statchart/src/StatChartPanel.tsx:192-205 | without label and mappings the shown value is the calculated value itself: a number, null and undefined each read back |
| StatChart.DisplayContent | statchart/src/StatChartPanel.tsx:145-190 | what each text mode shows: value, name, value and name, nothing; an unknown mode behaves like auto, which names the series only when there are several |
| StatChart.NameShownIff | statchart/src/StatChartPanel.tsx:162-189 | a name is shown exactly in value_and_name mode or in auto mode with several series, and it is always the series name |
| StatChart.ValueShownUnlessNone | statchart/src/StatChartPanel.tsx:162-189 | outside none mode the value slot holds the formatted value, or the series name in name mode |
| StatChart.LabelValue | statchart/src/StatChartPanel.tsx:207-218 | none without labels or metric label; otherwise the value of the first label whose key matches the pattern, and none exactly when no key matches |
| StatChart.AllSeriesAppend | statchart/src/StatChartPanel.tsx:104-105 | the series of two lists of query results are the series of each, concatenated |
| StatChart.TotalSeriesCount | statchart/src/StatChartPanel.tsx:100-102 | the summed series count equals the number of series walked |
| StatChart.Stats | statchart/src/StatChartPanel.tsx:104-139 | one stat per series, the i-th built from the i-th series |
| StatChart.StatOf | statchart/src/StatChartPanel.tsx:106-137 | one series' stat: calculated value, display content, formatted name, values and colour; stated by Stats, DisplayContent and AutoNamesIffMultiSeries |
| StatChart.StatChartDataOf | statchart/src/StatChartPanel.tsx:90-143 | one stat per series of every query, in order, with multi-series meaning more than one series in total |
| StatChart.AutoNamesIffMultiSeries | statchart/src/StatChartPanel.tsx:100-122 | in auto mode a stat carries a name exactly when the panel has more than one series in total, and the name is the formatted name or else the raw name |
| StatChart.PushStats | statchart/src/StatChartPanel.tsx:105-139 | the inner loop appends the stats of one query's series to what was built so far |
| StatChart.StatsAppend | statchart/src/StatChartPanel.tsx:104-139 | the stats of two runs of series are the stats of each, concatenated |
| StatChart.UseStatChartData | statchart/src/StatChartPanel.tsx:95-142 | the counting loop and the nested walk produce exactly the panel's stats |
| StatChart.ChartWidth | statchart/src/StatChartPanel.tsx:42-47 | no width without stats; one stat takes the whole width; several never go under the minimum width |
| StatChart.ChartsFillWidth | statchart/src/StatChartPanel.tsx:42-47 | unless clamped to the minimum, the charts and the spacing between them fill the content width exactly |
| StatChart.StatChartPanel | statchart/src/StatChartPanel.tsx:31-88 | nothing without content dimensions; otherwise every stat with the shared chart width, flagged multi-series exactly when there are several |
| GaugeChart.SmallerDimension | gaugechart/src/GaugeChartPanel.tsx:41 | the smaller of width and height: no larger than either, and equal to one of them (an infinite width is never the smaller) |
| GaugeChart.ProgressWidth | gaugechart/src/GaugeChartPanel.tsx:37-44 | the progress width always lies in [10, 48] and equals a tenth of the smaller dimension, rounded, whenever that lies in range |
| GaugeChart.TitleFontSize | gaugechart/src/GaugeChartPanel.tsx:83-93 | the title size always lies in [10, 16] and equals 6% of the smaller dimension, rounded, whenever that lies in range |
| GaugeChart.ResponsiveSizesMonotone | gaugechart/src/GaugeChartPanel.tsx:37-44 | a panel no smaller in either dimension never gets a thinner progress bar or a smaller title |
| GaugeChart.ValueFontSize | gaugechart/src/GaugeChartPanel.tsx:52-77 | the clamp's minimum is 8 and its maximum at least 24 (24 or the smaller of 15% of the width and 20% of the height); the ideal size times the character count gives back the width, and is infinite for zero characters |
| GaugeChart.FirstQuerySeries | gaugechart/src/GaugeChartPanel.tsx:117-119 | any series found are the series of the first query's data |
| GaugeChart.ChooseCalculation | gaugechart/src/GaugeChartPanel.tsx:121-125 | a known calculation name selects that calculation; an unknown one falls back to the default |
| GaugeChart.Gauges | gaugechart/src/GaugeChartPanel.tsx:127-132 | one gauge per series, the i-th built from the i-th series |
| GaugeChart.GaugeData | gaugechart/src/GaugeChartPanel.tsx:107-134 | one gauge per series of the first query: its value is the chosen calculation of the series' values; its label is the formatted name (or empty) unless the legend is switched off |
| GaugeChart.ThresholdMax | gaugechart/src/GaugeChartPanel.tsx:138-142 | the configured maximum when set, otherwise the percent default for the percent unit and the decimal default for any other |
| GaugeChart.ChartWidth | gaugechart/src/GaugeChartPanel.tsx:145-150 | a single gauge gets the width less the padding; several never go under the minimum width; zero gauges divide by zero |
| GaugeChart.ChartsFillWidth | gaugechart/src/GaugeChartPanel.tsx:145-150 | unless raised to the minimum, the gauges with their padding fill the panel width exactly |
| GaugeChart.GaugeChartPanel | gaugechart/src/GaugeChartPanel.tsx:136-225 | without data one empty gauge fills the panel; otherwise one gauge per series with the shared chart width; every gauge's progress width and title size stay in range and carry the threshold maximum |
| GaugeChart.EmptyAxisLineFromHeight | gaugechart/src/GaugeChartPanel.tsx:146-163 | without data the axis line width is computed from the infinite chart width, so only the height decides it |
| PieColors.HexValue | piechart/src/colors.ts:29-31 | a hexadecimal digit's value is below 16; any other character has none |
| PieColors.HexCharValue | piechart/src/colors.ts:18-20 | the digit toString(16) writes for a value below 16 reads back as that value |
| PieColors.HexString | piechart/src/colors.ts:19 | toString(16) of a natural number is at least one hexadecimal digit |
| PieColors.HexStringValue | piechart/src/colors.ts:19 | reading back the digits toString(16) writes gives the number |
| PieColors.ToHex | piechart/src/colors.ts:18-21 | a single hexadecimal digit is padded with a leading zero; anything longer, a sign or NaN is left as it is |
| PieColors.ToHexTwoDigits | piechart/src/colors.ts:18-21 | every channel value from 0 to 255 becomes exactly two hexadecimal digits that read back as the value |
| PieColors.HexDigitsEnd | piechart/src/colors.ts:29-31 | parseInt's digit run: every character up to the end is a hexadecimal digit and the next one is not |
| PieColors.ParseIntHexNaN | piechart/src/colors.ts:29-31 | parseInt(…, 16) gives NaN exactly when no hexadecimal digit follows the white space, the sign and the 0x prefix |
| PieColors.ParseTwoHexDigits | piechart/src/colors.ts:29-31 | two hexadecimal digits parse as their value |
| PieColors.RemoveFirstHash | piechart/src/colors.ts:27 | a leading # is dropped, and a string without # is left unchanged |
| PieColors.GradientColor | piechart/src/colors.ts:38-47 | the color with each channel scaled; stated by GradientColorChannelwise and GradientRoundTrip |
| PieColors.GradientColorChannelwise | piechart/src/colors.ts:38-47 | the gradient is the three channels hexToRgb reads, each scaled, rounded and written by toHex after a # |
| PieColors.HexToRgbChannels | piechart/src/colors.ts:26-33 | hexToRgb of a #rrggbb color gives its three channels, each within [0, 255] |
| PieColors.ScaleBounds | piechart/src/colors.ts:42-44 | a channel scaled by a factor within [0, 1] and rounded stays within [0, 255] |
| PieColors.ComposeColor | piechart/src/colors.ts:46 | three pairs of hexadecimal digits after a # make a #rrggbb color with those channels |
| PieColors.GradientOfChannels | piechart/src/colors.ts:38-47 | the gradient of a #rrggbb color is written from its channels, each scaled |
| PieColors.GradientRoundTrip | piechart/src/colors.ts:38-47 | with a factor within [0, 1] the gradient of a #rrggbb color is a #rrggbb color whose channels are the base channels scaled and rounded |
| PieColors.CycleFactorAsWritten | piechart/src/colors.ts:105-109 | the factor as written is at most 1 and negative from the sixth cycle on |
| PieColors.CycleFactor | piechart/src/colors.ts:105-109 | the corrected factor stays within [0, 1] and agrees with the factor as written through the fifth cycle |
| PieColors.PaletteCycle | piechart/src/colors.ts:96-106 | the position within the palette is below its length; the cycle is zero exactly while the index is within the palette, and then the position is the index |
| PieColors.PaletteCycleIsDivMod | piechart/src/colors.ts:97-106 | the cycle and the position are Math.floor(i / n) and i % n |
| PieColors.RedChannels | piechart/src/colors.ts:26-33 | #ff0000 is a color with channels 255, 0 and 0 |
| PieColors.MinusFiftyOneHex | piechart/src/colors.ts:18-21 | toHex writes -51 as -33 |
| PieColors.ToHexNegative | piechart/src/colors.ts:18-21 | toHex writes a negative number with a leading minus sign |
| PieColors.GradientNegativeRed | piechart/src/colors.ts:38-47 | a gradient whose red channel is scaled below zero has a minus sign after the # and is not a color |
| PieColors.GetColorAsWrittenNegativeChannel | piechart/src/colors.ts:90-111 | past the palette, once the factor as written scales the cycled color's red channel below zero, getColor as written returns a string that is not a color |
| PieColors.SixthCycleScale | piechart/src/colors.ts:109 | in the sixth cycle the factor as written is -0.2, which scales a full channel to -51 |
| PieColors.NegativeChannelExample | piechart/src/colors.ts:90-111 | with two colors, the first of full red, series 12 gets a string with a minus sign after the # instead of a color |
| PieColors.SeriesTwelveOfTwo | piechart/src/colors.ts:97-106 | series 12 of a two-color palette is in cycle 6, at the first color |
| PieColors.GreenWellFormed | piechart/src/colors.ts:90-111 | #00ff00 is a color, so the example palette is well formed |
| PieColors.GetColor | piechart/src/colors.ts:90-111 | the fallback #555555 for an empty palette, and the palette color itself while the index is within the palette |
| PieColors.GetColorAgreesAsWritten | piechart/src/colors.ts:90-111 | through the fifth cycle the corrected getColor is the function as written |
| PieColors.GetColorWellFormed | piechart/src/colors.ts:90-111 | a palette of colors gives a color for every index; past the palette its channels are the cycled color's channels scaled by the cycle's factor |
| PieColors.GetColorAsWritten | piechart/src/colors.ts:90-111 | getColor as written: the fallback #555555 for an empty palette, the palette color itself within the palette, and past it the cycled color scaled by min(1 - 0.2 * cycle, 1), negative from the sixth cycle on |
| PieColors.SeriesGradientFactor | piechart/src/colors.ts:71 | the single-color factor (total - i) / total lies in (0, 1] |
| PieColors.SeriesColorAt | piechart/src/colors.ts:57-84 | series i's color: the base color or its gradient with at most one palette color, else getColor as written; stated by SingleColorAt, SeriesColorsStartWithPalette and SeriesColorsWellFormed |
| PieColors.SeriesColorsAt | piechart/src/colors.ts:57-84 | each series gets the color of its index |
| PieColors.SingleColorAt | piechart/src/colors.ts:64-74 | with at most one palette color, series 0 gets the base color (or the fallback) and every later series a gradient of it |
| PieColors.SingleColorSeries | piechart/src/colors.ts:64-75 | the single-color loop produces the color of every series in order |
| PieColors.PaletteSeries | piechart/src/colors.ts:78-83 | the palette loop produces getColor as written of every series index in order |
| PieColors.GetSeriesColor | piechart/src/colors.ts:57-84 | no colors for zero or fewer series; otherwise exactly one color per series, series i getting the color of its index: a gradient of the single color, or getColor as written |
| PieColors.SeriesColorsStartWithPalette | piechart/src/colors.ts:78-83 | with several palette colors the first series take the palette's colors in order |
| PieColors.SeriesColorsWellFormed | piechart/src/colors.ts:57-84 | a palette of colors gives a color to every series of a single-color palette and, with a larger palette, to every series through the fifth cycle; with a single palette color, series i has its channels scaled by (total - i) / total |
| PieColors.SeriesTwelveNotAColor | piechart/src/colors.ts:57-111 | with a two-color palette whose first color has a full red channel, series 12 of the chart gets a string starting `#-`, not a color |
| PyroscopeFilterItem.GetSeparator | pyroscope/src/components/FilterItem.tsx:32-40 | none for the empty filter; otherwise the first of !=, =~, !~, = that the filter contains, each chosen exactly when it occurs and no earlier one does, and none when it contains none |
| PyroscopeFilterItem.IndexOf | pyroscope/src/components/FilterItem.tsx:44 | none exactly when the text does not contain the separator; otherwise a position where the separator occurs |
| PyroscopeFilterItem.SplitFirst | pyroscope/src/components/FilterItem.tsx:44 | split(sep)[0]: the text before the first occurrence of the separator, or all of it when there is none |
| PyroscopeFilterItem.Unquote | pyroscope/src/components/FilterItem.tsx:53 | slice(1, -1): the text without its first and last characters, empty when shorter than two |
| PyroscopeFilterItem.ParseFilterAsWritten | pyroscope/src/components/FilterItem.tsx:42-54 | as written, without a separator the parts are empty with the = operator; with one, the operator is the separator |
| PyroscopeFilterItem.ParseFilter | pyroscope/src/components/FilterItem.tsx:42-54 | without a separator the parts are empty with the = operator; otherwise the name before the first separator, the separator, and the unquoted rest after it |
| PyroscopeFilterItem.Compose | pyroscope/src/components/FilterItem.tsx:58 | the composed filter is the label name, then the operator, then the label value in double quotes |
| PyroscopeFilterItem.IncludesIff | pyroscope/src/components/FilterItem.tsx:34-37 | includes holds exactly when the text occurs at some position |
| PyroscopeFilterItem.OccursOnlyInside | pyroscope/src/components/FilterItem.tsx:34-37 | operator text cannot occur across or inside a name or value free of operator characters |
| PyroscopeFilterItem.OperatorsInOperators | pyroscope/src/components/FilterItem.tsx:34-37 | which of the four operators each operator contains, so that = is found inside != and =~ |
| PyroscopeFilterItem.SeparatorOfCompose | pyroscope/src/components/FilterItem.tsx:32-40 | a filter composed from a name and value free of operator characters is read back with its own operator |
| PyroscopeFilterItem.IndexAfterPlain | pyroscope/src/components/FilterItem.tsx:44 | an operator that follows a name free of operator characters is first found right after the name |
| PyroscopeFilterItem.ParseCompose | pyroscope/src/components/FilterItem.tsx:42-58 | parsing a composed filter whose operator is the one getSeparator finds gives back the name, the operator and the value |
| PyroscopeFilterItem.ParsePlainCompose | pyroscope/src/components/FilterItem.tsx:42-58 | parsing a filter composed from a name and value free of operator characters gives back all three parts |
| PyroscopeFilterItem.PlainExcludesOperator | pyroscope/src/components/FilterItem.tsx:34-37 | text free of operator characters includes none of the four operators |
| PyroscopeFilterItem.ParseAsWrittenPlainCompose | pyroscope/src/components/FilterItem.tsx:42-58 | as written, parsing a filter composed from a name and value free of operator characters gives back all three parts, so the editor started from an emitted filter shows what composed it |
| PyroscopeFilterItem.EqualsOnlySeparator | pyroscope/src/components/FilterItem.tsx:32-40 | a filter whose only operator characters are two = signs has = as its separator |
| PyroscopeFilterItem.AsWrittenCutsValue | pyroscope/src/components/FilterItem.tsx:51-54 | for a value that itself contains =, split(sep)[1] as written keeps only the part before that = (with the opening quote cut), while the intended parse gives the whole value back |
| PyroscopeFilterItem.SplitSecondOfTwoEquals | pyroscope/src/components/FilterItem.tsx:53 | split at =, the text a=b=c has b as its second part |
| PyroscopeFilterItem.FilterItem.constructor | pyroscope/src/components/FilterItem.tsx:29-54 | a new editor starts from the parts the filter text parses into as written (split(sep)[1] unquoted for the value), with nothing emitted and no delete requested |
| PyroscopeFilterItem.FilterItem.SetValue | pyroscope/src/components/FilterItem.tsx:29-30 | a new filter text from the parent replaces the value; the parts being edited keep their state |
| PyroscopeFilterItem.FilterItem.HandleFilterItemValueChange | pyroscope/src/components/FilterItem.tsx:57-63 | the composed filter is passed to onChange exactly when there is a listener, every part is set and the filter differs from the current one |
| PyroscopeFilterItem.FilterItem.HandleLabelNameChange | pyroscope/src/components/FilterItem.tsx:65-71 | the name is replaced and the value cleared; the empty filter is emitted only when a value was set and there is a listener |
| PyroscopeFilterItem.FilterItem.HandleOperatorChange | pyroscope/src/components/FilterItem.tsx:73-76 | the operator is replaced and the filter with the new operator is emitted under the same test |
| PyroscopeFilterItem.FilterItem.HandleLabelValueChange | pyroscope/src/components/FilterItem.tsx:78-81 | the value is replaced and the filter with the new value is emitted under the same test; an emitted filter with a name and value free of operator characters parses back to the editor's parts, both as written (the parse a new editor starts from) and as intended |
| PyroscopeFilterItem.FilterItem.HandleDeleteClick | pyroscope/src/components/FilterItem.tsx:83-85 | one delete request goes to the parent exactly when it listens |
| PyroscopeFilters.KeepOneFilter | pyroscope/src/components/Filters.tsx:33-37 | an empty list is replaced by exactly one empty filter identified by the current time; any other list is left alone |
| PyroscopeFilters.AddFilterItem | pyroscope/src/components/Filters.tsx:39-42 | the list keeps every filter and gains one empty filter at the end, identified by the current time |
| PyroscopeFilters.UpdateFilter | pyroscope/src/components/Filters.tsx:44-47 | the filter at the index gets the new text and keeps its identifier; every other filter is unchanged and the length is kept |
| PyroscopeFilters.DeleteFilter | pyroscope/src/components/Filters.tsx:49-52 | the list without the filter at the index, in order; an index outside the list deletes nothing |
| PyroscopeFilters.DeleteAfterAdd | pyroscope/src/components/Filters.tsx:39-52 | deleting the filter just added gives the list back |
| PyroscopeFilters.DeleteAfterUpdate | pyroscope/src/components/Filters.tsx:44-52 | updating a filter and then deleting it is the same as deleting it |
| PyroscopeFilters.UpdateTwice | pyroscope/src/components/Filters.tsx:44-47 | the last text written to a filter is the one it keeps |
| PyroscopeFilters.DeleteRemovesOne | pyroscope/src/components/Filters.tsx:49-52 | deleting removes exactly that one filter and keeps all the others |
| CuePublish.RandomBelow | scripts/cue-publish/cue-publish.go:67 | rand.Int64N(n) gives a value below n |
| CuePublish.ModuleName | scripts/cue-publish/cue-publish.go:44 | the module name starts with github.com/perses/plugins and has room for exactly the plugin name, the version and the two separators |
| CuePublish.SleepBefore | scripts/cue-publish/cue-publish.go:67-80 | the first sleep lasts 1 to 9 seconds; the sleep before attempt n lasts at least n seconds |
| CuePublish.Failed | scripts/cue-publish/cue-publish.go:68-81 | each failed attempt leaves three steps: the sleep, the attempt and the retry warning |
| CuePublish.LastAttempt | scripts/cue-publish/cue-publish.go:65-81 | the last attempt is at most ten; every attempt before it failed; it succeeded or it was the tenth |
| CuePublish.LastAttemptIs | scripts/cue-publish/cue-publish.go:68-77 | the attempt that succeeds after every earlier one failed, or the tenth when all earlier ones failed, is the last attempt made |
| CuePublish.Publish | scripts/cue-publish/cue-publish.go:30-83 | the script's steps are the run's: a missing token or tag is fatal, otherwise the retries with the version prefixed by v |
| CuePublish.PublishWithRetries | scripts/cue-publish/cue-publish.go:62-82 | the retry loop takes exactly the steps of the failed attempts, the sleep before the last one, the last attempt and then success or the fatal error |
| CuePublish.Through | scripts/cue-publish/cue-publish.go:68 | the attempt numbers first to last, in order |
| CuePublish.AttemptedConcat | scripts/cue-publish/cue-publish.go:68-81 | the attempts recorded in two runs of steps are those of each, concatenated |
| CuePublish.SleepsConcat | scripts/cue-publish/cue-publish.go:68-81 | the sleeps recorded in two runs of steps are those of each, concatenated |
| CuePublish.AttemptOnce | scripts/cue-publish/cue-publish.go:70-71 | one attempt records one sleep and one attempt |
| CuePublish.FailedAttempts | scripts/cue-publish/cue-publish.go:68-81 | the failed attempts before attempt n are attempts 1 to n - 1 |
| CuePublish.FailedSleeps | scripts/cue-publish/cue-publish.go:67-80 | the failed attempts before attempt n slept n - 1 times, the i-th sleep being the one computed for attempt i |
| CuePublish.FailedSleptFirst | scripts/cue-publish/cue-publish.go:69-71 | in the failed attempts every attempt comes right after a sleep |
| CuePublish.RunRetries | scripts/cue-publish/cue-publish.go:42-82 | with both flags given the run is the retries for version v plus the tag's version |
| CuePublish.MissingFlagIsFatal | scripts/cue-publish/cue-publish.go:35-40 | a missing token or tag ends the run fatally at once, with no publish attempt |
| CuePublish.AttemptsMade | scripts/cue-publish/cue-publish.go:68-82 | with both flags given, attempts 1 to the last attempt are made in order, and the run ends with the module published when that attempt succeeded and fatally otherwise |
| CuePublish.StopsAtFirstSuccess | scripts/cue-publish/cue-publish.go:71-74 | the first attempt that succeeds is the last made, and the module is published |
| CuePublish.AllAttemptsFail | scripts/cue-publish/cue-publish.go:75-77 | when every attempt fails, exactly ten attempts are made and the run ends with the max-retries error |
| CuePublish.SleptBeforeEveryAttempt | scripts/cue-publish/cue-publish.go:69-71 | every publish attempt, the first included, comes right after a sleep |
| CuePublish.RunSleeps | scripts/cue-publish/cue-publish.go:67-80 | one sleep is taken per attempt made, the i-th being the one computed for attempt i + 1 |
| CuePublish.SleepsGrow | scripts/cue-publish/cue-publish.go:66-80 | the first sleep lasts 1 to 9 seconds and each later one is 1 to 19 seconds longer than the one before |
| KeyOrder.BelowIrreflexive | clickhouse/src/queries/click-house-time-series-query/get-click-house-data.ts:50 | no key sorts before itself |
| KeyOrder.BelowAsymmetric | clickhouse/src/queries/click-house-time-series-query/get-click-house-data.ts:50 | two keys never sort before each other |
| KeyOrder.BelowTotal | clickhouse/src/queries/click-house-time-series-query/get-click-house-data.ts:50 | of two different keys one sorts before the other |
| KeyOrder.BelowTransitive | clickhouse/src/queries/click-house-time-series-query/get-click-house-data.ts:50 | the key order is transitive |
| KeyOrder.InsertEntry | clickhouse/src/queries/click-house-time-series-query/get-click-house-data.ts:50 | inserting an entry adds exactly that entry |
| KeyOrder.SortEntries | clickhouse/src/queries/click-house-log-query/get-click-house-log-data.ts:49 | sorting the entries by key is a permutation of them |
| KeyOrder.ConsSorted | clickhouse/src/queries/click-house-time-series-query/get-click-house-data.ts:50 | an entry whose key sorts before every key of a sorted list keeps it sorted in front |
| KeyOrder.InsertEntrySorted | clickhouse/src/queries/click-house-time-series-query/get-click-house-data.ts:50 | inserting an entry with a new key into a sorted list keeps it strictly sorted |
| KeyOrder.SortEntriesSorted | clickhouse/src/queries/click-house-time-series-query/get-click-house-data.ts:50 | the entries of a record, whose keys are distinct, come out strictly sorted by key |
| KeyOrder.SortedUnique | clickhouse/src/queries/click-house-time-series-query/get-click-house-data.ts:50 | two strictly sorted lists with the same entries are equal |
| KeyOrder.SameSortedSameEntries | clickhouse/src/queries/click-house-time-series-query/get-click-house-data.ts:48-53 | entries that sort to the same list are the same entries |
| KeyOrder.SameEntriesSameSorted | clickhouse/src/queries/click-house-time-series-query/get-click-house-data.ts:48-53 | records with the same entries, in any order, sort to the same list |
| KeyOrder.SortEntriesOrderFree | clickhouse/src/queries/click-house-time-series-query/get-click-house-data.ts:48-53 | two records sort to the same list exactly when they hold the same entries |
| TimeSort.InsertionPoint | sql/src/queries/sql-time-series-query/SQLTimeSeriesQuery.tsx:141 | the position in a time-sorted list after every sample not later than the time and before every later one |
| TimeSort.SortByTime | clickhouse/src/queries/click-house-time-series-query/get-click-house-data.ts:100 | sorting samples by timestamp gives a time-sorted permutation of them |

## Left out

- Rendering: every React component, editor, hook and style is left out; only the values the handlers compute and hand on are modelled. `useMemo` and asynchronous React state updates are modelled as plain calls.
- Floating point: JavaScript numbers are exact reals, so rounding error, `NaN` (except where the source tests for it) and infinities from overflow are not modelled. `Math.round` rounds halves up (`Base.Round`).
- Integer widths: Go's `time.Duration` and JavaScript's safe-integer limits are not reached by any modelled value, so no wrap-around is modelled.
- Foreign helpers are parameters: regular expressions (`createRegexFromString`, the table's column-name and cell-value patterns), `Date` parsing and `toISOString`, `Number()`, `JSON.stringify`, `String(value)`, `formatValue`, `applyValueMapping`, `calculateValue`, the theme palette, `getStatChartColor`, `getColorsForValues` and `getCommonTimeScaleForQueries`. Properties hold whatever they return.
- Base.LowerChar: `toLowerCase` is modelled on ASCII letters only; the Unicode case mapping of other letters is not modelled. This reaches `BarchartCsv.SanitizeFilename`, `LogsTableUtils.GetSeverity` and `SqlTimeSeries.DetectTimeColumn`.
- Base.UpperChar: `toUpperCase` is modelled on ASCII letters only, as above; it reaches the read-only check of `InfluxDBDatasource`, where a non-ASCII letter that JavaScript upper-cases to an ASCII one (`ſ` to `S`) is not modelled.
- PersesCore: a record is a list of entries in insertion order. `Object.keys`, `Object.entries` and `for...in` list integer-like keys (such as `"10"`) first, in ascending numeric order, and the model does not reorder them. For records with such keys this changes which label `StatChart.LabelValue` finds first, the column order of `TablePanel.RowKeys` and `TablePanel.CollectKeys`, the order of `ClickHouseLogData.FlattenObject`, `ClickHouseData.BuildLabels` and `ClickHouseData.LabelsToKey`, the entry order of `PrometheusEditor.DatasourceEditor`, and every other listing of a record's entries (series names built from labels, copied labels).
- `localeCompare` is modelled as ordinal character order (`KeyOrder.Below`); locale collation is not modelled, only that the order is a strict total order.
- `Array.prototype.sort` is modelled by what it guarantees: `TimeSort.SortByTime` and `KeyOrder.SortEntries` give a sorted permutation, and `StatusHistory.Sort` is a stable insertion sort; the engine's own algorithm is not modelled.
- Logging (`console.warn`, `console.error`, `logrus`) is not modelled, except that the publish script's fatal errors are steps of its run.
- I/O: the backend clients (Loki, ClickHouse, Splunk, InfluxDB, the SQL proxy, Pyroscope autocomplete) are parameters that return an answer; requests are modelled as descriptions (`SplunkClient`), and fetching, headers and credentials are not modelled.
- SplunkTimeSeries.GetSplunkTimeSeriesData: polling a search job until it is done (the loop with 500 ms sleeps) is left out; the job's results are read as if it were done. The same holds for SplunkLogData.GetSplunkLogData.
- SqlTimeSeries: the request to the SQL proxy and its errors (sql/src/queries/sql-time-series-query/SQLTimeSeriesQuery.tsx beyond the step choice, the macro substitution and the row transform) are not modelled.
- ClickHouse: `replaceClickHouseBuiltinVariables` is a parameter; replace-click-house-builtin-variables.ts is not part of this model.
- InfluxDBDatasource: the v1 and v3 requests and their answers are not modelled, only which query functions a client gets and what each sends.
- InfluxDBSpec.SpecVar.UnmarshalYAML is not modelled separately: it repeats UnmarshalJSON with a YAML decoder.
- The Go SDK builders and their options, the other scripts, and the lint script's concurrency are not part of this model.
- LokiComplete: `identifyCompletion`, which reads the Lezer syntax tree, is not modelled; the completion situation it finds is an input.
- PrometheusVariables: `isPrometheusDatasourceSelector` and `isDefaultPromSelector` are parameters.
- TablePanel: `useTransformData`, pagination, the embedded panel plugins and the raw-data transform are not modelled.
- HistogramBuckets: the exceptions the source throws (no buckets, and reading a bucket past the end of the exponential buckets) are `Err` results carrying their messages. A zero-width linear bucket spread over several buckets, which makes the source write `NaN` counts, is reported as an `Err` too, because `NaN` is not modelled.
- StatusHistory.GenerateCompleteTimestamps: a time scale with a step of zero or less and a start not after its end makes the source's `for` loop run forever; such scales are excluded by `StatusHistory.LoopEnds` in this method, `Timestamps`, `ModelOf` and `UseStatusHistoryDataModel`. Every scale on which the loop ends is modelled, including a non-positive step with the start past the end, which gives no timestamps.
- StatChart.UseStatChartData: `convertSparkline` and the color are not modelled beyond being computed from the series.
- GaugeChart.GaugeChartPanel: the `clamp(...)` string is modelled as its three numbers (`FontClamp`).
- PieColors.GetSeriesColor: the final shuffle (`sort(() => Math.random() - 0.5)`) is left out; the colors are stated before it, so the contract gives each series' color by position, which after the shuffle holds only as a multiset. An undefined palette is modelled as an empty one.
- CuePublish.Publish: `tag.Parse` is not part of this model (the plugin name and version are inputs); changing directory, `cue login` and `cue mod tidy` are modelled as succeeding, and the publish outcomes and random draws are inputs listed in order. Sleeps are recorded as steps, not performed.
- CuePublish.RandomBelow: `rand.Int64N(n)` is modelled as a raw draw taken modulo n, which covers every value below n but not the distribution. The comment above the first sleep says 1 to 10 seconds; the code draws 1 to 9 seconds, and the model follows the code.
- PyroscopeFilterItem.FilterItem: the autocomplete client and the child components are not modelled.
- PyroscopeFilters: `Date.now()` is the parameter `now`.
- BarchartCsv: creating the `Blob` and the download link is not modelled; the CSV text is.
- SplunkLogData: field values that the source only casts are rendered as strings.

## Findings

Each operation of the model follows the code as written, so the behaviour in the second column is what the model's main operations do. The corrected member beside it states the evidently intended behaviour and proves it.

| source | as written | input that shows it | evidently intended | confidence | as-written member | corrected member |
|---|---|---|---|---|---|---|
| clickhouse/src/queries/click-house-time-series-query/get-click-house-data.ts:48-53 | labelsToKey joins `key=value` pairs with `,` without escaping, so different label sets can share a key and their rows are merged into one series | labels `a` = `1,b=2`, `b` = `3` and labels `a` = `1`, `b` = `2,b=3` both give the key `a=1,b=2,b=3` | the key identifies the label set: equal keys exactly for equal label sets | not executed | ClickHouseData.LabelsToKey, ClickHouseData.LabelsToKeyCollision | ClickHouseData.CanonicalKey, ClickHouseData.CanonicalKeyExact |
| table/src/TablePanel.tsx:84-99 | with both bounds set, the Range rule still matches any value at least the minimum or at most the maximum, so with min <= max it matches every number | min 10, max 20, value 25 matches | with both bounds the value must lie within [min, max] | not executed | TablePanel.RangeMatchesAsWritten, TablePanel.RangeAsWrittenMatchesOutside | TablePanel.InRange, TablePanel.InRangeIntended |
| statushistorychart/src/utils/data-transform.ts:71-80 | the comparator compares a series name with itself (`nameA.localeCompare(nameA)`), so it always returns 0 and sorting keeps the query order | two series named `b` and `a` with sorting `asc` stay in the order `b`, `a` | series sorted by name, ascending or descending | not executed | StatusHistory.AsWrittenComparator, StatusHistory.AsWrittenKeepsOrder | StatusHistory.NameComparator, StatusHistory.SortByName |
| piechart/src/colors.ts:106-110 | the gradient factor `min(1 - cycle * 0.2, 1)` turns negative from the sixth cycle, and a negative channel is written with a minus sign | palette `#ff0000`, `#00ff00`, series index 12: cycle 6, factor -0.2, red 255 becomes -51, written `-33`, so the color starts `#-33` | a factor held within [0, 1], so every series gets a `#rrggbb` color | not executed | PieColors.GetColorAsWritten, PieColors.NegativeChannelExample | PieColors.GetColor, PieColors.GetColorWellFormed |
| pyroscope/src/components/FilterItem.tsx:51-54 | the initial label value is `value.split(sep)[1]`, which stops at the next occurrence of the operator inside the quoted value | filter `job="a=b"`: the second part is `"a`, which `slice(1, -1)` empties, so the label value starts empty instead of `a=b` | the label value is everything after the first operator, without its quotes, so a composed filter parses back | not executed | PyroscopeFilterItem.ParseFilterAsWritten, PyroscopeFilterItem.AsWrittenCutsValue | PyroscopeFilterItem.ParseFilter, PyroscopeFilterItem.ParseCompose |
