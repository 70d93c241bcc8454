# haproxy-statsd: the report-to-gauges core in Dafny

`haproxy-statsd` polls the CSV statistics page of HAProxy 1.5 and forwards
selected counters to statsd as gauges. This project models the part of
`StatsEmitter` that turns the report into gauges, and proves what that part
guarantees. The fetch and the send are not modelled. The part modelled:

- **Reading the report** (`Report`). The CSV reader skips comment lines, the
  ones starting with `#`. It also requires every data row to have as many
  fields as the first data row (Go's `csv.Reader` with its default
  `FieldsPerRecord`). Data rows are transformed in order. The first line that
  fails stops the whole poll, because the source panics.
- **Transforming one row** (`Transform`).
  - It selects eighteen fixed columns into a record.
  - It replaces `:` by `.` in the proxy name.
  - It skips the `pxname` and `svname` keys.
  - It sends an empty value as `0`.
  - It converts each remaining value with `strconv.Atoi`. A failure is fatal.
  - Each gauge is named `<pxname>.<svname>.<key>`.
- **The column table** (`Fields`): the eighteen (key, column) pairs the source
  reads, with `RowWidth = 62` fields needed to index `ttime` at column 61.
- **Naming** (`Naming`): `strings.Replace(pxname, ":", ".", -1)` and the
  dotted metric name.
- **Integer conversion** (`Strconv`): Go's `strconv.Atoi` on a 64-bit
  platform. It accepts an optional sign and then one or more ASCII digits,
  and the value must fit in an int64. It is proved against its inverse,
  `FormatInt`, and against a grammar. Go's `strconv` package is not part of
  this model; `Atoi` follows its documented behaviour.

Modelling choices:

- A panic is an `Err` result.
  - A row fails with `ShortRow` or `InvalidNumber`.
  - A report fails with `ReportError(line, failure)`. `line` is the index of
    the offending record, counting comment lines.
- A report is the report's lines, comment lines included, each already split
  into fields.
- The gauges of a row are a map from name to value.
- A report's result is the list of those maps, one per data row, in order.

The emitter forwards sixteen numeric fields: `scur smax bin bout ereq econ
rate hrsp_1xx … hrsp_5xx qtime ctime rtime ttime` (haproxy-statsd.go:73-88).

## Model

| member | source | states |
|---|---|---|
| `Fields.SelectedPairsSpelled` | haproxy-statsd.go:71-88 | the (key, column) pairs of the table are exactly the eighteen the source stores in `properties`, each key paired with the record index it reads |
| `Fields.NumericFieldsCount` | haproxy-statsd.go:70-88 | sixteen numeric fields, eighteen selected in all |
| `Fields.RowWidthTight` | haproxy-statsd.go:88 | the highest column read is 61, so 62 fields are needed and enough |
| `Fields.SelectedKeysDistinct` | haproxy-statsd.go:70-88 | no key is stored twice in the record, so no value overwrites another |
| `Fields.IdentifierKeysNotNumeric` | haproxy-statsd.go:96-97 | neither identifier key is among the sixteen numeric keys |
| `Fields.NumericKeysPlain` | haproxy-statsd.go:73-88 | numeric keys use only lower-case letters, digits and `_`, so no `:` |
| `Naming.MetricName` | haproxy-statsd.go:113-115 | the gauge name `<pxname>.<svname>.<key>`; characterised by `MetricNameSegments` (it splits back into its three parts) and `MetricNameInjective` |
| `Naming.ReplaceChar` | haproxy-statsd.go:92 | same length; each `from` character becomes `to` and every other character is kept |
| `Naming.Sanitize` | haproxy-statsd.go:90-92 | the sanitized proxy name has the same length and no `:`; each `:` becomes `.` and every other character is kept |
| `Naming.SanitizeIdempotent` | haproxy-statsd.go:92 | sanitizing twice equals sanitizing once |
| `Naming.SanitizeFixedPoint` | haproxy-statsd.go:92 | a proxy name is unchanged exactly when it holds no `:` |
| `Naming.MetricNameInjective` | haproxy-statsd.go:113-115 | for one proxy and server, distinct keys give distinct gauge names |
| `Naming.MetricNameSegments` | haproxy-statsd.go:113-115 | a gauge name splits back into sanitized proxy, `.`, server, `.`, key |
| `Naming.MetricNameColon` | haproxy-statsd.go:90-92 | with a key free of `:`, a name built on the sanitized proxy holds `:` exactly when the server name does |
| `Naming.PortSuffixExample` | haproxy-statsd.go:90-92 | proxy `web:80`, server `db`, key `scur` gives the name `web.80.db.scur` |
| `Strconv.Atoi` | haproxy-statsd.go:104 | a converted value lies in the int64 range and is negative only after a `-` sign; characterised fully by `AtoiSpec`, `AtoiFormatInt` and `FormatIntAtoi` |
| `Strconv.AtoiSpec` | haproxy-statsd.go:104 | `Atoi` succeeds exactly on an optional sign plus one or more digits whose value is in the int64 range, and returns that value |
| `Strconv.AtoiFormatInt` | haproxy-statsd.go:104 | every int64 renders canonically and `Atoi` reads it back |
| `Strconv.FormatIntAtoi` | haproxy-statsd.go:104 | a canonical text that `Atoi` accepts is the rendering of its value |
| `Strconv.AtoiPlusSign` | haproxy-statsd.go:104 | a leading `+` is accepted and does not change the value |
| `Strconv.AccumulateDigits` | haproxy-statsd.go:104 | the digit loop computes the left-to-right decimal value of an all-digit text |
| `Strconv.AccumulateRejects` | haproxy-statsd.go:104 | the digit loop fails when any character ahead is not a digit |
| `Strconv.NatDigits` | haproxy-statsd.go:104 | the rendering of a natural number is a nonempty digit string, with a leading `0` only for zero itself |
| `Transform.Normalize` | haproxy-statsd.go:100-102 | the text handed to `Atoi` is never empty, and a non-empty value is passed through unchanged |
| `Transform.ParseValue` | haproxy-statsd.go:98-104 | an empty value converts to 0; `ParseValueNormalizes` shows it is `Atoi` of the normalized text |
| `Transform.ParseValueNormalizes` | haproxy-statsd.go:98-104 | converting a value is `Atoi` after the empty-to-`"0"` replacement; an empty value converts to 0 |
| `Transform.Properties` | haproxy-statsd.go:70-88 | the `properties` record of a row; characterised by `PropertiesKeys` and `PropertiesColumns` |
| `Transform.PropertiesKeys` | haproxy-statsd.go:70-88 | the record built from a row has exactly the table's keys |
| `Transform.PropertiesColumns` | haproxy-statsd.go:70-88 | each key of the record holds the text of the column the table assigns it |
| `Transform.Select` | haproxy-statsd.go:70-92 | selection succeeds exactly on rows of at least 62 fields. Otherwise it fails with the row's width. On success, `pxname` holds the sanitized field 0, `svname` holds field 1, and each numeric key holds its own column |
| `Transform.SelectKeys` | haproxy-statsd.go:70-92 | after sanitizing, the record still has exactly the eighteen keys |
| `Transform.Dispatch` | haproxy-statsd.go:95-119 | conversion of the entries succeeds exactly when every value converts. On failure the error names an entry whose value does not convert |
| `Transform.DispatchNames` | haproxy-statsd.go:113-118 | the gauges sent are named after the entries, one name per entry and no other |
| `Transform.DispatchValues` | haproxy-statsd.go:95-118 | with distinct keys, one gauge per entry, each holding its entry's converted value |
| `Transform.ExtractRow` | haproxy-statsd.go:69-119 | a row is rejected as short exactly when it has fewer than 62 fields; a wide enough row can fail only on a numeric value |
| `Transform.ExtractRowSucceeds` | haproxy-statsd.go:71-107 | a row transforms exactly when it has at least 62 fields and each of its sixteen numeric columns converts |
| `Transform.NumericEntriesOfRow` | haproxy-statsd.go:73-97 | the values converted are the sixteen numeric columns of the row, each under its key |
| `Transform.ExtractRowError` | haproxy-statsd.go:104-107 | when a row wide enough to select from fails, the error names a numeric key whose column does not convert, and carries that column's text |
| `Transform.ExtractRowNames` | haproxy-statsd.go:95-118 | the gauges of a transformed row are exactly those named `<sanitized pxname>.<svname>.<key>` for the sixteen numeric keys |
| `Transform.ExtractRowCount` | haproxy-statsd.go:95-118 | a transformed row yields exactly sixteen gauges; no numeric key overwrites another |
| `Transform.ExtractRowValues` | haproxy-statsd.go:95-118 | each gauge holds the integer converted from its own column |
| `Transform.EmptyFieldIsZero` | haproxy-statsd.go:98-102 | a numeric field whose column is empty is sent as 0 |
| `Transform.IdentifiersNotEmitted` | haproxy-statsd.go:96-97 | no gauge is named after `pxname` or `svname` |
| `Transform.GaugeNamesColon` | haproxy-statsd.go:90-92 | a gauge name holds a `:` exactly when the server name does |
| `Transform.ExtractRowSelectedColumnsOnly` | haproxy-statsd.go:70-88 | two wide rows that agree on the selected columns give the same result, however many extra columns they carry |
| `Transform.ExtractRowIgnoresColumn` | haproxy-statsd.go:70-88 | changing a column the emitter does not read changes nothing |
| `Transform.ErrorCountsExample` | haproxy-statsd.go:77-78 | request and connection error counts `5` and `10` are sent as gauges `ereq` 5 and `econ` 10 |
| `Transform.BlankRowGaugesZero` | haproxy-statsd.go:98-104 | a wide row whose numeric columns are all empty transforms, and every gauge is 0 |
| `Report.IsComment` | haproxy-statsd.go:51 | a line starting with `#`; `DataRows` and `CommentsNoData` state what the reader does with it |
| `Report.DataRows` | haproxy-statsd.go:49-51 | the data rows are the report's non-comment lines, all of them, and nothing else |
| `Report.DataRowsConcat` | haproxy-statsd.go:49-51 | filtering comments from two pieces is filtering the whole |
| `Report.CommentsNoData` | haproxy-statsd.go:49-51 | comment lines hold no data rows |
| `Report.ReportWidth` | haproxy-statsd.go:50 | the field count the reader fixes from the first record it returns; characterised by `ReportWidthFirstDataRow` |
| `Report.ReportWidthFirstDataRow` | haproxy-statsd.go:50 | the expected field count is that of the first data row, whatever comments precede it |
| `Report.LineOutcome` | haproxy-statsd.go:62-67 | a comment line contributes nothing; a data row of the wrong width fails with the field-count error |
| `Report.Step` | haproxy-statsd.go:61-118 | a report that failed stays failed; a comment leaves it unchanged; a failing line fails it at that line with the line's failure (the panic); a good line appends exactly its own gauge map |
| `Report.ReadRowsSucceeds` | haproxy-statsd.go:61-107 | reading succeeds exactly when every data row has the expected width and transforms |
| `Report.ReadRowsGauges` | haproxy-statsd.go:61-123 | a successful read holds one gauge map per data row, in report order, each that row's transform |
| `Report.ReadRowsFailure` | haproxy-statsd.go:61-107 | a failed read names a data row. That row either has the wrong width (field-count failure) or its transform failed (the transform's own error). Every line before it reads successfully |
| `Report.ReadRows` | haproxy-statsd.go:61-123 | the report loop with the reader's expected field count given: a failure names a line of the input, and success yields at most one gauge map per line; characterised by `ReadRowsSucceeds`, `ReadRowsGauges` and `ReadRowsFailure` |
| `Report.ProcessReport` | haproxy-statsd.go:61-123 | the loop over the report: a failure names a line of the report, and success yields at most one gauge map per line; `ProcessReportSucceeds` and `ProcessReportGauges` characterise it |
| `Report.ProcessReportSucceeds` | haproxy-statsd.go:50-107 | a report succeeds exactly when every data row has the first data row's width and transforms |
| `Report.ProcessReportGauges` | haproxy-statsd.go:61-123 | a successful report sends the gauges of every data row, in order |
| `Report.CommentOnlyReport` | haproxy-statsd.go:51 | a report of comment lines only sends nothing and does not fail |
| `Report.FoldConcat` | haproxy-statsd.go:61-123 | folding two pieces in turn equals folding the whole, with the second piece's line numbers shifted |
| `Report.StepChain` | haproxy-statsd.go:61-123 | a line appended to the second piece of a split report steps the whole |
| `Report.ReadRowsConcat` | haproxy-statsd.go:61-123 | given the expected width, no state passes from one row to the next: reading in two pieces equals reading whole |

## Left out

- HTTP fetch with Basic Auth (haproxy-statsd.go:39-47): network I/O. The report arrives as a parameter.
- The statsd client (haproxy-statsd.go:54-59, 118, 125): the connection, the configured prefix, the UDP frames and `Close`. The gauges are returned as data rather than sent.
- Send order within a row: the source ranges over a Go map, so the order is unspecified. A row's gauges are a map, which has no order.
- Gauges already sent from a row that then fails: the source panics part-way through that row's map iteration, and the model sends nothing for that row. For the rows before it, `Report.ReadRowsFailure` shows they all succeed.
- `Transform.Dispatch`: visits the numeric fields in table order, so the invalid key it reports is determined. The source's map order picks the key that panics at random. The contract therefore only promises some invalid key.
- CSV syntax (haproxy-statsd.go:50): quoting, escaped quotes, line endings and the skipping of blank lines are left out. Records arrive already split into fields.
- Comment detection: a record counts as a comment when its first field starts with `#`. The Go reader tests the first character of the raw line, so the two differ only for a quoted first field that begins with `#`.
- Line numbers in `ReportError` are record indices, comments included, not raw text lines.
- Configuration loading, the JSON decoder and the polling loop with its sleep (haproxy-statsd.go:128-163): I/O and timing.
- The unused `lineCount` counter (haproxy-statsd.go:52, 122).
- A panic is modelled as an `Err` value. Process termination is not modelled.
- Text is Unicode: Go strings are bytes, so a report holding bytes that are not valid UTF-8 cannot be represented. Every test the emitter makes is on ASCII characters (`:`, `.`, `#`, digits, signs, empty text), so no behaviour on representable text is lost.
- The fast and slow paths inside `strconv.Atoi` are not modelled separately. They agree on every input, and the model states only their common result.
