# Upload preview model

A Dafny model of the client-side tabular preview of the analytics landing
page (`src/components/UploadPanel.jsx`): the naive CSV splitter
`quickCsvParse`, the column classifier `detectTypes`, the JSON branch of
`onDrop`, and the panel's state (`fileName`, `preview`, `meta`, `error`)
as `onDrop`, `handleFile` and `reset` change it.

Modules, one per concern:

- `Wrappers` (wrappers.dfy): `Option`, `Result`, `Min`.
- `Strings` (strings.dfy): `split`/`join` on one character, `toLowerCase`, `endsWith`.
- `CsvPreview` (csv_preview.dfy): `text.split(/\r?\n/)`, `.filter(Boolean)`, `quickCsvParse`.
- `ColumnTypes` (column_types.dfy): the per-column sample and the numeric/datetime/categorical precedence.
- `JsonPreview` (json_preview.dfy): a JSON value tree, `String()` coercion, record selection, `Object.keys`, rectangular rows.
- `UploadPanel` (upload_panel.dfy): the body of `reader.onload` as the function `Load`, and the class `Panel` holding the component state.

JavaScript runtime behaviour that the repository only calls into is a
parameter: `Host` carries `JSON.parse` (a result or the SyntaxError message)
and the two tests `!isNaN(Number(v))` and `!isNaN(Date.parse(v))`. The file's
content arrives as a string; how the browser reads it is outside the model.

A column with no non-empty cell is labelled `numeric`, because `every` over an
empty sample holds (src/components/UploadPanel.jsx:19-20).

## Model

| member | source | states |
|---|---|---|
| Strings.Split | src/components/UploadPanel.jsx:7-8 | `split(',')` gives at least one piece, no piece holds the separator, and the pieces joined by it are the input |
| Strings.SplitJoin | src/components/UploadPanel.jsx:7-8 | splitting undoes joining separator-free pieces, so the pieces of a line are uniquely determined |
| CsvPreview.Lines | src/components/UploadPanel.jsx:6 | `split(/\r?\n/)` gives one line per `\n`-separated piece, none holding `\n` |
| CsvPreview.LinesOfMixedText | src/components/UploadPanel.jsx:6 | lines joined with any mix of CRLF and LF breaks are recovered exactly, provided a line before a bare `\n` does not end in `\r` |
| CsvPreview.LinesRejoin | src/components/UploadPanel.jsx:6 | every text is its lines joined with some choice of CRLF and LF breaks that meets LinesOfMixedText's `\r` condition, so the lines of any text are pinned |
| CsvPreview.LinesOfCrlfText | src/components/UploadPanel.jsx:6 | lines joined with CRLF breaks are recovered exactly |
| CsvPreview.LinesOfLfText | src/components/UploadPanel.jsx:6 | lines joined with LF breaks are recovered when no inner line ends in `\r` |
| CsvPreview.NonEmpty | src/components/UploadPanel.jsx:6 | `filter(Boolean)` keeps exactly the non-empty strings and nothing else |
| CsvPreview.NonEmptyAppend | src/components/UploadPanel.jsx:6 | dropping empty lines keeps source order |
| CsvPreview.NonEmptyKeepsFullLines | src/components/UploadPanel.jsx:6 | a text without empty lines loses none |
| CsvPreview.NonEmptyLines | src/components/UploadPanel.jsx:6 | the remaining lines are non-empty and hold no line break |
| CsvPreview.QuickCsvParse | src/components/UploadPanel.jsx:5-10 | header is the comma-split first non-empty line (empty when there is none); `min(lines - 1, limit)` rows, row `i` the comma-split of line `i + 1`; no cell holds a comma |
| CsvPreview.SplitAll | src/components/UploadPanel.jsx:8 | one row per line, each joining back to its line |
| CsvPreview.ParseIsUnique | src/components/UploadPanel.jsx:5-10 | any comma-free header and rows that join back to the lines are the parse's result |
| CsvPreview.AllRowsWithinLimit | src/components/UploadPanel.jsx:8 | with at most `limit` data lines every one becomes a row |
| CsvPreview.TableRoundTrip | src/components/UploadPanel.jsx:5-10 | a table of comma-free cells, empty cells allowed, whose lines are not empty, written with any mix of CRLF and LF breaks parses back to itself when no line before a bare `\n` ends in `\r` |
| CsvPreview.CrlfTableRoundTrip | src/components/UploadPanel.jsx:5-10 | such a table written as CRLF CSV parses back to itself |
| CsvPreview.LfTableRoundTrip | src/components/UploadPanel.jsx:5-10 | the same for LF line breaks when no line but the last ends in `\r` |
| CsvPreview.EmptyCellExample | src/components/UploadPanel.jsx:7-8 | `a,b` then `1,` gives the row `1`, `''`: a trailing comma is an empty cell |
| ColumnTypes.CellsOf | src/components/UploadPanel.jsx:14-16 | the column's cells are non-empty and at most one per row |
| ColumnTypes.CellsOfMembership | src/components/UploadPanel.jsx:14-16 | a value is a cell of the column exactly when some row holds it there, non-empty |
| ColumnTypes.CellsOfAppend | src/components/UploadPanel.jsx:14-16 | cells are collected in row order |
| ColumnTypes.ShortRowContributesNothing | src/components/UploadPanel.jsx:15-16 | a row too short for the column, or empty there, contributes nothing |
| ColumnTypes.Sample | src/components/UploadPanel.jsx:14-17 | the sample is the first `min(cells, 50)` non-empty cells |
| ColumnTypes.Classify | src/components/UploadPanel.jsx:19-25 | numeric iff every sample is a number; datetime iff some is not a number and all are dates; categorical iff some is not a number and some is not a date |
| ColumnTypes.DetectTypes | src/components/UploadPanel.jsx:12-28 | exactly one label per header position, each the classification of that column's sample |
| ColumnTypes.SampleIgnoresLaterRows | src/components/UploadPanel.jsx:14-17 | after 50 non-empty cells, further rows leave the sample unchanged |
| ColumnTypes.DetectTypesIgnoresLaterRows | src/components/UploadPanel.jsx:12-28 | after 50 non-empty cells in every column, further rows change no label |
| ColumnTypes.EmptyColumnIsNumeric | src/components/UploadPanel.jsx:19-20 | a column without non-empty cells is labelled numeric |
| ColumnTypes.NumericBeatsDatetime | src/components/UploadPanel.jsx:19-23 | samples that are numbers and dates are labelled numeric |
| ColumnTypes.LabelWitnesses | src/components/UploadPanel.jsx:19-25 | datetime implies every sample is a date; any non-numeric label has a non-number cell in some row |
| ColumnTypes.ClassifyExamples | src/components/UploadPanel.jsx:19-25 | `1,2,3` is numeric, two ISO dates are datetime, `red,blue,red` is categorical |
| JsonPreview.ErrorMessage | src/components/UploadPanel.jsx:60-61 | the shown error is the thrown message, `No records found`, or `Failed to parse file` when the message is empty |
| JsonPreview.Lookup | src/components/UploadPanel.jsx:50 | `item[h]` is the last member with that key, absent when there is none |
| JsonPreview.OwnKeys | src/components/UploadPanel.jsx:49 | `Object.keys` lists every member key exactly once, ordered by first appearance, which fixes the header's column order |
| JsonPreview.RecordCandidates | src/components/UploadPanel.jsx:47-48 | the records are the top-level array, or the array under the object's `data` key, and none otherwise |
| JsonPreview.Records | src/components/UploadPanel.jsx:47-48 | non-empty candidates are the records; none gives `No records found`; a `null` document throws reading `data` |
| JsonPreview.KeysOf | src/components/UploadPanel.jsx:49 | `Object.keys` throws exactly on `null` and gives an object's keys |
| JsonPreview.Text | src/components/UploadPanel.jsx:50 | `String(v)` of a value it converts without throwing: strings as themselves, booleans and numbers as their literals, objects as `[object Object]`, an empty array or a lone `null` element as `""` |
| JsonPreview.NullArrayText | src/components/UploadPanel.jsx:50 | an array of `n` nulls shows as `n - 1` commas |
| JsonPreview.StringArrayText | src/components/UploadPanel.jsx:50 | `String` of a string array joins it with commas, recoverable by splitting |
| JsonPreview.CellText | src/components/UploadPanel.jsx:50 | a missing or `null` value becomes `''`; reading a key of a `null` record throws; a value holding an object with its own `toString` member throws `Cannot convert object to primitive value`; any other value shows as its `String` text |
| JsonPreview.RowOf | src/components/UploadPanel.jsx:50 | one record's row: succeeds iff every cell does, one cell per header key, otherwise the error of the first failing key |
| JsonPreview.RowsOf | src/components/UploadPanel.jsx:50 | succeeds iff every cell of every record does, then one row per record with exactly one cell per header key; otherwise the error of the first failing record |
| JsonPreview.JsonTableOf | src/components/UploadPanel.jsx:47-50 | header is the first record's keys, at most 100 rectangular rows, record count is all records |
| JsonPreview.JsonTableFailures | src/components/UploadPanel.jsx:47-50 | the JSON branch fails exactly on no records, a `null` first record, or a previewed cell that throws |
| JsonPreview.OwnToStringThrows | src/components/UploadPanel.jsx:50 | `[{"a": {"toString": 1}}]` makes the JSON branch throw `Cannot convert object to primitive value` |
| UploadPanel.JsonNameIgnoresCase | src/components/UploadPanel.jsx:45 | the JSON test is a case-insensitive `.json` suffix |
| UploadPanel.Load | src/components/UploadPanel.jsx:42-59 | summary consistent with the table; CSV always succeeds and counts previewed rows; JSON reports parse errors and counts all records |
| UploadPanel.JsonCountsAllRecords | src/components/UploadPanel.jsx:50-53 | JSON `rowsCount` is the full record count, preview rows `min(count, 100)` |
| UploadPanel.CsvUploadExample | src/components/UploadPanel.jsx:55-58 | `a,b\n1,x\n2,y\n3,z` previews 3 rows of 2 columns, numeric then categorical |
| UploadPanel.Panel.constructor | src/components/UploadPanel.jsx:32-35 | the panel starts empty with no error |
| UploadPanel.Panel.Select | src/components/UploadPanel.jsx:38-39 | a drop clears the error and sets the file name, nothing else, keeping the panel's invariant |
| UploadPanel.Panel.FinishLoad | src/components/UploadPanel.jsx:42-63 | success replaces table and summary; failure sets only the error |
| UploadPanel.Panel.OnDrop | src/components/UploadPanel.jsx:37-65 | the whole drop: name set, then success or error as above, summary kept consistent |
| UploadPanel.Panel.HandleFile | src/components/UploadPanel.jsx:67-70 | the first chosen file is dropped; no file changes nothing |
| UploadPanel.Panel.Reset | src/components/UploadPanel.jsx:72-78 | every field back to its initial value and the file control emptied |
| UploadPanel.MalformedJsonExample | src/components/UploadPanel.jsx:60-61 | malformed JSON on a fresh panel shows an error and leaves the preview empty |

## Left out

- Reading the file (`FileReader`, `e.target?.result || ''`): the content is a parameter. The asynchronous gap between `Select` and `FinishLoad` is modelled as two methods; no property about overlapping reads is proved.
- `JSON.parse`, `Number(v)` and `Date.parse(v)`: JavaScript runtime behaviour, parameters in `Host`.
- `String()` of a number: a `JNumber` carries the text the runtime renders for it.
- KeysOf: array and string records have index keys in JavaScript; the model gives them no keys, and `CellText` reads nothing from them.
- OwnKeys: JavaScript lists integer-like keys (`"0"`, `"17"`) first, in ascending order; the model keeps first-occurrence order for all keys.
- CellText: properties inherited from `Object.prototype` (`toString`, `constructor`) are not modelled; only own members are read.
- Lower: folds only `A`–`Z`; the `.json` test is assumed not to depend on any other character's lowercase form.
- The messages of `TypeError`s (reading a property of `null`, `Object.keys(null)`, converting an object with no primitive value) use a common engine's wording, which the language does not fix.
- The `if (inputRef.current)` guard in `reset`: the Clear button is rendered only while the component is mounted, so the control is assumed present.
- Rendering: the table, the classification grid, the constant `Quality: Good` tile and all styling.
- `src/components/AnalysisTabs.jsx`, `src/components/FeatureGrid.jsx`, `src/components/HeroSplineCover.jsx`, `src/App.jsx`: HTTP round-trips and static markup with no logic of their own.
