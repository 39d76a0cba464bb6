# Structured logger: a Dafny model

This project models the core of the Go package `logger`. The package has two parts.

- `JSONFormatter` renders one log record, a string-to-string map, as a single JSON-like line:
  - keys appear in ascending order, each quoted;
  - values are quoted, except the value under `stack`, which is copied in verbatim;
  - pairs are separated by `", "`;
  - the line is framed by `"{ "` and `" }"`.
- `New` and `Logger.Log` form the emission pipeline. `New` fills every unset strategy in a `Config` with its package default. One `Log` call:
  - writes a fixed notice when the arguments are odd in number;
  - otherwise merges the context metadata with the call's pairs, where later pairs win;
  - asks the filter whether to suppress the merged record;
  - sets `caller` and `time` last;
  - writes the formatter's text plus a newline, and panics when the write fails.

Modules, one per file:

- `Wrappers` (`wrappers.dfy`): the `Option` and `Result` datatypes.
- `Reserved` (`reserved.dfy`): the reserved keys `caller`, `stack` and `time`.
- `Order` (`order.dfy`): Go's string ordering, `sort.Strings`, and the unique ascending listing of a key set.
- `Formatter` (`formatter.dfy`): `JSONFormatter`, both as a declarative function and as the Go loop, statement for statement.
- `LineParser` (`line_parser.dfy`): a reader for the formatter's lines. It is the formatter's inverse on records that contain no double quote.
- `Logger` (`logger.dfy`): `Config`, `Logger`, `New` and `Log`.
- `Scenarios` (`scenarios.dfy`): the seven cases of the package's golden-file test, stated as lemmas.

How the collaborators are modelled:

- The context metadata is an input map.
- The caller resolver and the timer are functions of an `Env`. An `Env` holds the call site and the clock reading the runtime would supply.
- The writer's accumulated output is a sequence of writes, one per `Fprintln` call. A boolean says whether the next write succeeds.
- A panic is the `Panicked` outcome. It records the text whose write failed, not the writer's error.

## Model

| member | source | states |
|---|---|---|
| Order.SortedKeys | formatter.go:15-22 | The emitted key order lists every key of the record exactly once, in strictly ascending order, and nothing else. |
| Order.SortedKeysUnique | formatter.go:15-22 | A key set has only one strictly ascending listing, so the key order is fully determined by the record. |
| Order.SortStrings | formatter.go:21 | `sort.Strings` returns its input rearranged (same multiset) into ascending order. |
| Order.DistinctCounts | formatter.go:17-19 | A key list has no repeats exactly when every key occurs in it at most once. |
| Order.SortIgnoresIterationOrder | formatter.go:15-22 | Whatever order map iteration yields the keys in, sorting them gives the same sequence: the record's unique ascending listing. |
| Formatter.CollectKeys | formatter.go:15-19 | The collected keys are exactly the record's keys, each once, in an unspecified order. |
| Formatter.RenderLine | formatter.go:26-52 | The append loop writes the opening frame, then each key's pair in the given order with `", "` between consecutive pairs only, then the closing frame. |
| Formatter.JSONFormatterLoop | formatter.go:11-55 | The statement-by-statement function returns the declarative line, whatever the map's iteration order. This makes its output deterministic. |
| Formatter.EntriesDescribeMap | formatter.go:15-40 | The emitted pairs are the record's pairs: as many as it has keys, each key once, keys strictly ascending, each with its own value. |
| Formatter.Framing | formatter.go:26-52 | The line starts with `"{ "`, ends with `" }"` and is at least four characters long. It is `"{  }"` exactly when the record is empty. |
| Formatter.EveryPairRendered | formatter.go:30-45 | Every key appears in the line, quoted. Its value is quoted, except under `stack`, where the value appears verbatim. |
| Formatter.JoinLength | formatter.go:46-48 | Joining n parts adds exactly n-1 separators. |
| Formatter.LineLength | formatter.go:26-52 | For a non-empty record, the line length is 4 for the frame, plus each rendered pair, plus 2 for each of the n-1 separators. |
| Formatter.FormatOfAscending | formatter.go:11-55 | Rendering the record's pairs under any strictly ascending listing of its keys gives the formatter's line. |
| Formatter.FormatOfEntries | formatter.go:11-55 | A strictly ascending list of pairs that matches the record exactly renders to the formatter's line. |
| Formatter.OneKeyLine | formatter.go:28-51 | A one-key record gives the frame around its single rendered pair, with no separator. |
| Formatter.TwoKeyLine | formatter.go:28-51 | A two-key record lists the smaller key first, with one separator. |
| LineParser.ParseFormatted | formatter.go:26-52 | Reading back a line of a quote-free record yields the record's pairs in emitted order. |
| LineParser.DecodeFormatted | formatter.go:11-55 | The formatter is injective on quote-free records: decoding its line returns the record. |
| LineParser.UnescapedQuotesCollide | formatter.go:36-44 | Values are not escaped, so two different records can give the same line. |
| Logger.New | logger.go:33-59 | `New` never fails. Each strategy the configuration sets is kept, and each unset one is the package default. |
| Logger.Overlay | logger.go:72-78 | The merged record's keys are the metadata's keys plus every key named by a call-site pair. |
| Logger.OverlayPrecedence | logger.go:72-78 | A key named by call-site pairs takes the value of the last such pair, over earlier pairs and over the metadata. A key no pair names keeps its metadata value, or stays absent. |
| Logger.Inject | logger.go:86-89 | `caller` and `time` are set to the resolver's and the timer's results, overriding any supplied value. Every other key, `stack` included, is unchanged. |
| Logger.Log | logger.go:61-97 | One call adds at most one write to the sink and never removes one. A panic happens only when the write fails, and then nothing is added. |
| Logger.EmittedRecordSpec | logger.go:72-89 | The formatted record is the metadata overridden by the call-site pairs, with `caller` and `time` set last. It is the only record that meets that description. |
| Logger.IncompleteCall | logger.go:62-68 | An odd argument count writes the fixed notice as the only line, or panics if that write fails. The notice is not shaped like a record line. |
| Logger.IncompleteCallConsultsNothing | logger.go:62-68 | With an odd argument count, the metadata, filter, formatter, caller resolver and timer make no difference to the outcome. |
| Logger.FilterGate | logger.go:80-84 | The filter sees the merged record before `caller` and `time` are set. If it suppresses the record, nothing is written. Otherwise a successful write adds exactly one write to the sink. |
| Logger.WriteFailurePanics | logger.go:62-96 | A call panics exactly when it attempts a write and that write fails. |
| Logger.EmittedLine | logger.go:86-96 | A complete call the filter lets through writes the formatter's text for the promised record, plus a newline. If the write fails, it panics, and the outcome records that unwritten text. |
| Logger.JSONLineDecodes | logger.go:86-96 | With the built-in formatter, the line written for a quote-free record decodes back to that record. |
| Scenarios.StackValueUnquoted | formatter.go:36-44 | Any text under `stack`, such as a JSON object, is copied into the line as is. |
| Scenarios.OtherValueQuoted | formatter.go:36-44 | Text under another key is wrapped in quotes, whatever it contains. |
| Scenarios.TestLoggerStrategies | logger_test.go:116-123 | The test's logger keeps the default call-site resolver and JSON formatter, with the static timer and its own buffer. |
| Scenarios.DebugLineSuppressed | logger_test.go:34-42 | A debug record the level filter suppresses leaves the buffer empty. |
| Scenarios.LevelLineWritten | logger_test.go:43-69 | Each info, warning and error record that gets through becomes one line: caller, level, message, time, in that order. |
| Scenarios.IncompletePairsNotice | logger_test.go:70-78 | Three arguments write only the fixed notice. |
| Scenarios.MetadataLineWritten | logger_test.go:79-94 | Context metadata appears on the line, sorted in among the call's own pairs. |
| Scenarios.StackLineWritten | logger_test.go:95-105 | A traced error under `stack` appears on the line unquoted, between `message` and `time`. |

## Left out

- Go's `<` compares strings byte by byte, and the model compares characters by code point. For valid UTF-8 the two orders agree. Invalid UTF-8 is not modelled.
- The built-in caller resolver and timer (default.go:11-13 and 19-21) walk the goroutine stack and format the wall clock. Here they read the call site and the clock from the `Env`, so the stack walk and the time format are not modelled.
- The default filter `NewLevelFilter(LevelInfo)` is not part of this model. `PackageDefaults` and the scenarios take the level filter as a parameter, with only what each test case needs of it.
- The `meta` package is not part of this model. `meta.All(ctx)` is an input map. Whether writing into that map changes the context's own metadata depends on `meta`, so it is not modelled.
- `io.Writer` and `fmt.Fprintln` are modelled as appending text plus `"\n"` to a sequence of writes. Byte counts and partial writes are not modelled. Values are not escaped, so a value containing `"\n"` makes one write span several lines of text; the model counts writes, not lines.
- Logger.Log: `panic(err)` at logger.go:65 and logger.go:95 panics with the writer's error. The `Panicked` outcome carries the unwritten text instead, because the writer's error is not modelled.
- Logger.Log: a failed write is modelled as writing nothing. A real writer may keep part of the line.
- A panic is modelled as the `Panicked` outcome. Recovery is not modelled.
- Logger.New: the Go function returns an error that is always nil. The model always returns `Success`.
- Concurrent calls to `Log` are not modelled.
- The golden-file machinery of the test (reading and updating files, the `-update` flag) is not modelled. Each scenario states the line the logger writes to the test's buffer.
- Before comparing, the test rewrites the caller path with a regular expression and re-indents the buffer with `json.Indent` when it parses as JSON (logger_test.go:136-148). Neither step is modelled, so the scenarios state the raw line, with `caller` set to the call site.
- LineParser.DecodeFormatted: the round trip is proved only for records without double quotes. `UnescapedQuotesCollide` shows why no reader can invert the formatter in general.
- `Log` returns nothing and panics on a failed write. The model records that as the `Panicked` outcome; it does not model error propagation.
