# etrace: the filter-and-present pipeline, modelled in Dafny

etrace is a command-line tool that listens to Windows event tracing (ETW)
events, from a live session or an ETL file. It filters them and presents
the ones that survive in one of three ways:

- raw text, one block per event;
- a fixed-width table of chosen fields;
- frequency reports by event name and by process.

At the end it prints a summary.

This project models the part of etrace that decides what happens to each
event once it has arrived. That part has four pieces, one module each:

- **TraceTypes** (`trace_types.dfy`) holds the shared values:
  - the trace event, with payload fields whose value may be null or
    unreadable (reading it throws);
  - the two exceptions the model represents (`ArgumentOutOfRange` and
    `NotImplemented`), as a `Result` wrapper;
  - what is written to the console: raw text, a count table or the summary.
- **Extensions** (`extensions.dfy`) holds the string helpers:
  - `Truncate`, which can throw `ArgumentOutOfRange` for limits below 3;
  - the default widths of the reserved fields Event, PID, TID and Time;
  - field lookup by name. A missing payload field or a null value gives
    `<null>`, and a value that cannot be read throws;
  - the canonical raw text of an event, built field by field
    (`AsRawString`). Unreadable fields are skipped there.
- **Tables** (`table.dfy`) is the console table. It is a `class` with the
  budget `MaxWidth`, the running `usedWidth` and the admitted columns:
  - `AddColumn` admits or silently drops a column;
  - `PrintHeader` and `PrintRow` return the text they write.

  The functions `Admit`, `HeaderText` and `RowText` specify them. The
  lemmas about them prove that:
  - the admitted columns fit the budget and keep their order;
  - a rejected column leaves no trace;
  - header cells are exactly as wide as the columns;
  - extra row values are discarded;
  - a row never exceeds the maximum width.
- **Processors** (`processors.dfy`) holds the three processors and the
  counting dictionary:
  - the raw printer;
  - the table printer, which parses display fields written `name[width]`
    exactly as the regular expression `(.*)\[(\d+)\]` does;
  - the statistics aggregator;
  - `CountingDictionary`, whose `Add` keeps a running total that the
    lemmas track. Its report is sorted by count, descending, and is a
    permutation of its entries. The aggregator prints its two reports
    only on its first disposal.
- **Dispatch** (`program.dfy`) holds the dispatcher:
  - the hard filters (process id, thread id, event names);
  - the raw filter, which takes precedence over the field filters;
  - the field filters, which are alternatives: the first match forwards
    the event once, and a filter that throws ends the run;
  - the two counters;
  - the choice of processor;
  - closing the session, which prints the summary exactly once.

  The filter decision for one event is the function `Decide`. Handling one
  event changes the dispatcher's `Tally` (displayed count, displayed
  events, console, failure) exactly as `HandlingOutcome` of that decision
  says. The `Dispatcher` class keeps a ghost history of the arrivals. Its
  invariant ties the displayed events to `Forwarded`, the decision applied
  to that history, for as long as no exception has ended the run. The
  invariant also keeps the processor what it was created as, and keeps
  the aggregator's dictionaries counting exactly the displayed events.
  Handing an event to the processor may change only those dictionaries,
  so disposal state and the table's columns survive every event.

Console output is modelled as a sequence of `Output` values that the
methods return or append. An exception is a `Throws` result: it records
the exception that would end the program and stops further processing.
Regular expressions, both the raw filter and the field filters, are
abstract predicates on strings. So is the operating system's process
lookup, which enters as the parameter `osProcessName`.

## Model

| member | source | states |
|---|---|---|
| `Extensions.NatToString` | etrace/Extensions.cs:51-53 | the decimal text of a natural number is non-empty, all digits, and has no leading zero |
| `Extensions.ParseNat` | etrace/MatchedEventProcessor.cs:27 | `int.Parse` of a run of n digits gives a value below 10 to the n |
| `Extensions.ParseNatToString` | etrace/MatchedEventProcessor.cs:27 | `int.Parse` of the printed form of a number gives the number back |
| `Extensions.IntToString` | etrace/Extensions.cs:50-53 | `Int32.ToString()` of an id: its digits read back as the id, after a '-' when it is negative, with no leading zero |
| `Extensions.Truncate` | etrace/Extensions.cs:63-69 | a string within the limit is returned unchanged; a longer one is cut to exactly `length` characters: the first `length - 3` of the original, then "..."; it can only fail (precondition `CanTruncate`) when the limit is below 3 |
| `Extensions.TruncateIdempotent` | etrace/Extensions.cs:63-69 | truncating twice to the same limit equals truncating once |
| `Extensions.TruncateExamples` | etrace/Extensions.cs:63-69 | "hello world" at 8 is "hello..."; "hi" at 8 is "hi" |
| `Extensions.PadRight` | etrace/Extensions.cs:19 | `{0,-20}` left-justifies: the string is kept and padded with spaces to the width, and never shortened |
| `Extensions.GetExpectedFieldWidth` | etrace/Extensions.cs:29-44 | Event is 20, PID and TID are 5, Time is 15, every other field is 30 |
| `Extensions.DefaultWidthTruncates` | etrace/Extensions.cs:29-44 | every default width is at least 3, so a value in a default-width column can always be truncated |
| `Extensions.PayloadByNameFirst` | etrace/Extensions.cs:57 | the lookup `PayloadByName` returns the value of the first field with the name, and None when no field has it |
| `Extensions.GetFieldByName` | etrace/Extensions.cs:46-61 | Event, PID, TID and Time give the event's name, ids and time stamp; any other name gives the first payload field of that name, or "<null>" when there is none or its value is null; it throws exactly when that value cannot be read |
| `Extensions.ReservedIgnoresPayload` | etrace/Extensions.cs:48-55 | a reserved field name never depends on the payload |
| `Extensions.PayloadFieldLookup` | etrace/Extensions.cs:57-60 | for the first field with the name, the lookup gives its value when readable, "<null>" when null, and `ArgumentOutOfRange` when it cannot be read |
| `Extensions.AbsentFieldIsNull` | etrace/Extensions.cs:57-60 | a name that no payload field has is shown as "<null>" |
| `Extensions.RawHeaderNamesEvent` | etrace/Extensions.cs:15 | the header line starts with the event name and ends with `EventName:` and the event name |
| `Extensions.RawLine` | etrace/Extensions.cs:19 | a field line starts a new line indented by two spaces and the name, and ends with the value; its length is the name's column of at least 20 characters plus " = " and the value |
| `Extensions.RawLineLayout` | etrace/Extensions.cs:19 | the name is padded with spaces to a column of max(name length, 20) characters, followed by " = " and then the value |
| `Extensions.FieldText` | etrace/Extensions.cs:17-24 | a field adds nothing exactly when its value cannot be read; otherwise it adds a new indented line |
| `Extensions.RawStringOpensWithHeader` | etrace/Extensions.cs:10-26 | the raw text opens with the header line |
| `Extensions.RawFieldsConcat` | etrace/Extensions.cs:16-24 | the payload lines of a concatenated payload are the lines of its parts, concatenated |
| `Extensions.RawFieldsEmpty` | etrace/Extensions.cs:16-24 | a payload adds no lines exactly when none of its values can be read |
| `Extensions.HeaderOnlyWhenNothingReadable` | etrace/Extensions.cs:10-26 | the raw text is the header line alone exactly when no payload value can be read |
| `Extensions.UnreadableFieldSkipped` | etrace/Extensions.cs:21-24 | a field whose value throws contributes nothing and does not disturb the others |
| `Extensions.ReadableFieldShown` | etrace/Extensions.cs:16-20 | a readable field contributes exactly its own line, in payload order |
| `Extensions.NullFieldShownEmpty` | etrace/Extensions.cs:19 | a null value is formatted as an empty value, not as "<null>" |
| `Extensions.AsRawString` | etrace/Extensions.cs:10-26 | the loop builds the header line followed by one line per readable payload field, which is `RawString` |
| `Tables.SumWidths` | etrace/Table.cs:18 | every column takes at least its one separator |
| `Tables.SumWidthsAppend` | etrace/Table.cs:18 | the width of columns plus one more grows by that column's width plus its separator |
| `Tables.Admit` | etrace/Table.cs:13-20 | no more columns are admitted than requested (that each admitted column was requested, in order, is `AdmitKeepsOrder`) |
| `Tables.AdmitFits` | etrace/Table.cs:13-20 | the columns admitted from any request list, with their separators, never exceed the maximum width |
| `Tables.AdmitKeepsOrder` | etrace/Table.cs:13-20 | the admitted columns are a subsequence of the requested ones, in request order |
| `Tables.RejectedColumnIsInvisible` | etrace/Table.cs:15-16 | a column dropped for lack of width leaves the outcome for every later column as if it had never been requested |
| `Tables.AdmitExample` | etrace/Table.cs:13-20 | with a budget of 30, three columns of width 10 admit the first two and drop the third |
| `Tables.Cell` | etrace/Table.cs:25 | a cell is the truncated value left-justified to exactly the column width, then one space |
| `Tables.HeaderCells` | etrace/Table.cs:24-25 | the only exception the header cells can throw is `ArgumentOutOfRange` |
| `Tables.HeaderText` | etrace/Table.cs:22-28 | the header succeeds exactly when its cells do; it is the cells, a line break, `usedWidth` dashes and a line break |
| `Tables.RowCells` | etrace/Table.cs:33-48 | the only exception a row's cells can throw is `ArgumentOutOfRange` |
| `Tables.RowText` | etrace/Table.cs:30-50 | the row succeeds exactly when its cells do; it ends with a line break unless there were more values than columns, in which case it is the cells alone |
| `Tables.HeaderWidth` | etrace/Table.cs:22-28 | when no name throws, the header cells are exactly as wide as the columns with their separators, which equals the dash line's length |
| `Tables.HeaderThrowsIff` | etrace/Table.cs:22-28 | printing the header throws exactly when some column name is longer than its column and that column is narrower than 3 |
| `Tables.RowDiscardsExtraValues` | etrace/Table.cs:33-36 | values beyond the last column are discarded: the row cells are those of the first `Columns.Count` values |
| `Tables.ShortRowWidth` | etrace/Table.cs:30-50 | a row with fewer values than columns is as wide as the columns it fills |
| `Tables.RowWidthBound` | etrace/Table.cs:30-50 | a row is never wider than the columns plus the last column's remaining-space limit |
| `Tables.RowFitsMaxWidth` | etrace/Table.cs:40-42 | since the last column gets only the space left, every row within the table's budget fits the maximum width |
| `Tables.Table.constructor` | etrace/Table.cs:8-11 | a new table has the given maximum width, no columns and nothing used |
| `Tables.Table.AddColumn` | etrace/Table.cs:13-20 | a column that fits is appended and `usedWidth` grows by its width plus one; a column that does not fit changes nothing |
| `Tables.Table.PrintHeader` | etrace/Table.cs:22-28 | the loop's text is `HeaderText`: each name truncated and padded to its column, a newline, then a line of `usedWidth` dashes; the first name that cannot be truncated throws |
| `Tables.Table.PrintRow` | etrace/Table.cs:30-50 | the loop's text is `RowText`: every value but the last as a padded cell and the last truncated to the remaining width; it stops early, without a newline, at the first value beyond the columns |
| `Processors.DigitRunEnd` | etrace/MatchedEventProcessor.cs:18 | `\d+` covers the maximal run of digits |
| `Processors.DigitRunEndAt` | etrace/MatchedEventProcessor.cs:18 | the digit run from a position ends at the first non-digit |
| `Processors.LastBracket` | etrace/MatchedEventProcessor.cs:18 | the greedy `.*` settles on the last `[digits]` of the range |
| `Processors.LineEnd` | etrace/MatchedEventProcessor.cs:18 | `.` does not cross a newline: a line ends at the next newline or the end |
| `Processors.MatchFrom` | etrace/MatchedEventProcessor.cs:18 | a match starts at a line start and ends at a bracketed number, which is the last one on that line; no bracketed number comes before the match's line; there is no match exactly when there is no bracketed number at all |
| `Processors.MatchFromOnOneLine` | etrace/MatchedEventProcessor.cs:18 | a match lies on one line, and no bracketed number follows it on that line |
| `Processors.ParseColumnSpec` | etrace/MatchedEventProcessor.cs:25-27 | a display field names an explicit width exactly when it holds a bracketed number |
| `Processors.RequestedColumn` | etrace/MatchedEventProcessor.cs:25-29 | a display field without a bracketed number asks for a column of its own name and its default width |
| `Processors.Requested` | etrace/MatchedEventProcessor.cs:23-30 | one requested column per display field, in order |
| `Processors.ParseColumnSpecRoundTrip` | etrace/MatchedEventProcessor.cs:25-27 | `name[w]` is read back as the column `(name, w)` |
| `Processors.NoBracketNoMatch` | etrace/MatchedEventProcessor.cs:25-26 | a display field without '[' does not match the pattern |
| `Processors.NoBracketDefaultWidth` | etrace/MatchedEventProcessor.cs:28-29 | a field written without brackets gets its default width |
| `Processors.AddField` | etrace/MatchedEventProcessor.cs:25-29 | one display field's column is admitted to the table when it fits, and the table is unchanged otherwise |
| `Processors.RowValues` | etrace/MatchedEventProcessor.cs:36 | a row holds, for each column, the event's field of that column's name; it throws exactly when one of them cannot be read |
| `Processors.RowOfEvent` | etrace/MatchedEventProcessor.cs:34-38 | a row of an event, one value per column, always ends its line |
| `Processors.UnreadableColumnThrows` | etrace/MatchedEventProcessor.cs:36 | a column over an unreadable payload field makes the row throw |
| `Processors.EveryEventTablePrinter.constructor` | etrace/MatchedEventProcessor.cs:21-32 | the table's columns are the requested columns admitted in order within the width, and the header written is `HeaderText` of those columns, or its exception |
| `Processors.EveryEventTablePrinter.TakeEvent` | etrace/MatchedEventProcessor.cs:34-38 | the printed row is the table's row of the event's values for its columns; a value that cannot be read throws before anything is printed |
| `Processors.EveryEventTablePrinter.TakeDescribedEvent` | etrace/MatchedEventProcessor.cs:40-43 | the described form always throws `NotImplementedException` |
| `Processors.EveryEventPrinter.TakeEvent` | etrace/MatchedEventProcessor.cs:52-55 | writes the raw text of the event and a newline |
| `Processors.EveryEventPrinter.TakeDescribedEvent` | etrace/MatchedEventProcessor.cs:57-60 | writes the description and a newline |
| `Processors.IncrementEffect` | etrace/MatchedEventProcessor.cs:71-78 | `Increment`, one `Add` on the counts: the key's count grows by the value (starting from the value when absent); every other key is untouched and no key is lost |
| `Processors.CountsOfStep` | etrace/MatchedEventProcessor.cs:71-78 | `CountsOf`, the counts after one `Add` per key of a sequence, grows by one `Increment` per extra key |
| `Processors.CountsOfOccurrences` | etrace/MatchedEventProcessor.cs:71-78 | after one `Add` per key of a sequence, a key is present exactly when it occurs, and its count is its number of occurrences |
| `Processors.IncrementExample` | etrace/MatchedEventProcessor.cs:71-78 | three `Add("A")` calls and one `Add("A", 2)` leave A at 5 |
| `Processors.IncrementTotal` | etrace/MatchedEventProcessor.cs:71-78 | an `Add` raises the total of all counts by exactly the value added |
| `Processors.SumCountsAppend` | etrace/MatchedEventProcessor.cs:76-77 | adding a new key adds its count to the total |
| `Processors.SumCountsIgnores` | etrace/MatchedEventProcessor.cs:74-75 | the total over keys that exclude a key does not depend on that key's count |
| `Processors.SumCountsBump` | etrace/MatchedEventProcessor.cs:74-75 | raising one present key's count raises the total by the same amount |
| `Processors.Insert` | etrace/MatchedEventProcessor.cs:84 | inserting into a ranking makes it one entry longer |
| `Processors.SortByCount` | etrace/MatchedEventProcessor.cs:84 | sorting keeps the number of entries |
| `Processors.InsertMultiset` | etrace/MatchedEventProcessor.cs:84 | inserting an entry into a ranking adds exactly that entry |
| `Processors.InsertMembers` | etrace/MatchedEventProcessor.cs:84 | an entry of the new ranking is the inserted one or an old one |
| `Processors.InsertDescending` | etrace/MatchedEventProcessor.cs:84 | inserting into a descending ranking keeps it descending |
| `Processors.InsertDistinct` | etrace/MatchedEventProcessor.cs:84 | inserting a new key keeps the keys distinct |
| `Processors.SortByCountFacts` | etrace/MatchedEventProcessor.cs:84 | `OrderByDescending(Value)` yields a descending sequence that is a permutation of its input |
| `Processors.SortByCountDistinct` | etrace/MatchedEventProcessor.cs:84 | sorting keeps distinct keys distinct |
| `Processors.Entries` | etrace/MatchedEventProcessor.cs:84 | one entry per key, holding that key's count |
| `Processors.ReportFacts` | etrace/MatchedEventProcessor.cs:80-88 | the report over a dictionary's keys is descending, has distinct keys, pairs each key with its count, and lists every key |
| `Processors.CountingDictionary.constructor` | etrace/MatchedEventProcessor.cs:69 | a new dictionary has no keys and a total of zero |
| `Processors.CountingDictionary.Add` | etrace/MatchedEventProcessor.cs:71-78 | the counts become `Increment` of the old counts; a new key is appended to the enumeration order; the total grows by the value |
| `Processors.CountingDictionary.Report` | etrace/MatchedEventProcessor.cs:84-85 | the rows are sorted by count, descending, have distinct keys, each row holds its key's count, and every key appears |
| `Processors.CountingDictionary.Print` | etrace/MatchedEventProcessor.cs:80-88 | prints one count table with the given caption and key label over the report |
| `Processors.EventStatisticsAggregator.constructor` | etrace/MatchedEventProcessor.cs:93-95 | both dictionaries start empty and distinct, they count no events, and the aggregator is not disposed |
| `Processors.EventStatisticsAggregator.TakeEvent` | etrace/MatchedEventProcessor.cs:97-101 | the event's name and process name each gain one count, and each dictionary's total grows by one; only the two dictionaries change |
| `Processors.EventStatisticsAggregator.TakeDescribedEvent` | etrace/MatchedEventProcessor.cs:103-106 | the description is ignored; the event is counted like any other |
| `Processors.TakenStep` | etrace/MatchedEventProcessor.cs:97-101 | the counts by name (and by process) of one more event are the old counts incremented at that event's name (and process name) |
| `Processors.EventStatisticsAggregator.CountedStep` | etrace/MatchedEventProcessor.cs:97-101 | what `TakeEvent` does to dictionaries that count a sequence of events makes them count that sequence with the event appended |
| `Processors.EventStatisticsAggregator.ReportsCountTaken` | etrace/MatchedEventProcessor.cs:80-101 | when the dictionaries count a sequence of events, each report row holds the number of those events with its key, and every name (and process name) among them has a row |
| `Processors.EventStatisticsAggregator.Dispose` | etrace/MatchedEventProcessor.cs:108-116 | the first disposal prints the two reports, by name then by process; later ones print nothing |
| `Dispatch.IsMatch` | etrace/Program.cs:207 | a field filter can only throw `ArgumentOutOfRange`, from reading its field |
| `Dispatch.FirstMatch` | etrace/Program.cs:206-211 | the index found is the first filter that matches after all earlier ones did not; none is found exactly when no filter matches; a throw comes from the first filter evaluated that throws |
| `Dispatch.FindFieldMatch` | etrace/Program.cs:206-211 | the `foreach` over the field filters, stopping at the first match or at a throw, finds `FirstMatch` |
| `Dispatch.FirstMatchAt` | etrace/Program.cs:206-211 | once the earlier filters did not match, a filter that throws or matches decides the search |
| `Dispatch.NoMatchAnywhere` | etrace/Program.cs:206-211 | when no filter matches and none throws, the search finds nothing |
| `Dispatch.Decide` | etrace/Program.cs:191-216 | an event failing a hard filter is dropped; an event forwarded with text carries its raw text, which the raw filter matched; only the field filters can fail, with `ArgumentOutOfRange` |
| `Dispatch.HardFiltersFirst` | etrace/Program.cs:191-196 | an event not dropped has the process id and thread id asked for (unless -1) and one of the event names asked for (unless none) |
| `Dispatch.RawFilterPrecedence` | etrace/Program.cs:198-204 | with a raw filter the field filters make no difference |
| `Dispatch.RawFilterForwardsText` | etrace/Program.cs:198-203 | with a raw filter an event is forwarded with its raw text exactly when the filter matches that text, and dropped otherwise |
| `Dispatch.FieldFiltersAreAlternatives` | etrace/Program.cs:204-212 | field filters are tried in order: an event is forwarded, without text, exactly when some filter matches after the earlier ones did not; dropped exactly when none matches; when no field throws this is a plain OR |
| `Dispatch.FieldFilterThrows` | etrace/Program.cs:204-212 | the run fails exactly when a filter throws before any filter matched |
| `Dispatch.UnreadableFieldFilterFails` | etrace/Program.cs:207 | a filter on an unreadable field makes the run fail rather than forward or drop |
| `Dispatch.NoFiltersForwardAll` | etrace/Program.cs:213-216 | without raw or field filters every event that passes the hard filters is forwarded |
| `Dispatch.Forwarded` | etrace/Program.cs:187-217 | never more events are forwarded than arrive |
| `Dispatch.ForwardedStep` | etrace/Program.cs:187-217 | the forwarded events of a longer stream extend those of its prefix by the last event when it is forwarded |
| `Dispatch.ProcessFilterOnlyDecides` | etrace/Program.cs:191-192 | under a process filter alone, an event is forwarded exactly when it comes from that process |
| `Dispatch.ProcessFilterExample` | etrace/Program.cs:191-192 | with process filter 100, events from 100, 200, 100, 100, 300 forward the first, third and fourth, in order |
| `Dispatch.Consumed` | etrace/Program.cs:219-224 | only the table printer throws: `NotImplemented` for a described event, `ArgumentOutOfRange` when a value cannot be read; the raw printer writes a description as it is, on its own line |
| `Dispatch.Recorded` | etrace/Program.cs:219-226 | the event is counted exactly when the processor returns, with its output written; otherwise its exception ends the run and nothing is written |
| `Dispatch.HandlingOutcome` | etrace/Program.cs:187-227 | only a forwarded event is counted, and then nothing is raised; a dropped or failed event writes nothing, and raises exactly when it failed |
| `Dispatch.DisposeOutput` | etrace/MatchedEventProcessor.cs:45-64 | only the aggregator writes anything when disposed; the two printers' `Dispose` methods are empty |
| `Dispatch.OpenProcessor` | etrace/Program.cs:38 | creating the processor writes the table printer's header, or raises the exception printing it threw; the other processors write nothing |
| `Dispatch.CreateEventProcessor` | etrace/Program.cs:50-58 | statistics only takes precedence, then the table printer when display fields are given (its columns admitted within the width and its header rendered), else the raw printer |
| `Dispatch.Dispatcher.constructor` | etrace/Program.cs:38 | a run starts with zero counters, the chosen processor (an aggregator with empty dictionaries), and the table header (or the exception the header threw) as the only output |
| `Dispatch.Dispatcher.TakeEvent` | etrace/Program.cs:219-227 | the described or plain form goes to the processor; the displayed counter grows by one only when the processor does not throw |
| `Dispatch.Dispatcher.Deliver` | etrace/Program.cs:221-224 | the processor's result is `Consumed` of what it is; only the aggregator's dictionaries change, and if they counted a sequence of events they then count it with this event appended |
| `Dispatch.Dispatcher.Record` | etrace/Program.cs:226 | the tally changes by `Recorded` of the processor's result |
| `Dispatch.Dispatcher.ProcessEvent` | etrace/Program.cs:187-217 | every event is counted as processed; the tally changes by `HandlingOutcome` of `Decide`; the displayed events stay those `Forwarded` selects from the history, the aggregator's dictionaries count exactly the displayed events, and the processor stays what it was created as (the table's columns and width, the aggregator not disposed) |
| `Dispatch.Dispatcher.FilterEvent` | etrace/Program.cs:191-217 | after the three hard-filter tests the tally changes by `HandlingOutcome` of `Decide` |
| `Dispatch.Dispatcher.ApplyFilters` | etrace/Program.cs:198-216 | the raw filter, else the field filters, else the event itself is forwarded: the tally changes by `HandlingOutcome` of `Decide` |
| `Dispatch.Dispatcher.ApplyRawFilter` | etrace/Program.cs:198-203 | the raw text is rendered once, matched, and handed to the processor with the event |
| `Dispatch.Dispatcher.ApplyFieldFilters` | etrace/Program.cs:204-212 | the first matching filter forwards the event once; a filter that throws ends the run |
| `Dispatch.Dispatcher.DisposeProcessor` | etrace/Program.cs:76-77 | disposing the processor prints the aggregator's reports if not yet printed, and nothing more is left to print |
| `Dispatch.Dispatcher.ReportsCountForwarded` | etrace/Program.cs:219-227 | with the aggregator, each report row holds the number of forwarded events with its name (or process name), and every name of a forwarded event has a row |
| `Dispatch.Dispatcher.CloseSession` | etrace/Program.cs:71-96 | closing disposes the processor and ends the session; the summary with both counters is printed only by the first close; events lost are read only from an open session, else 0; nothing is left for a later disposal to print; the counters, the arrival history, the displayed events and the failure are unchanged |
| `Dispatch.Dispatcher.EndSession` | etrace/Program.cs:78-94 | the session is closed and the summary printed only if not printed before, with the events lost read only from a session still open, else 0 |
| `Dispatch.Dispatcher.Finish` | etrace/Program.cs:39-47 | the processor is disposed when the `using` block ends, then the session is closed, which disposes it again; the reports and then the summary each appear once; after an exception the summary is not printed; the counters, the arrival history, the displayed events and the failure are unchanged, so the summary shows the counts of the run |

## Left out

- Parsing options, `Main`'s choice between a live session and a file, the
  `List` listing and `Bail`: these are outside the modelled pipeline. The
  `Options` class is not part of this model. The dispatcher takes the
  already-parsed options as a value.
- Field filters: `Options.cs` is not part of this model. A field filter is
  taken to read its field with `GetFieldByName` and to test the string
  with its regular expression, which is an abstract predicate. So a
  filter on an unreadable field throws, and that exception ends the run.
- The field-filter `foreach` is modelled as a search (`FindFieldMatch`)
  followed by one `TakeEvent`. Evaluating a filter has no side effect, so
  this is the same as calling `TakeEvent` inside the loop and breaking.
- ETW sessions, providers, keywords and the event source: events arrive
  as parameters of `ProcessEvent`. The number of events lost is a
  parameter of `CloseSession`.
- Concurrency: Ctrl+C and the duration timer call `CloseSession` on other
  threads, under a lock. The model treats every call as sequential, so
  `CloseSession` may be called any number of times in any order.
- `Process.GetProcessById`, the operating system's process lookup, is the
  parameter `osProcessName`. The `ArgumentException` it throws when the
  process has exited (Extensions.cs:13) is not modelled.
- Regular expressions for the raw and field filters are predicates on
  strings. The display-field pattern `(.*)\[(\d+)\]` is modelled exactly,
  except that `\d` is taken as ASCII digits only.
- `int.Parse` and the `ulong` counters are unbounded. The
  `OverflowException` that `int.Parse` throws for a width above
  2147483647 (MatchedEventProcessor.cs:27) is not modelled. Neither is the
  wrap-around of `usedWidth + width + 1` in `AddColumn` (Table.cs:15) for
  a width near `int.MaxValue`, which in the source admits a column that
  does not fit.
- Strings are sequences of Unicode scalar values, while .NET strings are
  UTF-16 code units. `Length`, `Substring` and padding therefore agree
  only for text in the Basic Multilingual Plane. For example, `Truncate`
  on "😀ab" with limit 3 keeps it unchanged here, but in .NET the string
  has length 4 and becomes "...".
- `Processors.CountingDictionary.Report`: `ConsoleTable`'s text layout is
  not modelled; the report is its rows. The order of entries with equal
  counts is not claimed. The model uses a stable insertion sort, as
  `OrderByDescending` is stable, but nothing is proved about ties.
- `Console.BufferWidth` is the `maxWidth` parameter. Time stamps are
  already-formatted strings. The start-time line (Program.cs:37), written
  before the processor exists, is not modelled. The end time and duration
  lines of the summary are left out.
- `Tables.Table.PrintHeader`: when a column name throws, the cells
  written before it (Table.cs:24-25) are dropped; the model keeps only
  the exception.
- `Dispatch.Dispatcher.constructor`: an exception from the table
  printer's constructor happens before the `using` block, so in the
  source nothing is disposed and no summary is printed. In the model,
  `Finish` still disposes the processor after a failure, but disposing a
  table printer writes nothing, so the output is the same.
- `Dispatch.Dispatcher.ProcessEvent`: when a processor throws, the text it
  had written before the exception is dropped (`Table.PrintRow` writes
  cell by cell), and the run stops: `failure` is set and no further event
  is accepted.
- The empty `Dispose` methods of the two printers are not modelled as
  members. They write nothing, so `DisposeProcessor` does nothing for
  them.
- Line breaks: `Console.WriteLine` ends a line with `Environment.NewLine`,
  which is "\r\n" on Windows. The model writes "\n" instead, in
  `Tables.Table.PrintHeader`, `Tables.Table.PrintRow`,
  `Processors.EveryEventPrinter.TakeEvent`,
  `Processors.EveryEventPrinter.TakeDescribedEvent` and the functions
  that specify them (`Tables.HeaderText`, `Tables.RowText`,
  `Dispatch.Consumed`). The summary and the count tables are structured
  `Output` values, so their line breaks do not appear. The "\n" that
  `AsRawString` puts before each field line is a literal in the source
  and is modelled as it is.
- `Program.TakeEvent` tests the description for `null`; the model passes
  an `Option`. The processor reference tested in `CloseSession` is never
  null once created, so that test is not modelled.
