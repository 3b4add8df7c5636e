# Automated data pipeline: a verified model

The system runs a four-step order pipeline against a relational database:

1. **Data Pull** reads a CSV or JSON file and lands its rows in `Landing_Orders`.
2. **Extract** normalises them into `Staging_Orders`. It trims values, skips rows with no OrderId, defaults the customer to `UNKNOWN`, parses amounts and dates.
3. **Transform** gives each row an amount category in `Staging_Orders_Transformed`.
4. **Migrate** upserts the rows into `Target_Orders` by OrderId.

Each run is recorded in `PipelineRuns` and has four `StepRuns` rows and a stream of `PipelineLogs` lines.

Two orchestrators are modelled:

- **Java runner.** It allocates the run and its step rows, executes the steps in the background and honours cancel requests between steps. On a failure it marks the step that was Running and finishes the run.
- **JavaScript runner.** It is a simpler twin with its own step implementations.

Around them sit:

- the schedule engine, which computes the next daily, weekly or monthly slot, polls for due schedules and creates, updates and deletes them;
- the connection settings and schema set-up, including the RunNumber backfill;
- the row-level progress writer;
- the servlet logic that works on stored runs: the 6-hour lazy timeout, cancel requests, the log limit, JSON escaping, body-field coercions and connection overrides.

## Model structure

- **Tables as values.** `Store` holds the three run tables as values (`Db`). A `Store` object owns them and its methods update one row at a time.
- **Specifications and methods.** Each orchestrator operation has a specification function over the tables. A method with the source's loop or sequence of updates is proved equal to it. Lemmas then prove what the source promises about the specification: every step Success after a clean run, exactly one step marked on a failure, nothing marked on a cancel, no step ever left Running, and so on.
- **Steps.** The step executors are methods over the selected rows (`seq`). They return what they insert or load, the batches they execute (`Flushed`: every row in exactly one batch, in order, all full except the last) and the progress counts they report. Each is tied to a reference function on the input (`Extracted`, `Transformed`, `UpsertAll`), and lemmas prove the row-level rules about it.
- **Inputs as parameters.** Time, the environment, parsers the code delegates to, the outcome of each step, the server's answers to schema batches and concurrent cancel requests are all parameters. Cancel requests are the `arrivals` flags, one per point where the worker looks at the registry.

## Model

| member | source | states |
|---|---|---|
| JavaLang.Wrap32 | java_code/src/main/java/com/pipeline/ScheduleRunner.java:87 | Java int arithmetic: a result within the int range is unchanged by the wrap to 32 bits |
| JavaLang.JavaRem | java_code/src/main/java/com/pipeline/ScheduleRunner.java:87 | Java's `%`: the remainder of a non-negative dividend is in 0..b-1, that of a negative dividend in -(b-1)..0 |
| JavaLang.Trim | java_code/src/main/java/com/pipeline/steps/ExtractStep.java:73-75 | String.trim: the result has no char <= ' ' at either end and is no longer than the input |
| JavaLang.TrimIsMiddle | java_code/src/main/java/com/pipeline/steps/ExtractStep.java:73-75 | String.trim keeps a contiguous middle of the input, and everything it cuts before and after is <= ' ' |
| JavaLang.TrimNothing | java_code/src/main/java/com/pipeline/steps/ExtractStep.java:73-75 | a string whose ends are not blank is its own trim |
| JavaLang.TrimIdempotent | java_code/src/main/java/com/pipeline/steps/ExtractStep.java:73-75 | trimming twice is trimming once |
| JavaLang.TrimEmptyIffBlank | java_code/src/main/java/com/pipeline/steps/ExtractStep.java:33-36 | the trim is empty exactly when every character is <= ' ' (the `isEmpty()` skip test) |
| JavaLang.TrimKeepsChars | java_code/src/main/java/com/pipeline/steps/ExtractStep.java:73-75 | every character of the trim occurs in the input |
| JavaLang.TrimStart | java_code/src/main/java/com/pipeline/steps/ExtractStep.java:73-75 | the leading part removed is all blank and the result does not start with a blank |
| JavaLang.TrimEnd | java_code/src/main/java/com/pipeline/steps/ExtractStep.java:73-75 | the result is a prefix, the trailing part removed is all blank, and the result does not end with a blank |
| JavaLang.LowerChar | java_code/src/main/java/com/pipeline/servlet/ApiServlet.java:256 | ASCII upper-case letters move down by 32, every other character is unchanged |
| JavaLang.ToLower | java_code/src/main/java/com/pipeline/servlet/ApiServlet.java:256 | same length, each character lowered on its own |
| JavaLang.LastIndexOf | java_code/src/main/java/com/pipeline/servlet/ApiServlet.java:256 | -1 or an index holding the character, with no occurrence after it |
| JavaLang.CommaPieces | java_code/src/main/java/com/pipeline/steps/PullStep.java:34 | at least one piece, and the last piece is non-empty when the text does not end in a comma |
| JavaLang.CommaPiecesFacts | java_code/src/main/java/com/pipeline/steps/PullStep.java:34 | no piece contains a comma, and there is one piece more than there are commas |
| JavaLang.DropTrailingEmpty | java_code/src/main/java/com/pipeline/steps/PullStep.java:34 | keeps a prefix that does not end in an empty piece, dropping only empty pieces |
| JavaLang.SplitComma | java_code/src/main/java/com/pipeline/steps/PullStep.java:34 | String.split(","): the whole text without a comma, otherwise the pieces with trailing empty ones removed |
| JavaLang.SplitCommaKeepsInner | java_code/src/main/java/com/pipeline/steps/PullStep.java:34 | a header line that does not end in a comma keeps every piece, with one header per comma plus one |
| JavaLang.ParseInt | java_code/src/main/java/com/pipeline/servlet/ApiServlet.java:330-336 | Integer.parseInt as an Option: the empty text never parses |
| JavaLang.ParseIntExamples | java_code/src/main/java/com/pipeline/Database.java:52 | "1433" parses to 1433 and "-7" to -7 |
| JavaLang.ParseIntRejects | java_code/src/main/java/com/pipeline/servlet/ApiServlet.java:330-336 | a leading blank, the empty text and a lone sign throw NumberFormatException (None) |
| JavaLang.ParseIntOverflow | java_code/src/main/java/com/pipeline/servlet/ApiServlet.java:330-336 | one past Integer.MAX_VALUE does not parse |
| FileNames.FileExtension | java_code/src/main/java/com/pipeline/servlet/ApiServlet.java:256 | without a dot the caller's default; with one, the lower-cased suffix from the last dot, which starts with the dot and holds no other |
| FileNames.NoDotDefaults | java_code/src/main/java/com/pipeline/servlet/ApiServlet.java:637-638 | a dotless name passes as CSV where the default is ".csv" (upload, pull) and is refused where it is "" (server file) |
| FileNames.UpperCaseSuffix | java_code/src/main/java/com/pipeline/servlet/ApiServlet.java:302-303 | "a.CSV" has the extension ".csv" |
| FileNames.LastDotCounts | java_code/src/main/java/com/pipeline/steps/PullStep.java:28 | "a.csv.txt" has the extension ".txt" |
| Store.FinishRun | java_code/src/main/java/com/pipeline/PipelineRunner.java:269-277 | markRunFinished: the run gets the status and FinishedAt whatever it had; every other run, every step and every log line is kept |
| Store.FinishRunIfRunning | java_code/src/main/java/com/pipeline/servlet/ApiServlet.java:399 | the guarded UPDATE: it acts like markRunFinished on a Running run and changes nothing otherwise |
| Store.StartStep | java_code/src/main/java/com/pipeline/PipelineRunner.java:279-287 | updateStepRunning: that step becomes Running with StartedAt; every other row is kept |
| Store.SetStepResult | java_code/src/main/java/com/pipeline/PipelineRunner.java:289-299 | the result UPDATE of one step row: status, FinishedAt, RowsAffected and ErrorMessage set, all else kept |
| Store.FinishStep | java_code/src/main/java/com/pipeline/PipelineRunner.java:289-299 | updateStepSuccess: the status is Failed exactly when a message is given and Success otherwise; the message, row count and finish time are written to that step; runs, logs and every other step are unchanged |
| Store.SetProgress | java_code/src/main/java/com/pipeline/StepProgress.java:32-39 | RowsProcessed and RowsTotal of one step row set, everything else kept |
| Store.AddLog | java_code/src/main/java/com/pipeline/PipelineLogger.java:15-35 | one log line appended, the run and step tables unchanged |
| Store.StepNumbersOf | java_code/src/main/java/com/pipeline/PipelineRunner.java:239-253 | loadSteps: at most four stored step numbers of the run, and exactly [1, 2, 3, 4] when there are four |
| Store.Store.constructor | java_code/src/main/java/com/pipeline/PipelineRunner.java:59-60 | empty tables |
| Store.Store.Log | java_code/src/main/java/com/pipeline/PipelineLogger.java:23-34 | the state afterwards is AddLog of the state before |
| Store.Store.MarkRunFinished | java_code/src/main/java/com/pipeline/PipelineRunner.java:269-277 | the state afterwards is FinishRun of the state before |
| Store.Store.MarkRunFinishedIfRunning | java_code/src/main/java/com/pipeline/servlet/ApiServlet.java:530-535 | the state afterwards is FinishRunIfRunning of the state before |
| Store.Store.UpdateStepRunning | java_code/src/main/java/com/pipeline/PipelineRunner.java:279-287 | the state afterwards is StartStep of the state before |
| Store.Store.UpdateStepResult | java_code/src/main/java/com/pipeline/PipelineRunner.java:289-299 | the state afterwards is SetStepResult of the state before |
| Store.Store.UpdateProgress | java_code/src/main/java/com/pipeline/StepProgress.java:32-39 | the state afterwards is SetProgress of the state before |
| Store.Store.InsertRun | java_code/src/main/java/com/pipeline/PipelineRunner.java:78-87 | the run row is stored under its id; the step and log tables are unchanged |
| Store.Store.InsertStep | java_code/src/main/java/com/pipeline/PipelineRunner.java:89-98 | the step row is stored under its key; the run and log tables are unchanged |
| CancelRegistry.AfterCancel | java_code/src/main/java/com/pipeline/PipelineRunner.java:42-44 | a non-empty id is added to the set; a null or empty one is ignored |
| CancelRegistry.CancelIdempotent | java_code/src/main/java/com/pipeline/PipelineRunner.java:41-44 | requesting a cancellation twice is requesting it once |
| CancelRegistry.CancelThenCancelled | java_code/src/main/java/com/pipeline/PipelineRunner.java:42-49 | a cancelled non-empty id is then seen as cancelled, no other id changes, and a null id is never cancelled |
| CancelRegistry.Registry.constructor | java_code/src/main/java/com/pipeline/PipelineRunner.java:39 | the registry starts empty |
| CancelRegistry.Registry.Cancel | java_code/src/main/java/com/pipeline/PipelineRunner.java:42-44 | the ids afterwards are AfterCancel of the ids before |
| CancelRegistry.Registry.IsCancelled | java_code/src/main/java/com/pipeline/PipelineRunner.java:47-49 | true exactly when the id is non-null and registered |
| CancelRegistry.Registry.Remove | java_code/src/main/java/com/pipeline/PipelineRunner.java:158 | exactly that id is dropped |
| StepProgress.NoUpdateBeforeFirstRow | java_code/src/main/java/com/pipeline/StepProgress.java:49-51 | no report for a count of zero or less |
| StepProgress.SmallCountsUpdate | java_code/src/main/java/com/pipeline/StepProgress.java:49-51 | every count from 1 to 9999 is reported |
| StepProgress.LargeCountsOnMultiples | java_code/src/main/java/com/pipeline/StepProgress.java:10-51 | from 10000 on, a count is reported exactly when it is a multiple of 10000 |
| StepProgress.ShouldUpdate | java_code/src/main/java/com/pipeline/StepProgress.java:49-51 | the cadence rule, a definition; NoUpdateBeforeFirstRow, SmallCountsUpdate and LargeCountsOnMultiples state when it reports |
| StepProgress.Update | java_code/src/main/java/com/pipeline/StepProgress.java:25-46 | nothing changes for a null run id or a failed write (swallowed); otherwise the progress UPDATE of that run's step row |
| StepProgress.ProgressLastWins | java_code/src/main/java/com/pipeline/StepProgress.java:32-39 | two progress writes to the same step row leave exactly what the later one alone would have written |
| StepProgress.ProgressRowsCommute | java_code/src/main/java/com/pipeline/StepProgress.java:32-39 | progress writes to two different step rows commute |
| Batching.BoundaryCalls | java_code/src/main/java/com/pipeline/steps/ExtractStep.java:56-62 | the reports after full batches: each allowed by shouldUpdate, positive, within the rows so far, strictly increasing |
| Batching.Start | java_code/src/main/java/com/pipeline/steps/ExtractStep.java:26-31 | before the first row nothing is batched or reported |
| Batching.AddRow | java_code/src/main/java/com/pipeline/steps/ExtractStep.java:54-62 | one added row stays pending until the batch reaches BatchSize; then the batch is executed and reported when shouldUpdate allows it |
| Batching.Finish | java_code/src/main/java/com/pipeline/steps/ExtractStep.java:64-67 | the remainder executed when non-empty gives every row in exactly one batch, in order; the final report completes the step's report list |
| Batching.AddToBatch | java_code/src/main/java/com/pipeline/steps/ExtractStep.java:54-62 | the loop's batch state grows by the row; `executed` tells whether a full batch was sent |
| Batching.FlushBatch | java_code/src/main/java/com/pipeline/steps/ExtractStep.java:64-67 | after the loop every row is in exactly one executed batch, and the reports are the step's whole report list |
| Batching.AddToCheckedBatch | java_code/src/main/java/com/pipeline/steps/TransformStep.java:44-52 | with a column constraint: an accepted batch keeps the loop state; a rejected one holds the row, and nothing is executed or reported |
| Batching.FlushCheckedBatch | java_code/src/main/java/com/pipeline/steps/TransformStep.java:54-57 | the remainder accepted makes every row flushed and every row acceptable; a rejected remainder leaves the executed batches and reports as they were |
| Batching.AddToBatchByCount | java_code/src/main/java/com/pipeline/steps/PullStep.java:79-86 | the pull step's `n % batchSize == 0` test keeps the batch invariant the counting form keeps |
| Batching.FlushByCount | java_code/src/main/java/com/pipeline/steps/PullStep.java:88-91 | after the `n % batchSize != 0` flush every row is in exactly one executed batch, and the reports are the step's report list |
| Batching.ModOfBatches | java_code/src/main/java/com/pipeline/steps/PullStep.java:81 | a count past full batches is a multiple of BatchSize exactly when the last batch is full |
| Batching.FullIffMultiple | java_code/src/main/java/com/pipeline/steps/PullStep.java:81-88 | the row count is a multiple of BatchSize exactly when nothing is pending |
| Batching.ProgressCallsSound | java_code/src/main/java/com/pipeline/steps/MigrateStep.java:48-56 | every reported count is allowed by shouldUpdate and at most the total, in non-decreasing order |
| Batching.FinalCallIffDue | java_code/src/main/java/com/pipeline/steps/MigrateStep.java:54-56 | the last report carries the total exactly when shouldUpdate(total) holds |
| Batching.ProgressExample | java_code/src/main/java/com/pipeline/steps/ExtractStep.java:56-67 | 25000 rows are reported at 2000 to 10000 and at 20000, never with 25000 |
| Batching.ProgressRepeatsOnInterval | java_code/src/main/java/com/pipeline/steps/ExtractStep.java:59-67 | 10000 rows are reported twice with 10000; 3500 rows at 2000 and 3500; 0 rows never |
| Batching.FirstFiveBatches | java_code/src/main/java/com/pipeline/steps/ExtractStep.java:56-62 | the first five full batches are reported at 2000, 4000, ..., 10000 |
| Orders.Where | java_code/src/main/java/com/pipeline/steps/ExtractStep.java:24 | `WHERE RunId = ?`: only matching rows, and every matching row |
| Orders.FilterMap | java_code/src/main/java/com/pipeline/steps/ExtractStep.java:32-34 | at most one output row per read row |
| Orders.FilterMapFrom | java_code/src/main/java/com/pipeline/steps/ExtractStep.java:32-54 | every output row is the image of a read row, and every read row with an image is output |
| Orders.FilterMapKeepsAll | java_code/src/main/java/com/pipeline/steps/ExtractStep.java:33-34 | no row is dropped exactly when every read row has an image |
| Orders.UpsertAllAppend | java_code/src/main/java/com/pipeline/steps/MigrateStep.java:45-53 | upserting two runs of rows in turn is upserting them together, so the batch boundaries do not matter |
| Orders.UpsertAll | java_code/src/main/java/com/pipeline/steps/MigrateStep.java:13-18 | the MERGE over source rows in order, a definition; UpsertKeys, UpsertKeepsOthers, UpsertLastWins and UpsertAllAppend state its result |
| Orders.OrderIds | java_code/src/main/java/com/pipeline/steps/MigrateStep.java:16 | exactly the OrderIds the source rows carry |
| Orders.UpsertKeys | java_code/src/main/java/com/pipeline/steps/MigrateStep.java:13-18 | the target afterwards holds its old keys and every source OrderId, and no other |
| Orders.UpsertKeepsOthers | java_code/src/main/java/com/pipeline/steps/MigrateStep.java:16-17 | a target row whose OrderId no source row carries is untouched |
| Orders.UpsertLastWins | java_code/src/main/java/com/pipeline/steps/MigrateStep.java:16-18 | the target holds a source row's columns when no later source row has its OrderId |
| Orders.DuplicateLastWins | python_code/orchestrator/steps/migrate.js:7-16 | of two rows with one OrderId, the later one is what the target keeps |
| PullStep.CsvFields | java_code/src/main/java/com/pipeline/steps/PullStep.java:116-130 | one field per ended field plus the last |
| PullStep.ScanInvariant | java_code/src/main/java/com/pipeline/steps/PullStep.java:120-127 | after any prefix: inside quotes exactly after an odd number of quotes, one field per separator, and no quote or surrounding blank in any field |
| PullStep.ScanChar | java_code/src/main/java/com/pipeline/steps/PullStep.java:120-127 | one character: a newline, or a comma outside quotes, appends exactly one field and nothing else does; earlier fields are never altered; only a quote flips the quoted state |
| PullStep.CsvFieldsFacts | java_code/src/main/java/com/pipeline/steps/PullStep.java:116-130 | one field more than there are separators (newlines and commas outside quotes), none holding a quote or surrounding blanks |
| PullStep.TrimAll | java_code/src/main/java/com/pipeline/steps/PullStep.java:124 | one trimmed piece per piece |
| PullStep.NoQuotesIsSplit | java_code/src/main/java/com/pipeline/steps/PullStep.java:116-130 | without quotes or newlines, parseCsvLine is a split on every comma, empty pieces kept, each trimmed |
| PullStep.QuotedCommaKept | java_code/src/main/java/com/pipeline/steps/PullStep.java:122-126 | `"a,b",c` gives the fields `a,b` and `c` |
| PullStep.ParseCsvLine | java_code/src/main/java/com/pipeline/steps/PullStep.java:116-130 | the character loop returns CsvFields of the line |
| PullStep.LookupFirst | java_code/src/main/java/com/pipeline/steps/PullStep.java:98-102 | the value is the trimmed field under the first header that names the key and has a value |
| PullStep.LookupFrom | java_code/src/main/java/com/pipeline/steps/PullStep.java:98-102 | the inner header loop of getVal, a definition; LookupFirst, LookupNone and GetValOrigin state its result |
| PullStep.GetVal | java_code/src/main/java/com/pipeline/steps/PullStep.java:96-106 | the key loop of getVal, a definition; GetValOrigin and CaseVariantKeyUnused state its result |
| PullStep.LookupNone | java_code/src/main/java/com/pipeline/steps/PullStep.java:96-105 | nothing is found exactly when no header with a value names the key |
| PullStep.GetValOrigin | java_code/src/main/java/com/pipeline/steps/PullStep.java:96-106 | a found value is the trim of one of the line's fields |
| PullStep.CaseVariantKeyUnused | java_code/src/main/java/com/pipeline/steps/PullStep.java:96-106 | a second key that differs only in case finds what the first one found, so it is never used |
| PullStep.StepKeysAreCaseVariants | java_code/src/main/java/com/pipeline/steps/PullStep.java:39-42 | each key pair the step passes is one name in two cases |
| PullStep.GetFirst | java_code/src/main/java/com/pipeline/steps/PullStep.java:108-114 | the member of the first key present wins |
| PullStep.GetNone | java_code/src/main/java/com/pipeline/steps/PullStep.java:108-114 | nothing is found exactly when no key is present |
| PullStep.Get | java_code/src/main/java/com/pipeline/steps/PullStep.java:108-114 | null exactly when none of the keys is present; otherwise the member of one of the keys that are present |
| PullStep.CsvRowsOf | java_code/src/main/java/com/pipeline/steps/PullStep.java:35-46 | one landing row per data line |
| PullStep.CsvRow | java_code/src/main/java/com/pipeline/steps/PullStep.java:36-45 | the landing row of one CSV line, a definition; PulledCsv, CsvValueClean and ReadCsvLine state its columns |
| PullStep.JsonRow | java_code/src/main/java/com/pipeline/steps/PullStep.java:54-59 | the landing row of one JSON object, a definition; PulledJson and JsonKeyPrecedence state its columns |
| PullStep.Pulled | java_code/src/main/java/com/pipeline/steps/PullStep.java:24-64 | the rows the step lands, a definition; PulledCsv, PulledJson and PulledNothing state them |
| PullStep.FileName | java_code/src/main/java/com/pipeline/steps/PullStep.java:26-27 | a suffix of the path that holds no '/' and is either the whole path or starts right after a '/' |
| PullStep.PulledCsv | java_code/src/main/java/com/pipeline/steps/PullStep.java:31-46 | a CSV file lands one row per line after the header, each with the run id, source type CSV and no raw payload |
| PullStep.PulledJson | java_code/src/main/java/com/pipeline/steps/PullStep.java:47-63 | a JSON file lands one row per object, each with the run id, source type JSON and the object's JSON text |
| PullStep.PulledNothing | java_code/src/main/java/com/pipeline/steps/PullStep.java:24-64 | nothing is landed exactly for a null or empty path, a CSV file without data lines, a JSON null or empty list, or another extension |
| PullStep.CsvValueClean | java_code/src/main/java/com/pipeline/steps/PullStep.java:99-101 | a CSV value is trimmed and holds no quote |
| PullStep.JsonKeyPrecedence | java_code/src/main/java/com/pipeline/steps/PullStep.java:54-59 | the capitalised key's member when present, else the lower-case one's, else null |
| PullStep.ReadCsvLine | java_code/src/main/java/com/pipeline/steps/PullStep.java:36-45 | the row built from one data line is CsvRow of it |
| PullStep.ReadCsv | java_code/src/main/java/com/pipeline/steps/PullStep.java:31-46 | the loop over lines 1.. builds exactly CsvRows of the file |
| PullStep.ReadJson | java_code/src/main/java/com/pipeline/steps/PullStep.java:51-63 | the loop over the list builds exactly JsonRows of it |
| PullStep.InsertRows | java_code/src/main/java/com/pipeline/steps/PullStep.java:66-92 | every row is inserted in exactly one executed batch, in order, and the reports are the step's report list |
| PullStep.Run | java_code/src/main/java/com/pipeline/steps/PullStep.java:24-94 | returns the number of rows landed; those rows are flushed in batches and reported as the batching rule says |
| ExtractStep.TrimOrNull | java_code/src/main/java/com/pipeline/steps/ExtractStep.java:73-75 | null stays null, a value stays a value |
| ExtractStep.KeptOrderId | java_code/src/main/java/com/pipeline/steps/ExtractStep.java:33-34 | a kept OrderId is the non-empty trim of the stored one |
| ExtractStep.CustomerOf | java_code/src/main/java/com/pipeline/steps/ExtractStep.java:35-36 | the customer id written is never empty |
| ExtractStep.AmountOf | java_code/src/main/java/com/pipeline/steps/ExtractStep.java:37-41 | 0 for a null or empty Amount and for one whose trim does not parse; otherwise the parsed value of the trim |
| ExtractStep.DateOf | java_code/src/main/java/com/pipeline/steps/ExtractStep.java:42-48 | null for a null or blank OrderDate; a date only as the parse of the trimmed text |
| ExtractStep.Normalize | java_code/src/main/java/com/pipeline/steps/ExtractStep.java:32-54 | a landing row is skipped exactly when its OrderId is null or blank; a kept row carries the run id, the trimmed OrderId, a non-empty CustomerId and the Amount and OrderDate rules' values |
| ExtractStep.Extracted | java_code/src/main/java/com/pipeline/steps/ExtractStep.java:32-63 | at most one staging row per landing row |
| ExtractStep.OrderIdRule | java_code/src/main/java/com/pipeline/steps/ExtractStep.java:33-34 | a row is skipped exactly when its OrderId is null or all blank; a kept one is trimmed |
| ExtractStep.CustomerRule | java_code/src/main/java/com/pipeline/steps/ExtractStep.java:35-36 | UNKNOWN exactly for a null, blank or literal UNKNOWN customer; any other is trimmed |
| ExtractStep.AmountRule | java_code/src/main/java/com/pipeline/steps/ExtractStep.java:37-41 | 0 for a null, empty or unparsable amount, otherwise the parsed trimmed text |
| ExtractStep.DateRule | java_code/src/main/java/com/pipeline/steps/ExtractStep.java:42-48 | a date is kept, ISO-normalised, exactly when it is present, not blank and parses |
| ExtractStep.ExtractedFromLanding | java_code/src/main/java/com/pipeline/steps/ExtractStep.java:32-54 | every inserted row is the normal form of a landing row, and every landing row that is not skipped is inserted |
| ExtractStep.ExtractedKeepsAll | java_code/src/main/java/com/pipeline/steps/ExtractStep.java:33-34 | every landing row is inserted exactly when none has a null or blank OrderId |
| ExtractStep.Run | java_code/src/main/java/com/pipeline/steps/ExtractStep.java:16-71 | the total is the landing count; the returned count is the number of rows inserted, at most the total; those rows are flushed in batches; the reports follow the batching rule |
| TransformStep.CategoryBands | java_code/src/main/java/com/pipeline/steps/TransformStep.java:32-37 | below 0 the marker, [0, 50) Low, [50, 200) Medium, from 200 High, each band in both directions |
| TransformStep.Category | java_code/src/main/java/com/pipeline/steps/TransformStep.java:32-37 | the category rule, a definition; CategoryBands and CategoryMonotone state it |
| TransformStep.CategoryMonotone | java_code/src/main/java/com/pipeline/steps/TransformStep.java:36 | for non-negative amounts the category never falls as the amount grows |
| TransformStep.FitsIffNonNegative | java_code/src/main/java/com/pipeline/steps/TransformStep.java:33-34 | the marker has 37 characters, so a category fits NVARCHAR(32) exactly when the amount is non-negative |
| TransformStep.Transform | java_code/src/main/java/com/pipeline/steps/TransformStep.java:38-43 | the inserted row copies OrderId, CustomerId, Amount and OrderDate, and adds the amount's category |
| TransformStep.Transformed | java_code/src/main/java/com/pipeline/steps/TransformStep.java:30-53 | one inserted row per staging row |
| TransformStep.TransformedAt | java_code/src/main/java/com/pipeline/steps/TransformStep.java:30-44 | inserted row i is the transform of staging row i |
| TransformStep.TransformedCopies | java_code/src/main/java/com/pipeline/steps/TransformStep.java:38-43 | every inserted row copies its staging row's columns and adds its category |
| TransformStep.ReadRow | java_code/src/main/java/com/pipeline/steps/TransformStep.java:30-52 | one loop pass either keeps the loop state or ends at a rejected batch holding a negative amount |
| TransformStep.ReadRows | java_code/src/main/java/com/pipeline/steps/TransformStep.java:28-53 | the read loop adds every row, or leaves at a rejected batch, and the reports are then those of the executed batches |
| TransformStep.EndOfRows | java_code/src/main/java/com/pipeline/steps/TransformStep.java:54-60 | the step completes exactly when no amount is negative, with every transformed row flushed; otherwise it stops at a rejected batch, and the reports are those of the executed batches |
| TransformStep.Run | java_code/src/main/java/com/pipeline/steps/TransformStep.java:14-61 | the step returns a count exactly when no staging amount is negative; the count is then the staging row count, the rows are flushed and the reports follow the rule; otherwise the executed batches are full and accepted, the next batch holds a negative amount, and the reports are those of the executed batches, which StepProgress's own committed connection keeps |
| TransformStep.StoppedHasNegative | java_code/src/main/java/com/pipeline/steps/TransformStep.java:33-34 | a stopped step had a negative amount |
| TransformStep.Rejected | java_code/src/main/java/com/pipeline/steps/TransformStep.java:46-47 | a rejected batch follows accepted rows with non-negative amounts and holds a row with a negative amount |
| TransformStep.AllAccepted | java_code/src/main/java/com/pipeline/steps/TransformStep.java:54 | when every executed row fits the column, no amount was negative |
| MigrateStep.MergeRow | java_code/src/main/java/com/pipeline/steps/MigrateStep.java:37-51 | one loop pass keeps the target equal to the upsert of the executed batches |
| MigrateStep.Run | java_code/src/main/java/com/pipeline/steps/MigrateStep.java:22-60 | the returned count and the total are the number of rows read; the rows are flushed in batches; the reports follow the rule; the target afterwards is the upsert of the rows in read order |
| MigrateStep.MergeBatch | java_code/src/main/java/com/pipeline/steps/MigrateStep.java:45-53 | executing one more MERGE batch continues the upsert of the rows so far |
| JsExtract.JsTrimStart | python_code/orchestrator/steps/extract.js:12 | the leading part removed is all ECMAScript white space and the result does not start with one |
| JsExtract.JsTrimEnd | python_code/orchestrator/steps/extract.js:12 | a prefix whose removed tail is all white space, not ending with one |
| JsExtract.JsTrim | python_code/orchestrator/steps/extract.js:12 | the result starts and ends with a non-space |
| JsExtract.JsTrimEmptyIffBlank | python_code/orchestrator/steps/extract.js:12-13 | the trim is empty exactly when every character is white space |
| JsExtract.TrimsDiffer | python_code/orchestrator/steps/extract.js:12 | JavaScript trims a no-break space that Java keeps, and Java trims a control character that JavaScript keeps |
| JsExtract.Extracted | python_code/orchestrator/steps/extract.js:11-17 | at most one staging row per landing row |
| JsExtract.SkipRule | python_code/orchestrator/steps/extract.js:12-13 | a row is skipped exactly when its OrderId is null or all white space; a kept one is trimmed and non-empty |
| JsExtract.CustomerRule | python_code/orchestrator/steps/extract.js:16 | a null or blank CustomerId becomes UNKNOWN; any other is trimmed |
| JsExtract.AmountRule | python_code/orchestrator/steps/extract.js:15 | a null amount becomes 0; any other value, the empty string included, is converted |
| JsExtract.ParseDate | python_code/orchestrator/steps/extract.js:21-25 | null for a null or empty text; a date only as the parse of the text itself |
| JsExtract.Normalize | python_code/orchestrator/steps/extract.js:12-16 | a landing row is skipped exactly when its JavaScript-trimmed OrderId is empty; a kept row carries the run id, that OrderId, a non-empty CustomerId and the Amount and OrderDate values |
| JsExtract.DateGuardRedundant | python_code/orchestrator/steps/extract.js:14-25 | the caller's test only repeats parseDate's own; the date is null exactly for a null, empty or invalid value |
| JsExtract.ExtractedFromLanding | python_code/orchestrator/steps/extract.js:11-17 | every inserted row is the normal form of a landing row, and every row that is not skipped is inserted |
| JsExtract.CountIncludesSkipped | python_code/orchestrator/steps/extract.js:13-18 | the returned count includes skipped rows; it equals the number inserted exactly when none is skipped |
| JsExtract.RunExtract | python_code/orchestrator/steps/extract.js:5-19 | returns the landing row count and inserts exactly Extracted of the landing rows |
| JsTransform.JsCategoryBands | python_code/orchestrator/steps/transform.js:13 | below 50 Low, [50, 200) Medium, from 200 High; negative amounts are Low |
| JsTransform.JsCategory | python_code/orchestrator/steps/transform.js:13 | the JavaScript category rule, a definition; JsCategoryBands and AgreesWithJava state it |
| JsTransform.AgreesWithJava | python_code/orchestrator/steps/transform.js:13 | the JavaScript and Java categories agree exactly on non-negative amounts |
| JsTransform.Transformed | python_code/orchestrator/steps/transform.js:11-15 | one inserted row per staging row |
| JsTransform.TransformedAt | python_code/orchestrator/steps/transform.js:11-15 | inserted row i is the transform of staging row i |
| JsTransform.TransformedCopies | python_code/orchestrator/steps/transform.js:14 | row i copies the staging row's columns and carries its amount's category |
| JsTransform.SameAsJavaIffNonNegative | python_code/orchestrator/steps/transform.js:12-14 | the JavaScript step writes what the Java step writes exactly when no amount is negative |
| JsTransform.RunTransform | python_code/orchestrator/steps/transform.js:5-17 | returns the staging row count and inserts exactly Transformed of the staging rows |
| JsMigrate.UpsertOne | python_code/orchestrator/steps/migrate.js:7-16 | one statement inserts the row or overwrites the row with its OrderId |
| JsMigrate.RunMigrate | python_code/orchestrator/steps/migrate.js:5-21 | returns the source row count, duplicates included, and leaves the target as the upsert of the rows in order |
| Database.Setting | java_code/src/main/java/com/pipeline/Database.java:40-44 | the value set explicitly, else the environment's, else the default |
| Database.Settings.constructor | java_code/src/main/java/com/pipeline/Database.java:19-23 | no setting set explicitly |
| Database.Settings.Port | java_code/src/main/java/com/pipeline/Database.java:48-55 | the set port, else the trimmed DB_PORT when it parses, else 1433 |
| Database.Settings.SetHost | java_code/src/main/java/com/pipeline/Database.java:46 | sets the host (null clears it) and no other setting |
| Database.Settings.SetPort | java_code/src/main/java/com/pipeline/Database.java:57 | sets the port and no other setting |
| Database.Settings.SetUser | java_code/src/main/java/com/pipeline/Database.java:65 | sets the user and no other setting |
| Database.Settings.SetPassword | java_code/src/main/java/com/pipeline/Database.java:73 | sets the password and no other setting |
| Database.Settings.SetDatabaseName | java_code/src/main/java/com/pipeline/Database.java:81 | sets the database name and no other setting |
| Database.Settings.SetLandingDir | java_code/src/main/java/com/pipeline/Database.java:83 | sets the landing directory and no other setting |
| Database.Settings.Resolve | java_code/src/main/java/com/pipeline/Database.java:106-114 | a host or user override is used, trimmed, when its trim is non-empty; a port or password override whenever given; everything else from the settings |
| Database.Settings.OverrideResolution | java_code/src/main/java/com/pipeline/Database.java:98-114 | with no override both entry points reach the same target; a blank host override falls back while an empty password is used |
| Database.Settings.Connect | java_code/src/main/java/com/pipeline/Database.java:98-114 | the target a caller connects to, a definition; OverrideResolution and ApiServlet.TriggerOverrideEffect state it |
| Database.BackfilledUpTo | java_code/src/main/java/com/pipeline/Database.java:168-174 | numbering leaves the step and log tables and the set of runs unchanged |
| Database.BackfillRunNumbers | java_code/src/main/java/com/pipeline/Database.java:166-175 | the loop leaves the tables as numbering the whole creation order does |
| Database.BackfillRange | java_code/src/main/java/com/pipeline/Database.java:166-174 | afterwards the run numbers are 1..n, and the k-th oldest run holds k |
| Database.BackfillDistinct | java_code/src/main/java/com/pipeline/Database.java:166-174 | no two runs share a number after the backfill |
| Database.BackfillFollowsCreation | java_code/src/main/java/com/pipeline/Database.java:166 | a run created earlier gets a smaller number |
| Database.BatchesOutcome | java_code/src/main/java/com/pipeline/Database.java:201-210 | a batch loop never reports a missing schema |
| Database.BatchesSent | java_code/src/main/java/com/pipeline/Database.java:202-206 | no more batches are sent than there are |
| Database.SentAreTrimmed | java_code/src/main/java/com/pipeline/Database.java:203-206 | every batch sent is trimmed and not blank |
| Database.BatchStep | java_code/src/main/java/com/pipeline/Database.java:202-209 | a blank batch is skipped; a tolerated error continues; any other error stops the loop with its message, or as a crash when it has none |
| Database.BatchesOkIff | java_code/src/main/java/com/pipeline/Database.java:201-210 | the schema is accepted exactly when every batch passes |
| Database.Tolerated | java_code/src/main/java/com/pipeline/Database.java:208 | the two error texts a re-run of the schema is allowed to raise, a definition; BatchesOkIff and SchemaRejectedExample use it |
| Database.RunSchemaBatches | java_code/src/main/java/com/pipeline/Database.java:201-210 | the loop returns BatchesOutcome and sends BatchesSent |
| Database.InitSchema | java_code/src/main/java/com/pipeline/Database.java:150-214 | a missing schema fails with nothing changed; otherwise runs are backfilled when RunNumber is missing and the outcome is that of the batches |
| Database.SchemaExamples | java_code/src/main/java/com/pipeline/Database.java:208 | an "already exists" message is tolerated |
| Database.SchemaRejectedExample | java_code/src/main/java/com/pipeline/Database.java:203-208 | a blank batch is skipped and an untolerated error stops the set-up with its message |
| Database.SchemaCrashedExample | java_code/src/main/java/com/pipeline/Database.java:208 | an error without message has no text to match, so the set-up crashes |
| Calendar.DaysInMonth | java_code/src/main/java/com/pipeline/ScheduleRunner.java:98 | lengthOfMonth is between 28 and 31 |
| Calendar.DayOfWeek | java_code/src/main/java/com/pipeline/ScheduleRunner.java:86 | `getDayOfWeek().getValue() % 7` is in 0..6, Sunday 0 |
| Calendar.NextMonthYear | java_code/src/main/java/com/pipeline/ScheduleRunner.java:101 | plusMonths(1) gives a valid month |
| Calendar.StampOrder | java_code/src/main/java/com/pipeline/ScheduleRunner.java:90 | date-times order by date first, then by minute |
| Calendar.NextDayIsSuccessor | java_code/src/main/java/com/pipeline/ScheduleRunner.java:107 | plusDays(1) is a valid date one day later |
| Calendar.AddDaysNumber | java_code/src/main/java/com/pipeline/ScheduleRunner.java:92 | plusDays(n) moves the day number by exactly n |
| Calendar.PrevDayIsPredecessor | java_code/src/main/java/com/pipeline/ScheduleRunner.java:92 | minusDays(1) is a valid date one day earlier |
| Calendar.SubDaysNumber | java_code/src/main/java/com/pipeline/ScheduleRunner.java:92 | going back n days moves the day number by exactly -n |
| Calendar.PlusDaysNumber | java_code/src/main/java/com/pipeline/ScheduleRunner.java:92 | plusDays(n) for any n, negative included, moves the day number by exactly n |
| Calendar.WeekdayShift | java_code/src/main/java/com/pipeline/ScheduleRunner.java:86-92 | moving k days moves the weekday by k modulo 7 |
| Calendar.NextMonthIsLater | java_code/src/main/java/com/pipeline/ScheduleRunner.java:100-103 | every day of next month is after every day of this month |
| ScheduleRunner.ParseHourMinute | java_code/src/main/java/com/pipeline/ScheduleRunner.java:77 | a parsed time is a minute of the day |
| ScheduleRunner.RunMinute | java_code/src/main/java/com/pipeline/ScheduleRunner.java:75-80 | a null time means 00:00, an unparsable one midnight, otherwise the parsed minute |
| ScheduleRunner.RunMinuteExamples | java_code/src/main/java/com/pipeline/ScheduleRunner.java:77 | "07:30" is minute 450, "23:59" 1439, "00:00" 0 |
| ScheduleRunner.RunMinuteRejects | java_code/src/main/java/com/pipeline/ScheduleRunner.java:78-79 | "7:30" and "12:60" fall back to midnight |
| ScheduleRunner.DailyNext | java_code/src/main/java/com/pipeline/ScheduleRunner.java:105-108 | strictly after the anchor, at the run minute, today or tomorrow, within a day |
| ScheduleRunner.DailyNextIsEarliest | java_code/src/main/java/com/pipeline/ScheduleRunner.java:105-108 | no slot at the run minute lies strictly between the anchor and the result |
| ScheduleRunner.WeeklyWithOffset | java_code/src/main/java/com/pipeline/ScheduleRunner.java:88-93 | the weekly rule for a known day offset gives a valid date-time at the run minute |
| ScheduleRunner.WeeklyWithOffsetFacts | java_code/src/main/java/com/pipeline/ScheduleRunner.java:88-93 | for an offset 0..6: after the anchor, within a week, on the shifted weekday, a week on when today's slot has passed |
| ScheduleRunner.OffsetReachesTarget | java_code/src/main/java/com/pipeline/ScheduleRunner.java:87 | the floor-modulus offset is 0..6 and reaches the target weekday |
| ScheduleRunner.WeeklyNext | java_code/src/main/java/com/pipeline/ScheduleRunner.java:83-94 | the intended rule: strictly after the anchor, on the target weekday, at the run minute, within a week |
| ScheduleRunner.WeeklyNextIsEarliest | java_code/src/main/java/com/pipeline/ScheduleRunner.java:83-94 | no slot on the target weekday lies strictly between the anchor and the result |
| ScheduleRunner.WeeklyNextAsWritten | java_code/src/main/java/com/pipeline/ScheduleRunner.java:84-93 | the rule as written, with Java's int `%`: a valid date-time at the run minute |
| ScheduleRunner.WeeklyAsWrittenAgrees | java_code/src/main/java/com/pipeline/ScheduleRunner.java:87 | for targets from -1 up, below overflow, the code as written gives the intended result |
| ScheduleRunner.AsWrittenOffset | java_code/src/main/java/com/pipeline/ScheduleRunner.java:87 | without a negative numerator or overflow, the truncating remainder is the floor modulus |
| ScheduleRunner.ClampDayOfMonth | java_code/src/main/java/com/pipeline/ScheduleRunner.java:96 | 1 when null, otherwise the value clamped to 1..31 |
| ScheduleRunner.MonthSlot | java_code/src/main/java/com/pipeline/ScheduleRunner.java:98 | the day of the month, cut to the month's length, is a valid date-time |
| ScheduleRunner.MonthlyNext | java_code/src/main/java/com/pipeline/ScheduleRunner.java:95-104 | strictly after the anchor, at the run minute, on the clamped day cut to the month's length, in this month exactly when this month's slot is still ahead, otherwise next month |
| ScheduleRunner.ComputeNextRun | java_code/src/main/java/com/pipeline/ScheduleRunner.java:74-111 | the next run, with the weekly offset corrected, is strictly after the anchor and at the run minute |
| ScheduleRunner.ComputeNextRunAsWritten | java_code/src/main/java/com/pipeline/ScheduleRunner.java:74-111 | computeNextRun as written is at the run minute and differs from the corrected one only for "weekly" |
| ScheduleRunner.WeeklyAsWrittenGoesBack | java_code/src/main/java/com/pipeline/ScheduleRunner.java:84-92 | on Saturday 2000-01-01 with DayOfWeek -2, the weekly rule as written is not after its anchor |
| ScheduleRunner.WeekdayInRange | java_code/src/main/java/com/pipeline/ScheduleRunner.java:87 | the rows on which the offset as written lies in 0..6, a definition: every type but weekly, and a weekly DayOfWeek (null read as 0) in -1 .. Integer.MAX_VALUE - 7; no caller range-checks DayOfWeek |
| ScheduleRunner.AsWrittenInRange | java_code/src/main/java/com/pipeline/ScheduleRunner.java:74-111 | on those rows computeNextRun as written gives the same next run as the corrected ComputeNextRun |
| ScheduleRunner.DailyRule | java_code/src/main/java/com/pipeline/ScheduleRunner.java:105-108 | a null or unknown type is daily: today's slot if it is still ahead, else tomorrow, within a day |
| ScheduleRunner.WeeklyRule | java_code/src/main/java/com/pipeline/ScheduleRunner.java:83-94 | weekly lands on the target weekday (null means Sunday) strictly after the anchor and within a week |
| ScheduleRunner.MonthlyRule | java_code/src/main/java/com/pipeline/ScheduleRunner.java:95-104 | monthly lands on the clamped day or the month's last day, in the anchor's month or the next, after the anchor |
| ScheduleRunner.MonthlyFebruaryExample | java_code/src/main/java/com/pipeline/ScheduleRunner.java:96-98 | day 31 in February 2024 runs on the 29th |
| ScheduleRunner.IsDue | java_code/src/main/java/com/pipeline/ScheduleRunner.java:39 | the poll's WHERE clause, a definition: enabled, with a next run at or before now |
| ScheduleRunner.DueIds | java_code/src/main/java/com/pipeline/ScheduleRunner.java:39-41 | the ids the poll selects, a definition |
| ScheduleRunner.NextRunOf | java_code/src/main/java/com/pipeline/ScheduleRunner.java:62 | the next run computeNextRun as written gives for the row's stored rule: at the stored run time, and after now whenever WeekdayInRange holds |
| ScheduleRunner.AfterRun | java_code/src/main/java/com/pipeline/ScheduleRunner.java:60-71 | updateAfterRun keeps the row well formed; AfterRunNotDue and AfterRunStaysDue state what it sets |
| ScheduleRunner.AfterRunNotDue | java_code/src/main/java/com/pipeline/ScheduleRunner.java:60-71 | a row that has just run has LastRunAt and UpdatedAt now, and is no longer due at the same instant when its weekly day is in range |
| ScheduleRunner.AfterRunStaysDue | java_code/src/main/java/com/pipeline/ScheduleRunner.java:60-93 | a weekly row with DayOfWeek -2 run on a Saturday gets the day before as its next run, so it is still due |
| ScheduleRunner.AdvanceOneMore | java_code/src/main/java/com/pipeline/ScheduleRunner.java:41-55 | advancing one more row extends the set of advanced rows by it |
| ScheduleRunner.NothingDueAfterAdvance | java_code/src/main/java/com/pipeline/ScheduleRunner.java:36-58 | after every due row has been advanced, no row whose weekly day is in range is due at the same instant |
| ScheduleRunner.RetriggeredByNextPoll | java_code/src/main/java/com/pipeline/ScheduleRunner.java:36-93 | a weekly DayOfWeek -2 row that a Saturday poll runs is selected again by the next poll, however soon |
| ScheduleRunner.PolledAt | java_code/src/main/java/com/pipeline/ScheduleRunner.java:36-64 | a run of polls, each advancing the rows due at it, keeps the table's ids and well-formed rows |
| ScheduleRunner.RetriggeredEverySaturdayPoll | java_code/src/main/java/com/pipeline/ScheduleRunner.java:36-93 | once such a row has fired on a Saturday, every poll of a non-decreasing run of Saturday polls selects it again |
| ScheduleRunner.MergeUpdate | java_code/src/main/java/com/pipeline/ScheduleRunner.java:158-166 | a next run the merge computes is a valid date-time |
| ScheduleRunner.ApplyUpdate | java_code/src/main/java/com/pipeline/ScheduleRunner.java:168-181 | the UPDATE keeps the row well formed |
| ScheduleRunner.DailyDefaultIsDaily | java_code/src/main/java/com/pipeline/ScheduleRunner.java:82 | a null schedule type behaves as "daily" |
| ScheduleRunner.MidnightDefault | java_code/src/main/java/com/pipeline/ScheduleRunner.java:77 | a null run time behaves as "00:00" |
| ScheduleRunner.MergeUpdateSemantics | java_code/src/main/java/com/pipeline/ScheduleRunner.java:137-183 | every null argument keeps the stored value (a null name is stored as ""); the row has a next run exactly when enabled; that next run is what its own stored rule gives, and after now when the weekly day is in range; CreatedAt and LastRunAt are kept |
| ScheduleRunner.MergeUpdateMissingRow | java_code/src/main/java/com/pipeline/ScheduleRunner.java:140-172 | with no stored row enabled defaults to true, so a next run is computed unless the caller disables it; type and time default to "daily" and "00:00" |
| ScheduleRunner.NewSchedule | java_code/src/main/java/com/pipeline/ScheduleRunner.java:113-135 | the inserted row is well formed |
| ScheduleRunner.NewScheduleSemantics | java_code/src/main/java/com/pipeline/ScheduleRunner.java:113-135 | a new schedule is enabled and has never run; its time defaults to "00:00"; its next run is what its stored rule gives, and after now when the weekly day is in range |
| ScheduleRunner.ScheduleTable.constructor | java_code/src/main/java/com/pipeline/ScheduleRunner.java:113 | an empty schedule table |
| ScheduleRunner.ScheduleTable.UpdateAfterRun | java_code/src/main/java/com/pipeline/ScheduleRunner.java:60-71 | only that schedule's row is advanced; an unknown id changes nothing |
| ScheduleRunner.ScheduleTable.RunDueSchedules | java_code/src/main/java/com/pipeline/ScheduleRunner.java:36-58 | every due row is processed once, whether or not its trigger threw, and advanced; the failed ids are exactly those whose trigger threw; afterwards no row whose weekly day is in range is due |
| ScheduleRunner.ScheduleTable.RunEach | java_code/src/main/java/com/pipeline/ScheduleRunner.java:41-55 | the loop processes each selected row once and advances exactly those rows |
| ScheduleRunner.ScheduleTable.CreateSchedule | java_code/src/main/java/com/pipeline/ScheduleRunner.java:113-135 | a new id gets NewSchedule and is returned; an id already present fails and changes nothing |
| ScheduleRunner.ScheduleTable.UpdateSchedule | java_code/src/main/java/com/pipeline/ScheduleRunner.java:137-183 | a stored row is replaced by its merge; an unknown id updates nothing |
| ScheduleRunner.ScheduleTable.DeleteSchedule | java_code/src/main/java/com/pipeline/ScheduleRunner.java:185-191 | exactly that row is removed |
| ApiServlet.TimeoutRow | java_code/src/main/java/com/pipeline/servlet/ApiServlet.java:386-408 | a Running run whose StartedAt parses and is at least 6 hours old becomes Failed-TimeOut-6Hours with FinishedAt now; any other run is unchanged |
| ApiServlet.Expired | java_code/src/main/java/com/pipeline/servlet/ApiServlet.java:387-392 | the timeout test, a definition: Running, a StartedAt that parses, and now at least six hours after it; TimeoutKeepsOthers states it |
| ApiServlet.TimeOutExpired | java_code/src/main/java/com/pipeline/servlet/ApiServlet.java:411-425 | every run passes through the timeout rule; steps and logs are unchanged |
| ApiServlet.TimeoutIdempotent | java_code/src/main/java/com/pipeline/servlet/ApiServlet.java:411-425 | after a check no expired run is left, so a second check changes nothing |
| ApiServlet.TimeoutKeepsOthers | java_code/src/main/java/com/pipeline/servlet/ApiServlet.java:387-392 | a run that is not Running, or started less than 6 hours ago, is kept; an expired one times out |
| ApiServlet.TimeoutStatusText | java_code/src/main/java/com/pipeline/servlet/ApiServlet.java:382 | the stored text is "Failed-TimeOut-6Hours" |
| ApiServlet.MarkRunTimedOutIfNeeded | java_code/src/main/java/com/pipeline/servlet/ApiServlet.java:386-408 | returns the run as the rule leaves it; an expired run gets the guarded UPDATE; otherwise nothing is written |
| ApiServlet.CheckOne | java_code/src/main/java/com/pipeline/servlet/ApiServlet.java:419-424 | one loop pass applies the rule to one more Running run and reports it exactly when it expired |
| ApiServlet.TimeOutAmong | java_code/src/main/java/com/pipeline/servlet/ApiServlet.java:419-424 | the tables after the rule has run over some of the Running rows: only expired runs among them change; steps and logs are unchanged |
| ApiServlet.CheckRunningStatus | java_code/src/main/java/com/pipeline/servlet/ApiServlet.java:411-433 | the tables afterwards are TimeOutExpired of those before; the reported ids are exactly the expired ones, once each, so the count is their number |
| ApiServlet.NoRepeatsCount | java_code/src/main/java/com/pipeline/servlet/ApiServlet.java:411-433 | a list of ids without repeats is as long as its set of ids, so the count of reported runs is the count of expired ones |
| ApiServlet.MarkedAreExpired | java_code/src/main/java/com/pipeline/servlet/ApiServlet.java:411-433 | the ids the loop reported, each once, are exactly the expired runs |
| ApiServlet.AfterCancelRequest | java_code/src/main/java/com/pipeline/servlet/ApiServlet.java:509-539 | a refused request changes nothing; an accepted one registers the id and marks the run Cancelled, and nothing else changes |
| ApiServlet.CancelReplyFor | java_code/src/main/java/com/pipeline/servlet/ApiServlet.java:516-529 | 404 exactly for an unknown run, a cancellation exactly for a Running one, otherwise 400 with the stored status, which is not Running |
| ApiServlet.CancelRequestAnswers | java_code/src/main/java/com/pipeline/servlet/ApiServlet.java:516-529 | an unknown run is a 404 with no change; after an accepted request the next one is a 400 with status Cancelled, and the id is registered |
| ApiServlet.CancelRun | java_code/src/main/java/com/pipeline/servlet/ApiServlet.java:509-539 | the reply is the one for the stored status, and the shared state afterwards is AfterCancelRequest of the state before |
| ApiServlet.LogLimit | java_code/src/main/java/com/pipeline/servlet/ApiServlet.java:570-574 | 500 when absent or unparsable, otherwise the parsed value capped at 2000 |
| ApiServlet.LogLimitExamples | java_code/src/main/java/com/pipeline/servlet/ApiServlet.java:570-574 | 5000 is cut to 2000, -1 passes unchanged, "abc" gives 500 |
| ApiServlet.EscapeChar | java_code/src/main/java/com/pipeline/servlet/ApiServlet.java:680-683 | the escape of one character holds no raw line break and no quote without a backslash before it |
| ApiServlet.EscapeEach | java_code/src/main/java/com/pipeline/servlet/ApiServlet.java:680-683 | per-character escape: no raw line break remains, and every quote follows a backslash |
| ApiServlet.EscapeJson | java_code/src/main/java/com/pipeline/servlet/ApiServlet.java:680-683 | null gives ""; otherwise the text escaped character by character, so no raw line break remains and every quote follows a backslash |
| ApiServlet.EscapeJsonIsPerChar | java_code/src/main/java/com/pipeline/servlet/ApiServlet.java:682 | the four replacements in their order escape each character on its own |
| ApiServlet.EscapeRoundTrip | java_code/src/main/java/com/pipeline/servlet/ApiServlet.java:680-683 | reading the escaped text back gives the original string |
| ApiServlet.EscapeOrderMatters | java_code/src/main/java/com/pipeline/servlet/ApiServlet.java:681-682 | null escapes to ""; replacing quotes before backslashes would double the backslash in front of a quote |
| ApiServlet.DoubleToInt | java_code/src/main/java/com/pipeline/servlet/ApiServlet.java:366 | Number.intValue: toward zero, within one of the value unless saturated, and exact on whole numbers in range |
| ApiServlet.GetInt | java_code/src/main/java/com/pipeline/servlet/ApiServlet.java:363-368 | null gives null; a number is truncated; a string is parsed; a boolean's text never parses |
| ApiServlet.GetBool | java_code/src/main/java/com/pipeline/servlet/ApiServlet.java:370-375 | null gives null; a boolean as is; a string is true exactly when it is "true" ignoring case; a number is false |
| ApiServlet.GetBoolExamples | java_code/src/main/java/com/pipeline/servlet/ApiServlet.java:374 | "TRUE" enables, "yes" does not |
| ApiServlet.GetIntExamples | java_code/src/main/java/com/pipeline/servlet/ApiServlet.java:366 | 7.9 gives 7, -7.9 gives -7, 1e12 saturates at Integer.MAX_VALUE |
| ApiServlet.TriggerOverrides | java_code/src/main/java/com/pipeline/servlet/ApiServlet.java:644-651 | all four overrides when a host, a port or a user is given, otherwise none at all |
| ApiServlet.UseOverrides | java_code/src/main/java/com/pipeline/servlet/ApiServlet.java:645 | the override test, a definition: a non-empty host, a port or a non-empty user; TriggerOverrides and TriggerOverrideEffect state its effect |
| ApiServlet.TriggerOverrideEffect | java_code/src/main/java/com/pipeline/servlet/ApiServlet.java:644-651 | a password alone is dropped and the configured connection is used; a given host is connected to; with overrides a given password is used |
| PipelineRunner.MarkFirstRunning | java_code/src/main/java/com/pipeline/PipelineRunner.java:255-267 | only the run's listed steps may change, runs never; with no Running step nothing changes |
| PipelineRunner.FirstRunningMarked | java_code/src/main/java/com/pipeline/PipelineRunner.java:256-264 | the step marked is the first Running one, with 0 rows and the message, plus its "Step n failed" line |
| PipelineRunner.MarkFirstRunningStepFailed | java_code/src/main/java/com/pipeline/PipelineRunner.java:255-267 | the scan leaves the tables as MarkFirstRunning says |
| PipelineRunner.Arrive | java_code/src/main/java/com/pipeline/servlet/ApiServlet.java:529-535 | a concurrent cancel request touches only this run's status and registry entry |
| PipelineRunner.StopRun | java_code/src/main/java/com/pipeline/PipelineRunner.java:205-236 | the end of an incomplete run: the run gets the stop status, logs are only appended, other runs and steps are kept |
| PipelineRunner.LoopFrom | java_code/src/main/java/com/pipeline/PipelineRunner.java:204-236 | the loop ends with the run Success, Failed or Cancelled; other runs and steps unchanged; logs only appended |
| PipelineRunner.RunPipelineSpec | java_code/src/main/java/com/pipeline/PipelineRunner.java:191-237 | runPipeline changes the registry only through cancel requests for this run |
| PipelineRunner.LogRunError | java_code/src/main/java/com/pipeline/PipelineRunner.java:164-189 | nothing for a null id; otherwise one Error line (message or "Pipeline failed") and the run Failed whatever its status; steps and other runs kept |
| PipelineRunner.ExecuteSpec | java_code/src/main/java/com/pipeline/PipelineRunner.java:125-161 | the finally block always drops the run from the registry |
| PipelineRunner.LogRunErrorAndMarkFailed | java_code/src/main/java/com/pipeline/PipelineRunner.java:164-189 | the tables afterwards are LogRunError of those before |
| PipelineRunner.ConcurrentCancel | java_code/src/main/java/com/pipeline/servlet/ApiServlet.java:529-535 | the interleaved request leaves the shared state as Arrive says |
| PipelineRunner.RunStep | java_code/src/main/java/com/pipeline/PipelineRunner.java:205-222 | one pass of the loop: `stop` ends the loop as LoopFrom says; otherwise what the loop does from the next step |
| PipelineRunner.StopWith | java_code/src/main/java/com/pipeline/PipelineRunner.java:205-236 | the stop sequence leaves the tables as StopRun says |
| PipelineRunner.RunPipeline | java_code/src/main/java/com/pipeline/PipelineRunner.java:191-237 | the start line, the step-count check and the loop give RunPipelineSpec |
| PipelineRunner.ExecutePipelineSteps | java_code/src/main/java/com/pipeline/PipelineRunner.java:125-161 | the state afterwards is ExecuteSpec; `escaped` tells whether a throwable the method does not catch left it |
| PipelineRunner.NextRunNumberUnique | java_code/src/main/java/com/pipeline/PipelineRunner.java:73-76 | the next run number is determined by the stored runs |
| PipelineRunner.NextRunNumber | java_code/src/main/java/com/pipeline/PipelineRunner.java:73-76 | the scan returns `COALESCE(MAX(RunNumber), 0) + 1` over every run |
| PipelineRunner.AddFreshSteps | java_code/src/main/java/com/pipeline/PipelineRunner.java:89-98 | the steps 1..n of the new run are Pending with their names; every other row is kept and no row is added besides them |
| PipelineRunner.WithNewRun | java_code/src/main/java/com/pipeline/PipelineRunner.java:78-98 | the run row is stored with four fresh steps; other runs' steps and the log are kept; well-formed tables stay well formed |
| PipelineRunner.InsertRunAndSteps | java_code/src/main/java/com/pipeline/PipelineRunner.java:78-98 | the two INSERTs leave the tables as WithNewRun says |
| PipelineRunner.StartPipelineRun | java_code/src/main/java/com/pipeline/PipelineRunner.java:59-119 | returns the new id; the run is inserted with the next run number, then the background task runs on it |
| PipelineRunner.NewRunNumberDistinct | java_code/src/main/java/com/pipeline/PipelineRunner.java:73-87 | the new number is above every stored one, so distinct run numbers stay distinct |
| PipelineRunner.CompleteUpTo | java_code/src/main/java/com/pipeline/PipelineRunner.java:220 | steps i+1..f become Success with their counts; all other rows kept |
| PipelineRunner.CompletedAll | java_code/src/main/java/com/pipeline/PipelineRunner.java:204-223 | completing all four rows leaves each Success with its own count |
| PipelineRunner.OneStepRunning | java_code/src/main/java/com/pipeline/PipelineRunner.java:212 | once step i is set Running it is the run's only Running step |
| PipelineRunner.AfterStepRows | java_code/src/main/java/com/pipeline/PipelineRunner.java:220-222 | completing a step touches that step's row alone |
| PipelineRunner.LoopRowsStep | java_code/src/main/java/com/pipeline/PipelineRunner.java:205-222 | a pass without cancellation whose step returns a count continues with that count |
| PipelineRunner.FailHere | java_code/src/main/java/com/pipeline/PipelineRunner.java:228-236 | a step that throws is marked with 0 rows and its message, and the run ends Failed |
| PipelineRunner.CancelKeepsSteps | java_code/src/main/java/com/pipeline/PipelineRunner.java:205-209 | a pass that sees a cancellation marks no step, since none is Running |
| PipelineRunner.CancelHere | java_code/src/main/java/com/pipeline/PipelineRunner.java:205-209 | an accepted cancel request ends the run Cancelled with the "cancelled by user" line and no step changed |
| PipelineRunner.SuccessFrom | java_code/src/main/java/com/pipeline/PipelineRunner.java:204-226 | from step i on every step completes and the run ends Success, logging the last count |
| PipelineRunner.FailureFrom | java_code/src/main/java/com/pipeline/PipelineRunner.java:204-236 | the steps before f complete, step f is marked, the run ends Failed and no later step starts |
| PipelineRunner.CancelFrom | java_code/src/main/java/com/pipeline/PipelineRunner.java:204-210 | after a cancel request before check c, the steps before c complete, no step is marked, no later step starts, and the run ends Cancelled |
| PipelineRunner.IdleFrom | java_code/src/main/java/com/pipeline/PipelineRunner.java:204-236 | for every count or Exception outcome of each step and whenever cancel requests arrive, no step is left Running |
| PipelineRunner.RowsKeepIdle | java_code/src/main/java/com/pipeline/PipelineRunner.java:212-222 | a step that returns a count leaves no step Running |
| PipelineRunner.ThrowLeavesIdle | java_code/src/main/java/com/pipeline/PipelineRunner.java:228-236 | a step that throws is marked, so no step is left Running |
| PipelineRunner.ReachesLoop | java_code/src/main/java/com/pipeline/PipelineRunner.java:125-161 | a fresh, uncancelled run with a good schema reaches the loop, and the registry entry is dropped at the end |
| PipelineRunner.AllStepsSucceed | java_code/src/main/java/com/pipeline/PipelineRunner.java:204-226 | all four steps succeed: each is Success with its count, the run Success and the last line carries the Migrate count |
| PipelineRunner.StepFailureRecorded | java_code/src/main/java/com/pipeline/PipelineRunner.java:228-236 | step f throws: earlier steps Success, step f marked with 0 rows, later steps Pending, run Failed |
| PipelineRunner.CancelStopsRun | java_code/src/main/java/com/pipeline/PipelineRunner.java:205-209 | a cancel before check c: earlier steps Success without message, later ones still fresh Pending rows, run Cancelled, last line the cancelled-by-user entry, registry entry dropped |
| PipelineRunner.EarlyCancelTouchesNothing | java_code/src/main/java/com/pipeline/PipelineRunner.java:128 | a cancellation seen by the first check touches no step row and no log line |
| PipelineRunner.WrongStepCountLeavesRun | java_code/src/main/java/com/pipeline/PipelineRunner.java:196-200 | without four step rows, only an Error line is written and the run is left as it is |
| PipelineRunner.SchemaFailureMarksRun | java_code/src/main/java/com/pipeline/PipelineRunner.java:133-138 | an initSchema failure gives one Error line and the run Failed with no step touched; one without message is caught only by the background task |
| PipelineRunner.NoStepLeftRunning | java_code/src/main/java/com/pipeline/PipelineRunner.java:107-114 | for every count or Exception outcome of each step and every pattern of cancel requests, the background task leaves no step Running |
| JsOrchestrator.StoredMessage | python_code/orchestrator/index.js:23 | `errorMessage or null`: null exactly for an absent or empty message |
| JsOrchestrator.JsStep | python_code/orchestrator/index.js:76-82 | one step block changes only its own step row |
| JsOrchestrator.JsStepsFrom | python_code/orchestrator/index.js:75-106 | the blocks change only this run's step rows, never a run |
| JsOrchestrator.FirstRunning | python_code/orchestrator/index.js:114-117 | the first loaded step whose stored status is Running, and none exactly when no step is Running |
| JsOrchestrator.JsFinish | python_code/orchestrator/index.js:108-124 | returns the id with the run Success, or rethrows with the run Failed and the found step marked |
| JsOrchestrator.JsExecuteSpec | python_code/orchestrator/index.js:59-125 | the run ends Success exactly when the id is returned, and Failed when the error is rethrown; other runs and steps are kept |
| JsOrchestrator.UpdateStepRun | python_code/orchestrator/index.js:19-24 | the step row gets the status, FinishedAt and count; the message is stored as StoredMessage |
| JsOrchestrator.RunStepBlock | python_code/orchestrator/index.js:76-82 | one step block leaves the tables as JsStep says and reports whether it threw |
| JsOrchestrator.JsExecutePipelineSteps | python_code/orchestrator/index.js:59-125 | the tables and the result afterwards are JsExecuteSpec of the state before |
| JsOrchestrator.JsStartPipelineRun | python_code/orchestrator/index.js:32-51 | returns the new id; the tables are as the Java runner's insertion leaves them |
| JsOrchestrator.JsRunPipeline | python_code/orchestrator/index.js:133-137 | startPipelineRun, then executePipelineSteps on that run |
| JsOrchestrator.JsStepReturns | python_code/orchestrator/index.js:79-81 | a block whose step returns a count completes its row |
| JsOrchestrator.JsStepThrows | python_code/orchestrator/index.js:79-80 | a block whose step throws leaves its row Running |
| JsOrchestrator.JsSuccessFrom | python_code/orchestrator/index.js:76-106 | if every step from step i on returns a count, each completes and the try block ends normally |
| JsOrchestrator.JsFailureFrom | python_code/orchestrator/index.js:76-106 | the steps before f complete, and the step that throws is left Running |
| JsOrchestrator.FreshStepNumbers | python_code/orchestrator/index.js:66 | a fresh run loads its four step numbers in order |
| JsOrchestrator.JsFreshRun | python_code/orchestrator/index.js:66-75 | for a fresh run: the start line, then the try block on the four steps |
| JsOrchestrator.JsFinishAfterSuccess | python_code/orchestrator/index.js:108-111 | after four counts, the id is returned, the run is Success and every step is Success with its count |
| JsOrchestrator.JsFinishGoing | python_code/orchestrator/index.js:108-111 | the success path returns the id and sets the run Success, steps unchanged |
| JsOrchestrator.JsFinishRaised | python_code/orchestrator/index.js:112-123 | the catch block marks the Running step Failed with no count, sets the run Failed and rethrows |
| JsOrchestrator.JsAllStepsSucceed | python_code/orchestrator/index.js:59-111 | all four steps succeed: every step Success with its count, the run Success, the Migrate count logged, the id returned |
| JsOrchestrator.JsFinishAfterThrow | python_code/orchestrator/index.js:112-124 | after step f+1 throws: rethrown, run Failed, earlier steps Success, step f+1 Failed with no count, later ones Pending |
| JsOrchestrator.JsStepFailureRecorded | python_code/orchestrator/index.js:59-124 | step f+1 throws: earlier steps Success, that step Failed with no count, later steps Pending, the run Failed, the error rethrown |
| JsOrchestrator.JsFoundIsFailing | python_code/orchestrator/index.js:114-117 | the step that threw is the only Running one, so the catch block finds it |
| JsOrchestrator.JsMissingStepRows | python_code/orchestrator/index.js:77-79 | a missing first step row throws a TypeError: no step row changes, and the run is Failed |
| JsOrchestrator.MessagelessFailureDiffers | python_code/orchestrator/index.js:119 | on an exception without message the Java runner records the step as Success and the JavaScript runner as Failed |

## Left out

- HTTP routing, request parsing, response writing and the servlet's other endpoints are not modelled. Only the logic named above is.
- JDBC and SQL are replaced by operations on the modelled tables: SQL text, connections, commits and rollbacks. A step's inserts are modelled as the rows and batches it produces, not as table writes.
- Concurrency is not modelled. The background thread pool becomes a direct call after the insert. Concurrent cancel requests are the `arrivals` flags: one for each point where the worker reads the registry, plus one for the start.
- `ScheduledExecutorService` and the one-minute poll are not modelled; the poll is one call of `RunDueSchedules` at a given `now`.
- StepProgress's thread-local connection parameters are not modelled, since a progress write is a direct update.
- Time zones, offsets and ISO formatting are dropped. Schedule times are local date-times at minute resolution. Run times are epoch milliseconds as an integer.
- `Instant.now()`, `ZonedDateTime.now()`, `datetime('now')`, `SYSDATETIMEOFFSET()`, UUIDs and `System.currentTimeMillis()` are parameters.
- Floating point is `real`: no NaN, rounding or infinities. `Double.parseDouble`, `LocalDate.parse`, `Number(...)` and `new Date(...)` are abstract parameters.
- Gson is not modelled. A JSON object is its members' `toString()` texts plus the text `toJson` writes for it.
- File reading is not modelled: a file is given as its lines (CSV) and as Gson's parse of its text (JSON).
- `Paths.get(...).getFileName()` is simplified to the text after the last '/'.
- SELECTs without ORDER BY return rows in table order.
- JDBC partial-batch behaviour is not modelled. A batch the server rejects inserts nothing, and the step stops there.
- The SQL splitting of the schema file on `GO` is not modelled. The schema is given as its batches, and the DDL's effect on the tables is not represented. Only the RunNumber backfill and the batch loop's control flow are modelled.
- The loggers' console output is left out. Only the stored `PipelineLogs` line is modelled, as a structured event rather than formatted text.
- The read-then-insert race on RunNumber (two concurrent starts computing the same number) is outside the sequential model.
- pull.js, the UI, the scraper, the data generators and the bootstrap wrappers are not part of this model.
- JsExtract.AmountOf: the distinction between a text and a numeric Amount in SQLite is not modelled; the staging amount is a real.
- JavaLang.ToLower: only ASCII letters are lowered. `String.toLowerCase` and `equalsIgnoreCase` also fold other letters, which no key or extension the code compares needs.
- JavaLang.ParseInt: only ASCII digits are read. `Integer.parseInt` also accepts every other Unicode decimal digit (`Character.digit`), so "\u0661\u0662" is 12 in Java and does not parse here.
- ScheduleRunner.ScheduleTable.RunDueSchedules: one `now` stands for the two clocks the code reads, the poll's `SYSDATETIMEOFFSET()` and updateAfterRun's `ZonedDateTime.now()`. The second is later by the time the triggers take, so the model does not capture a next run computed from a later instant than the poll's.
- PipelineRunner.NoStepLeftRunning: a step's outcome is a count or an Exception. A JVM Error thrown by a step (an OutOfMemoryError while the pull step holds a file, say) passes both `catch (Exception)` and `catch (SQLException)`, so the step committed as Running stays Running and only the background task's `catch (Throwable)` marks the run Failed; such Errors are not modelled.
- PipelineRunner.ExecuteSpec: the registry is stated as an exact set, but the tables are given only through the lemmas about particular outcomes.

## Notes on the code

- The comment beside the transform step's invalid-category marker says it has 33 characters. The marker has 37 (`TransformStep.FitsIffNonNegative`). Either way it exceeds the 32-character column, so the model follows the code.
- `getVal` is always called with two keys that differ only in case. Since the match ignores case, the second key is never used (`PullStep.CaseVariantKeyUnused`).
- A cancel request seen between steps marks no step: the step that ran last has already finished, so none is Running (`PipelineRunner.CancelKeepsSteps`).
- The run number is computed over every run, whatever its pipeline name.
- In Java an exception without message records the failing step with status Success, since the status follows from the message being null. The JavaScript runner records it as Failed (`JsOrchestrator.MessagelessFailureDiffers`).

## Findings

The schedule table follows the code as written: `NextRunOf`, `NewSchedule` and `MergeUpdate` use `ComputeNextRunAsWritten`, and their "after now" and "not due" clauses hold for the rows `WeekdayInRange` admits (`AsWrittenInRange`), while `AfterRunStaysDue`, `RetriggeredByNextPoll` and `RetriggeredEverySaturdayPoll` show such a row firing again: at the next poll, and at every poll of a run of Saturday polls. A poll on another day can store a later next run (on a Sunday, the following Friday). `ComputeNextRun` is the corrected rule, with the intended properties proved about it.

| source | as written | input that shows it | evidently intended | confidence | as-written member | corrected member |
|---|---|---|---|---|---|---|
| java_code/src/main/java/com/pipeline/ScheduleRunner.java:84-93 | `(targetDow - currentDow + 7) % 7` uses Java's truncating remainder, which is negative for a negative numerator; the weekly next run then moves backwards | DayOfWeek = -2 on Saturday 2000-01-01 00:00: the offset is -1 and the next run is Friday 1999-12-31, not after the anchor; a row stored with it is due again at once and every Saturday poll runs it again | an offset in 0..6 (a floor modulus), so the next run is on the target weekday strictly after the anchor | not executed | ScheduleRunner.WeeklyAsWrittenGoesBack | ScheduleRunner.WeeklyNext |
