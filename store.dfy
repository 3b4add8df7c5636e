/** The three tables the orchestrators, the servlet and the progress writer share:
    PipelineRuns keyed by RunId, StepRuns keyed by (RunId, StepNumber) and the
    append-only PipelineLogs. Log messages are kept as structured events rather
    than formatted text. */
module Store {
  import opened Wrappers

  /** Epoch milliseconds */
  type Instant = int

  const HourMillis := 3_600_000

  /** The Status column of both PipelineRuns and StepRuns */
  datatype Status = Pending | Running | Success | Failed | Cancelled | TimedOut

  /** The text stored for each status */
  function StatusText(s: Status): string {
    match s
    case Pending => "Pending"
    case Running => "Running"
    case Success => "Success"
    case Failed => "Failed"
    case Cancelled => "Cancelled"
    case TimedOut => "Failed-TimeOut-6Hours"
  }

  /** A stored StartedAt: an instant that Instant.parse reads back, or text it rejects */
  datatype StoredTime = Parsed(at: Instant) | Unparsable

  datatype PipelineRun = PipelineRun(
    runNumber: int,
    pipelineName: string,
    adfRunId: string,
    startedAt: Option<StoredTime>,
    finishedAt: Option<Instant>,
    status: Status,
    createdAt: Instant)

  datatype StepKey = StepKey(runId: string, stepNumber: int)

  datatype StepRun = StepRun(
    stepName: string,
    status: Status,
    startedAt: Option<Instant>,
    finishedAt: Option<Instant>,
    rowsAffected: Option<int>,
    rowsProcessed: Option<int>,
    rowsTotal: Option<int>,
    errorMessage: Option<string>)

  datatype Level = Info | Error

  /** What each log line reports */
  datatype Event =
    | RunInitialized                              // "Step 0: Run initialized"
    | PipelineStarted(csvPath: Option<string>)    // "Pipeline started[ with file: ...]"
    | WrongStepCount(count: int)                  // "Expected 4 step rows, got n"
    | CancelledByUser                             // "Pipeline cancelled by user"
    | StepStarted(step: int)                      // "Step n started"
    | StepCompleted(step: int, rows: int)         // "<name> completed: n rows"
    | PipelineCompleted(totalRows: int)           // "Pipeline completed successfully"
    | PipelineFailed(message: Option<string>)     // "Pipeline failed: <message>"
    | StepFailed(step: int, details: Option<string>) // "Step n failed"
    | RunError(reason: string)                    // logRunErrorAndMarkFailed

  datatype LogEntry = LogEntry(runId: string, level: Level, stepNumber: Option<int>, event: Event)

  /** A snapshot of the three tables */
  datatype Db = Db(runs: map<string, PipelineRun>, steps: map<StepKey, StepRun>, logs: seq<LogEntry>)

  const StepNames: seq<string> := ["Data Pull", "Extract (SP)", "Transform (SP)", "Migrate (SP)"]

  /** Every step row belongs to a stored run and has a step number 1..4 */
  predicate WellFormed(db: Db) {
    forall k :: k in db.steps ==> k.runId in db.runs && 1 <= k.stepNumber <= 4
  }

  // ---- row transitions (the UPDATE statements) ----

  /** markRunFinished: Status and FinishedAt, whatever the current status */
  function FinishRun(db: Db, runId: string, status: Status, now: Instant): (r: Db)
    ensures r.steps == db.steps && r.logs == db.logs && r.runs.Keys == db.runs.Keys
    ensures runId in db.runs ==> r.runs[runId].status == status && r.runs[runId].finishedAt == Some(now)
    ensures forall id :: id in db.runs && id != runId ==> r.runs[id] == db.runs[id]
  {
    if runId in db.runs
    then db.(runs := db.runs[runId := db.runs[runId].(status := status, finishedAt := Some(now))])
    else db
  }

  /** `UPDATE ... WHERE RunId = ? AND Status = 'Running'`: a run in any other status is kept */
  function FinishRunIfRunning(db: Db, runId: string, status: Status, now: Instant): (r: Db)
    ensures r.steps == db.steps && r.logs == db.logs && r.runs.Keys == db.runs.Keys
    ensures runId in db.runs && db.runs[runId].status == Running ==> r == FinishRun(db, runId, status, now)
    ensures (runId !in db.runs || db.runs[runId].status != Running) ==> r == db
  {
    if runId in db.runs && db.runs[runId].status == Running then FinishRun(db, runId, status, now) else db
  }

  /** updateStepRunning */
  function StartStep(db: Db, key: StepKey, now: Instant): (r: Db)
    ensures r.runs == db.runs && r.logs == db.logs && r.steps.Keys == db.steps.Keys
    ensures key in db.steps ==> r.steps[key] == db.steps[key].(status := Running, startedAt := Some(now))
    ensures forall k :: k in db.steps && k != key ==> r.steps[k] == db.steps[k]
  {
    if key in db.steps then db.(steps := db.steps[key := db.steps[key].(status := Running, startedAt := Some(now))]) else db
  }

  /** Any update of Status, FinishedAt, RowsAffected and ErrorMessage of one step row */
  function SetStepResult(db: Db, key: StepKey, status: Status, rows: Option<int>, message: Option<string>, now: Instant): (r: Db)
    ensures r.runs == db.runs && r.logs == db.logs && r.steps.Keys == db.steps.Keys
    ensures key in db.steps ==> r.steps[key] == db.steps[key].(status := status, finishedAt := Some(now), rowsAffected := rows, errorMessage := message)
    ensures forall k :: k in db.steps && k != key ==> r.steps[k] == db.steps[k]
  {
    if key in db.steps
    then db.(steps := db.steps[key := db.steps[key].(status := status, finishedAt := Some(now), rowsAffected := rows, errorMessage := message)])
    else db
  }

  /** updateStepSuccess: the status follows from the message alone (Failed when there is one) */
  function FinishStep(db: Db, key: StepKey, rows: int, message: Option<string>, now: Instant): (r: Db)
    ensures r.runs == db.runs && r.logs == db.logs && r.steps.Keys == db.steps.Keys
    ensures key in db.steps ==> r.steps[key].status == (if message.Some? then Failed else Success)
                                && r.steps[key].errorMessage == message && r.steps[key].rowsAffected == Some(rows)
                                && r.steps[key].finishedAt == Some(now)
    ensures forall k :: k in db.steps && k != key ==> r.steps[k] == db.steps[k]
  {
    SetStepResult(db, key, if message.Some? then Failed else Success, Some(rows), message, now)
  }

  /** The progress UPDATE: RowsProcessed and RowsTotal of the row with this key */
  function SetProgress(db: Db, key: StepKey, processed: int, total: Option<int>): (r: Db)
    ensures r.runs == db.runs && r.logs == db.logs && r.steps.Keys == db.steps.Keys
    ensures key in db.steps ==> r.steps[key] == db.steps[key].(rowsProcessed := Some(processed), rowsTotal := total)
    ensures forall k :: k in db.steps && k != key ==> r.steps[k] == db.steps[k]
  {
    if key in db.steps then db.(steps := db.steps[key := db.steps[key].(rowsProcessed := Some(processed), rowsTotal := total)]) else db
  }

  function AddLog(db: Db, e: LogEntry): (r: Db)
    ensures r.runs == db.runs && r.steps == db.steps && r.logs == db.logs + [e]
  {
    db.(logs := db.logs + [e])
  }

  /** The step numbers that loadSteps returns for a run, in ascending order */
  function StepNumbersOf(db: Db, runId: string): (r: seq<int>)
    ensures |r| <= 4
    ensures forall i :: 0 <= i < |r| ==> 1 <= r[i] <= 4 && StepKey(runId, r[i]) in db.steps
    ensures |r| == 4 ==> r == [1, 2, 3, 4]
  {
    (if StepKey(runId, 1) in db.steps then [1] else [])
    + (if StepKey(runId, 2) in db.steps then [2] else [])
    + (if StepKey(runId, 3) in db.steps then [3] else [])
    + (if StepKey(runId, 4) in db.steps then [4] else [])
  }

  /** The row a new step gets: its name, Pending, nothing else yet */
  function NewStep(stepNumber: int): StepRun
    requires 1 <= stepNumber <= 4
  {
    StepRun(StepNames[stepNumber - 1], Pending, None, None, None, None, None, None)
  }

  /** The four step rows of a freshly inserted run */
  predicate HasFreshSteps(db: Db, runId: string) {
    forall n :: 1 <= n <= 4 ==> StepKey(runId, n) in db.steps && db.steps[StepKey(runId, n)] == NewStep(n)
  }

  // ---- the tables as a mutable object ----

  class Store {
    var runs: map<string, PipelineRun>
    var steps: map<StepKey, StepRun>
    var logs: seq<LogEntry>

    function State(): Db
      reads this
    {
      Db(runs, steps, logs)
    }

    ghost predicate Valid()
      reads this
    {
      WellFormed(State())
    }

    constructor()
      ensures State() == Db(map[], map[], []) && Valid()
    {
      runs := map[];
      steps := map[];
      logs := [];
    }

    /** PipelineLogger.log: one appended row */
    method Log(e: LogEntry)
      modifies this
      ensures State() == AddLog(old(State()), e)
    {
      logs := logs + [e];
    }

    method MarkRunFinished(runId: string, status: Status, now: Instant)
      modifies this
      ensures State() == FinishRun(old(State()), runId, status, now)
    {
      if runId in runs {
        runs := runs[runId := runs[runId].(status := status, finishedAt := Some(now))];
      }
    }

    method MarkRunFinishedIfRunning(runId: string, status: Status, now: Instant)
      modifies this
      ensures State() == FinishRunIfRunning(old(State()), runId, status, now)
    {
      if runId in runs && runs[runId].status == Running {
        runs := runs[runId := runs[runId].(status := status, finishedAt := Some(now))];
      }
    }

    method UpdateStepRunning(key: StepKey, now: Instant)
      modifies this
      ensures State() == StartStep(old(State()), key, now)
    {
      if key in steps {
        steps := steps[key := steps[key].(status := Running, startedAt := Some(now))];
      }
    }

    method UpdateStepResult(key: StepKey, status: Status, rows: Option<int>, message: Option<string>, now: Instant)
      modifies this
      ensures State() == SetStepResult(old(State()), key, status, rows, message, now)
    {
      if key in steps {
        steps := steps[key := steps[key].(status := status, finishedAt := Some(now), rowsAffected := rows, errorMessage := message)];
      }
    }

    method UpdateProgress(key: StepKey, processed: int, total: Option<int>)
      modifies this
      ensures State() == SetProgress(old(State()), key, processed, total)
    {
      if key in steps {
        steps := steps[key := steps[key].(rowsProcessed := Some(processed), rowsTotal := total)];
      }
    }

    method InsertRun(runId: string, run: PipelineRun)
      modifies this
      ensures State() == old(State()).(runs := old(runs)[runId := run])
    {
      runs := runs[runId := run];
    }

    method InsertStep(key: StepKey, step: StepRun)
      modifies this
      ensures State() == old(State()).(steps := old(steps)[key := step])
    {
      steps := steps[key := step];
    }
  }
}
