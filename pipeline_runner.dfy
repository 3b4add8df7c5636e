/** The Java orchestrator: creation of a run with its four step rows, the
    sequential execution of Data Pull, Extract, Transform and Migrate, and the
    failure and cancellation handling around it.

    The step executors are abstract: each ends with a row count or throws,
    with or without a message. A cancel request from the servlet runs
    concurrently with the worker; it can only be observed at the worker's
    registry checks and at its final status write, so its arrival is given as
    six flags: before the check at the start of executePipelineSteps, before
    each of the four loop checks, and before the final Success write. */
module PipelineRunner {
  import opened Wrappers
  import opened Store
  import opened CancelRegistry
  import opened ApiServlet
  import opened Database

  /** What one step executor does: return a row count or throw */
  datatype StepOutcome = Rows(n: int) | Threw(message: Option<string>)

  const CancelMessage: string := "Cancelled"
  const AllSteps: seq<int> := [1, 2, 3, 4]

  predicate RunningAt(db: Db, runId: string, n: int) {
    StepKey(runId, n) in db.steps && db.steps[StepKey(runId, n)].status == Running
  }

  /** All four step rows of the run exist and none of them is Running */
  predicate Idle(db: Db, runId: string) {
    forall n :: 1 <= n <= 4 ==> StepKey(runId, n) in db.steps && db.steps[StepKey(runId, n)].status != Running
  }

  /** A run as startPipelineRun leaves it: Running, four Pending steps, no cancellation recorded */
  predicate Fresh(w: Shared, runId: string) {
    runId in w.db.runs && w.db.runs[runId].status == Running && HasFreshSteps(w.db, runId) && runId !in w.cancelled
  }

  // ---- markFirstRunningStepFailed ----

  /** The first step of `steps` whose stored status is Running gets the result
      of updateStepSuccess(0, message) and an Error log line; later steps are
      not looked at */
  function MarkFirstRunning(db: Db, runId: string, steps: seq<int>, message: Option<string>, now: Instant): (r: Db)
    ensures r.runs == db.runs && r.steps.Keys == db.steps.Keys && db.logs <= r.logs
    ensures (forall i :: 0 <= i < |steps| ==> !RunningAt(db, runId, steps[i])) ==> r == db
    ensures forall k :: k in db.steps && (k.runId != runId || k.stepNumber !in steps) ==> r.steps[k] == db.steps[k]
    decreases |steps|
  {
    if steps == [] then db
    else if RunningAt(db, runId, steps[0])
    then AddLog(FinishStep(db, StepKey(runId, steps[0]), 0, message, now),
                LogEntry(runId, Error, Some(steps[0]), StepFailed(steps[0], message)))
    else MarkFirstRunning(db, runId, steps[1..], message, now)
  }

  /** The step that is marked is the first Running one */
  lemma {:induction false} FirstRunningMarked(db: Db, runId: string, steps: seq<int>, f: int, message: Option<string>, now: Instant)
    requires 0 <= f < |steps| && RunningAt(db, runId, steps[f])
    requires forall i :: 0 <= i < f ==> !RunningAt(db, runId, steps[i])
    ensures MarkFirstRunning(db, runId, steps, message, now)
         == AddLog(FinishStep(db, StepKey(runId, steps[f]), 0, message, now),
                   LogEntry(runId, Error, Some(steps[f]), StepFailed(steps[f], message)))
    decreases f
  {
    if f > 0 {
      assert !RunningAt(db, runId, steps[0]);
      FirstRunningMarked(db, runId, steps[1..], f - 1, message, now);
    }
  }

  /** markFirstRunningStepFailed: a scan of the loaded steps that stops at the first Running one */
  method MarkFirstRunningStepFailed(store: Store, runId: string, steps: seq<int>, message: Option<string>, now: Instant)
    modifies store
    ensures store.State() == MarkFirstRunning(old(store.State()), runId, steps, message, now)
  {
    var i := 0;
    while i < |steps|
      invariant 0 <= i <= |steps|
      invariant store.State() == old(store.State())
      invariant MarkFirstRunning(store.State(), runId, steps[i..], message, now)
             == MarkFirstRunning(old(store.State()), runId, steps, message, now)
    {
      var key := StepKey(runId, steps[i]);
      if key in store.steps && store.steps[key].status == Running {
        store.UpdateStepResult(key, if message.Some? then Failed else Success, Some(0), message, now);
        store.Log(LogEntry(runId, Error, Some(steps[i]), StepFailed(steps[i], message)));
        break;
      }
      assert steps[i..][1..] == steps[i + 1..];
      i := i + 1;
    }
  }

  // ---- runPipeline ----

  /** A concurrent cancel request from the servlet, if one arrives at this point */
  function Arrive(w: Shared, arrives: bool, runId: string, now: Instant): (r: Shared)
    ensures r.cancelled - {runId} == w.cancelled - {runId}
    ensures r.db.steps == w.db.steps && r.db.logs == w.db.logs && r.db.runs.Keys == w.db.runs.Keys
    ensures forall id :: id in w.db.runs && id != runId ==> r.db.runs[id] == w.db.runs[id]
    ensures !arrives ==> r == w
  {
    if arrives then AfterCancelRequest(w, runId, now) else w
  }

  /** The end of a run that did not complete: a log line, the first Running
      step marked, the run given its final status */
  function StopRun(db: Db, runId: string, level: Level, event: Event, message: Option<string>, status: Status, now: Instant): (r: Db)
    ensures r.runs.Keys == db.runs.Keys && r.steps.Keys == db.steps.Keys && db.logs <= r.logs
    ensures forall id :: id in db.runs && id != runId ==> r.runs[id] == db.runs[id]
    ensures forall k :: k in db.steps && k.runId != runId ==> r.steps[k] == db.steps[k]
    ensures runId in db.runs ==> r.runs[runId].status == status
  {
    FinishRun(MarkFirstRunning(AddLog(db, LogEntry(runId, level, None, event)), runId, AllSteps, message, now), runId, status, now)
  }

  /** updateStepRunning and the "Step n started" line of the step with index i */
  function BeginStep(db: Db, runId: string, i: int, now: Instant): Db {
    AddLog(StartStep(db, StepKey(runId, i + 1), now), LogEntry(runId, Info, Some(i + 1), StepStarted(i + 1)))
  }

  /** updateStepSuccess(rows, null) and the "completed" line of the step with index i */
  function EndStep(db: Db, runId: string, i: int, rows: int, now: Instant): Db {
    AddLog(FinishStep(db, StepKey(runId, i + 1), rows, None, now), LogEntry(runId, Info, Some(i + 1), StepCompleted(i + 1, rows)))
  }

  /** The loop of runPipeline from the step with index i, `lastRows` being the
      count of the last step that completed */
  function LoopFrom(w: Shared, runId: string, i: int, lastRows: int, outcomes: seq<StepOutcome>, arrivals: seq<bool>, now: Instant): (r: Shared)
    requires 0 <= i <= 4 && |outcomes| == 4 && |arrivals| == 6
    ensures r.db.runs.Keys == w.db.runs.Keys && r.db.steps.Keys == w.db.steps.Keys
    ensures w.db.logs <= r.db.logs
    ensures forall id :: id in w.db.runs && id != runId ==> r.db.runs[id] == w.db.runs[id]
    ensures forall k :: k in w.db.steps && k.runId != runId ==> r.db.steps[k] == w.db.steps[k]
    ensures runId in w.db.runs ==> r.db.runs[runId].status in {Success, Failed, Cancelled}
    ensures r.cancelled - {runId} == w.cancelled - {runId}
    decreases 4 - i
  {
    var w1 := Arrive(w, arrivals[i + 1], runId, now);
    if i == 4 then
      Shared(AddLog(FinishRun(w1.db, runId, Success, now), LogEntry(runId, Info, None, PipelineCompleted(lastRows))), w1.cancelled)
    else if runId in w1.cancelled then
      Shared(StopRun(w1.db, runId, Info, CancelledByUser, Some(CancelMessage), Cancelled, now), w1.cancelled)
    else
      var db1 := BeginStep(w1.db, runId, i, now);
      match outcomes[i]
      case Rows(n) => LoopFrom(Shared(EndStep(db1, runId, i, n, now), w1.cancelled), runId, i + 1, n, outcomes, arrivals, now)
      case Threw(message) => Shared(StopRun(db1, runId, Error, PipelineFailed(message), message, Failed, now), w1.cancelled)
  }

  /** runPipeline: the start line, the step-count check, then the loop */
  function RunPipelineSpec(w: Shared, runId: string, csvPath: Option<string>, outcomes: seq<StepOutcome>, arrivals: seq<bool>, now: Instant): (r: Shared)
    requires |outcomes| == 4 && |arrivals| == 6
    ensures r.cancelled - {runId} == w.cancelled - {runId}
  {
    var db := AddLog(w.db, LogEntry(runId, Info, None, PipelineStarted(csvPath)));
    var steps := StepNumbersOf(db, runId);
    if |steps| != 4 then Shared(AddLog(db, LogEntry(runId, Error, None, WrongStepCount(|steps|))), w.cancelled)
    else LoopFrom(Shared(db, w.cancelled), runId, 0, 0, outcomes, arrivals, now)
  }

  /** The message an initSchema failure is logged with; a failure without one is logged as "Pipeline failed" */
  function SchemaFailureMessage(schema: SchemaOutcome): Option<string> {
    match schema
    case SchemaMissing => Some(SchemaMissingMessage)
    case SchemaRejected(m) => Some(m)
    case _ => None
  }

  /** logRunErrorAndMarkFailed: nothing for a null run id; otherwise an Error
      line and the run marked Failed whatever its status */
  function LogRunError(db: Db, runId: Option<string>, message: Option<string>, now: Instant): (r: Db)
    ensures runId.None? ==> r == db
    ensures runId.Some? ==> r.logs == db.logs + [LogEntry(runId.value, Error, None, RunError(message.GetOr("Pipeline failed")))]
    ensures runId.Some? ==> r.steps == db.steps && r.runs.Keys == db.runs.Keys
    ensures runId.Some? && runId.value in db.runs ==> r.runs[runId.value].status == Failed
    ensures forall id :: id in db.runs && Some(id) != runId ==> r.runs[id] == db.runs[id]
  {
    match runId
    case None => db
    case Some(id) => FinishRun(AddLog(db, LogEntry(id, Error, None, RunError(message.GetOr("Pipeline failed")))), id, Failed, now)
  }

  /** An initSchema error without message throws out of executePipelineSteps (it is not an SQLException) */
  predicate Escapes(w: Shared, runId: string, schema: SchemaOutcome, arrivals: seq<bool>, now: Instant)
    requires |arrivals| == 6
  {
    runId !in Arrive(w, arrivals[0], runId, now).cancelled && schema == SchemaCrashed
  }

  /** executePipelineSteps; its finally block always drops the run from the registry */
  function ExecuteSpec(w: Shared, runId: string, csvPath: Option<string>, schema: SchemaOutcome,
                       outcomes: seq<StepOutcome>, arrivals: seq<bool>, now: Instant): (r: Shared)
    requires |outcomes| == 4 && |arrivals| == 6
    ensures r.cancelled == w.cancelled - {runId}
  {
    var w0 := Arrive(w, arrivals[0], runId, now);
    var r :=
      if runId in w0.cancelled || schema == SchemaCrashed then w0
      else if schema != SchemaOk then Shared(LogRunError(w0.db, Some(runId), SchemaFailureMessage(schema), now), w0.cancelled)
      else RunPipelineSpec(Shared(AddLog(w0.db, LogEntry(runId, Info, Some(0), RunInitialized)), w0.cancelled),
                           runId, csvPath, outcomes, arrivals, now);
    Shared(r.db, r.cancelled - {runId})
  }

  /** The background task: executePipelineSteps, and logRunErrorAndMarkFailed for what escapes it */
  function BackgroundSpec(w: Shared, runId: string, csvPath: Option<string>, schema: SchemaOutcome, crashMessage: Option<string>,
                          outcomes: seq<StepOutcome>, arrivals: seq<bool>, now: Instant): Shared
    requires |outcomes| == 4 && |arrivals| == 6
  {
    var r := ExecuteSpec(w, runId, csvPath, schema, outcomes, arrivals, now);
    if Escapes(w, runId, schema, arrivals, now) then Shared(LogRunError(r.db, Some(runId), crashMessage, now), r.cancelled) else r
  }

  method LogRunErrorAndMarkFailed(store: Store, runId: Option<string>, message: Option<string>, now: Instant)
    modifies store
    ensures store.State() == LogRunError(old(store.State()), runId, message, now)
  {
    if runId.None? {
      return;
    }
    store.Log(LogEntry(runId.value, Error, None, RunError(message.GetOr("Pipeline failed"))));
    store.MarkRunFinished(runId.value, Failed, now);
  }

  /** The servlet's cancel request, interleaved at one of the worker's observation points */
  method ConcurrentCancel(store: Store, registry: Registry, arrives: bool, runId: string, now: Instant)
    modifies store, registry
    ensures Shared(store.State(), registry.ids) == Arrive(Shared(old(store.State()), old(registry.ids)), arrives, runId, now)
  {
    if arrives {
      var reply := CancelRun(store, registry, runId, now);
    }
  }

  /** One pass of runPipeline's loop body for the step with index i; `stop`
      when the run was cancelled or the step threw */
  method RunStep(store: Store, registry: Registry, runId: string, steps: seq<int>, i: int, lastRows: int,
                 outcomes: seq<StepOutcome>, arrivals: seq<bool>, now: Instant) returns (stop: bool, rows: int)
    requires 0 <= i < 4 && steps == AllSteps && |outcomes| == 4 && |arrivals| == 6
    modifies store, registry
    ensures stop ==>
      Shared(store.State(), registry.ids)
      == LoopFrom(Shared(old(store.State()), old(registry.ids)), runId, i, lastRows, outcomes, arrivals, now)
    ensures !stop ==>
      LoopFrom(Shared(store.State(), registry.ids), runId, i + 1, rows, outcomes, arrivals, now)
      == LoopFrom(Shared(old(store.State()), old(registry.ids)), runId, i, lastRows, outcomes, arrivals, now)
  {
    ConcurrentCancel(store, registry, arrivals[i + 1], runId, now);
    ghost var w1 := Shared(store.State(), registry.ids);
    var cancelled := registry.IsCancelled(Some(runId));
    rows := lastRows;
    if cancelled {
      StopWith(store, runId, steps, Info, CancelledByUser, Some(CancelMessage), Cancelled, now);
      return true, rows;
    }
    var key := StepKey(runId, steps[i]);
    store.UpdateStepRunning(key, now);
    store.Log(LogEntry(runId, Info, Some(i + 1), StepStarted(i + 1)));
    ghost var db1 := BeginStep(w1.db, runId, i, now);
    assert store.State() == db1;
    var outcome := outcomes[i];
    if outcome.Threw? {
      StopWith(store, runId, steps, Error, PipelineFailed(outcome.message), outcome.message, Failed, now);
      return true, rows;
    }
    rows := outcome.n;
    store.UpdateStepResult(key, Success, Some(outcome.n), None, now);
    store.Log(LogEntry(runId, Info, Some(i + 1), StepCompleted(i + 1, outcome.n)));
    assert store.State() == EndStep(db1, runId, i, rows, now);
    stop := false;
  }

  method StopWith(store: Store, runId: string, steps: seq<int>, level: Level, event: Event, message: Option<string>, status: Status, now: Instant)
    requires steps == AllSteps
    modifies store
    ensures store.State() == StopRun(old(store.State()), runId, level, event, message, status, now)
  {
    store.Log(LogEntry(runId, level, None, event));
    MarkFirstRunningStepFailed(store, runId, steps, message, now);
    store.MarkRunFinished(runId, status, now);
  }

  method RunPipeline(store: Store, registry: Registry, runId: string, csvPath: Option<string>,
                     outcomes: seq<StepOutcome>, arrivals: seq<bool>, now: Instant)
    requires |outcomes| == 4 && |arrivals| == 6
    modifies store, registry
    ensures Shared(store.State(), registry.ids)
         == RunPipelineSpec(Shared(old(store.State()), old(registry.ids)), runId, csvPath, outcomes, arrivals, now)
  {
    store.Log(LogEntry(runId, Info, None, PipelineStarted(csvPath)));
    var steps := StepNumbersOf(store.State(), runId);
    if |steps| != 4 {
      store.Log(LogEntry(runId, Error, None, WrongStepCount(|steps|)));
      return;
    }
    ghost var start := Shared(store.State(), registry.ids);
    var lastRows := 0;
    var i := 0;
    while i < 4
      invariant 0 <= i <= 4
      invariant LoopFrom(Shared(store.State(), registry.ids), runId, i, lastRows, outcomes, arrivals, now)
             == LoopFrom(start, runId, 0, 0, outcomes, arrivals, now)
    {
      var stop, rows := RunStep(store, registry, runId, steps, i, lastRows, outcomes, arrivals, now);
      if stop {
        return;
      }
      lastRows := rows;
      i := i + 1;
    }
    ConcurrentCancel(store, registry, arrivals[5], runId, now);
    store.MarkRunFinished(runId, Success, now);
    store.Log(LogEntry(runId, Info, None, PipelineCompleted(lastRows)));
  }

  /** executePipelineSteps; `escaped` tells whether a throwable left it */
  method ExecutePipelineSteps(store: Store, registry: Registry, runId: string, csvPath: Option<string>, schema: SchemaOutcome,
                              outcomes: seq<StepOutcome>, arrivals: seq<bool>, now: Instant) returns (escaped: bool)
    requires |outcomes| == 4 && |arrivals| == 6
    modifies store, registry
    ensures escaped == Escapes(Shared(old(store.State()), old(registry.ids)), runId, schema, arrivals, now)
    ensures Shared(store.State(), registry.ids)
         == ExecuteSpec(Shared(old(store.State()), old(registry.ids)), runId, csvPath, schema, outcomes, arrivals, now)
  {
    escaped := false;
    ConcurrentCancel(store, registry, arrivals[0], runId, now);
    var cancelled := registry.IsCancelled(Some(runId));
    if !cancelled {
      if schema == SchemaCrashed {
        escaped := true;
      } else if schema != SchemaOk {
        LogRunErrorAndMarkFailed(store, Some(runId), SchemaFailureMessage(schema), now);
      } else {
        store.Log(LogEntry(runId, Info, Some(0), RunInitialized));
        RunPipeline(store, registry, runId, csvPath, outcomes, arrivals, now);
      }
    }
    registry.Remove(runId);
  }

  // ---- startPipelineRun ----

  /** `COALESCE(MAX(RunNumber), 0) + 1` over every run, whatever its pipeline name */
  predicate IsNextRunNumber(runs: map<string, PipelineRun>, n: int) {
    (forall id :: id in runs ==> runs[id].runNumber < n)
    && (runs == map[] ==> n == 1)
    && (runs != map[] ==> exists id :: id in runs && runs[id].runNumber == n - 1)
  }

  /** At most one number is the next one */
  lemma NextRunNumberUnique(runs: map<string, PipelineRun>, m: int, n: int)
    requires IsNextRunNumber(runs, m) && IsNextRunNumber(runs, n)
    ensures m == n
  {
    if runs != map[] {
      var a :| a in runs && runs[a].runNumber == m - 1;
      var b :| b in runs && runs[b].runNumber == n - 1;
      assert runs[b].runNumber < m && runs[a].runNumber < n;
    }
  }

  /** The SELECT that gives the next run number, as a scan over the runs */
  method NextRunNumber(store: Store) returns (n: int)
    ensures IsNextRunNumber(store.runs, n)
  {
    var rows := store.runs;
    var todo := rows.Keys;
    var max := 0;
    var any := false;
    while todo != {}
      invariant todo <= rows.Keys
      invariant forall id :: id in rows && id !in todo ==> rows[id].runNumber <= max
      invariant !any ==> max == 0 && todo == rows.Keys
      invariant any ==> exists id :: id in rows && rows[id].runNumber == max
      decreases |todo|
    {
      var id :| id in todo;
      if !any || rows[id].runNumber > max {
        max := rows[id].runNumber;
      }
      any := true;
      todo := todo - {id};
    }
    if rows == map[] {
      n := 1;
    } else {
      assert any by {
        var id :| id in rows;
      }
      n := max + 1;
    }
  }

  /** The run row startPipelineRun inserts */
  function FreshRun(runNumber: int, pipelineName: string, adfRunId: string, now: Instant): PipelineRun {
    PipelineRun(runNumber, pipelineName, adfRunId, Some(Parsed(now)), None, Running, now)
  }

  /** The step rows 1..n of a new run added to `steps` */
  function AddFreshSteps(steps: map<StepKey, StepRun>, runId: string, n: int): (r: map<StepKey, StepRun>)
    requires 0 <= n <= 4
    ensures forall j :: 1 <= j <= n ==> StepKey(runId, j) in r && r[StepKey(runId, j)] == NewStep(j)
    ensures forall k :: k in steps && !(k.runId == runId && 1 <= k.stepNumber <= n) ==> k in r && r[k] == steps[k]
    ensures forall k :: k in r ==> k in steps || (k.runId == runId && 1 <= k.stepNumber <= n)
  {
    if n == 0 then steps else AddFreshSteps(steps, runId, n - 1)[StepKey(runId, n) := NewStep(n)]
  }

  /** The tables after startPipelineRun's transaction */
  function WithNewRun(db: Db, runId: string, run: PipelineRun): (r: Db)
    ensures r.logs == db.logs && r.runs == db.runs[runId := run]
    ensures HasFreshSteps(r, runId)
    ensures forall k :: k in db.steps && k.runId != runId ==> k in r.steps && r.steps[k] == db.steps[k]
    ensures WellFormed(db) ==> WellFormed(r)
  {
    db.(runs := db.runs[runId := run], steps := AddFreshSteps(db.steps, runId, 4))
  }

  /** The two INSERTs: the run as Running, then its four Pending steps */
  method InsertRunAndSteps(store: Store, runId: string, run: PipelineRun)
    modifies store
    ensures store.State() == WithNewRun(old(store.State()), runId, run)
  {
    store.InsertRun(runId, run);
    var i := 0;
    while i < 4
      invariant 0 <= i <= 4
      invariant store.State() == old(store.State()).(runs := old(store.runs)[runId := run], steps := AddFreshSteps(old(store.steps), runId, i))
    {
      store.InsertStep(StepKey(runId, i + 1), NewStep(i + 1));
      i := i + 1;
    }
  }

  /** startPipelineRun followed by its background task, run to completion.
      `runId` is the fresh UUID and `adfRunId` the "local-" id the code derives from the clock. */
  method StartPipelineRun(store: Store, registry: Registry, runId: string, pipelineName: string, adfRunId: string,
                          csvPath: Option<string>, schema: SchemaOutcome, crashMessage: Option<string>,
                          outcomes: seq<StepOutcome>, arrivals: seq<bool>, now: Instant) returns (id: string)
    requires |outcomes| == 4 && |arrivals| == 6
    modifies store, registry
    ensures id == runId
    ensures exists n :: (IsNextRunNumber(old(store.runs), n)
      && Shared(store.State(), registry.ids)
         == BackgroundSpec(Shared(WithNewRun(old(store.State()), runId, FreshRun(n, pipelineName, adfRunId, now)), old(registry.ids)),
                           runId, csvPath, schema, crashMessage, outcomes, arrivals, now))
  {
    var n := NextRunNumber(store);
    ghost var before := store.State();
    InsertRunAndSteps(store, runId, FreshRun(n, pipelineName, adfRunId, now));
    ghost var started := Shared(store.State(), registry.ids);
    var escaped := ExecutePipelineSteps(store, registry, runId, csvPath, schema, outcomes, arrivals, now);
    if escaped {
      LogRunErrorAndMarkFailed(store, Some(runId), crashMessage, now);
    }
    assert Shared(store.State(), registry.ids) == BackgroundSpec(started, runId, csvPath, schema, crashMessage, outcomes, arrivals, now);
    id := runId;
  }

  /** The new run's number is above every existing one, so run numbers stay distinct */
  lemma NewRunNumberDistinct(db: Db, runId: string, n: int, pipelineName: string, adfRunId: string, now: Instant)
    requires runId !in db.runs && IsNextRunNumber(db.runs, n)
    requires forall a, b :: a in db.runs && b in db.runs && a != b ==> db.runs[a].runNumber != db.runs[b].runNumber
    ensures var r := WithNewRun(db, runId, FreshRun(n, pipelineName, adfRunId, now));
      forall a, b :: a in r.runs && b in r.runs && a != b ==> r.runs[a].runNumber != r.runs[b].runNumber
  {
  }

  // ---- what a run ends with ----

  /** The newest log line, if any */
  function LastLog(logs: seq<LogEntry>): Option<LogEntry> {
    if logs == [] then None else Some(logs[|logs| - 1])
  }

  /** A step row after updateStepSuccess(rows, null) */
  function Completed(s: StepRun, rows: int, now: Instant): StepRun {
    s.(status := Success, startedAt := Some(now), finishedAt := Some(now), rowsAffected := Some(rows), errorMessage := None)
  }

  /** A step row after updateStepRunning and then updateStepSuccess(0, message) */
  function MarkedFailed(s: StepRun, message: Option<string>, now: Instant): StepRun {
    s.(status := if message.Some? then Failed else Success, startedAt := Some(now), finishedAt := Some(now),
       rowsAffected := Some(0), errorMessage := message)
  }

  /** The step rows after steps i + 1 to f returned their counts */
  function CompleteUpTo(steps: map<StepKey, StepRun>, runId: string, i: int, f: int,
                        outcomes: seq<StepOutcome>, now: Instant): (r: map<StepKey, StepRun>)
    requires 0 <= i <= f <= 4 && |outcomes| == 4
    requires forall j :: i <= j < f ==> outcomes[j].Rows?
    ensures r.Keys == steps.Keys
    ensures forall n :: i < n <= f && StepKey(runId, n) in steps ==>
      r[StepKey(runId, n)] == Completed(steps[StepKey(runId, n)], outcomes[n - 1].n, now)
    ensures forall k :: k in steps && (k.runId != runId || k.stepNumber <= i || k.stepNumber > f) ==> r[k] == steps[k]
    decreases f - i
  {
    if i == f then steps
    else
      var key := StepKey(runId, i + 1);
      var next := if key in steps then steps[key := Completed(steps[key], outcomes[i].n, now)] else steps;
      CompleteUpTo(next, runId, i + 1, f, outcomes, now)
  }

  /** Every step of the run completed with the count its executor returned */
  predicate AllCompleted(steps: map<StepKey, StepRun>, runId: string, outcomes: seq<StepOutcome>)
    requires |outcomes| == 4
  {
    forall n :: 1 <= n <= 4 ==>
      StepKey(runId, n) in steps && outcomes[n - 1].Rows?
      && steps[StepKey(runId, n)].status == Success && steps[StepKey(runId, n)].rowsAffected == Some(outcomes[n - 1].n)
  }

  /** Completing all four rows of a run leaves each Success with its count */
  lemma CompletedAll(steps: map<StepKey, StepRun>, runId: string, outcomes: seq<StepOutcome>, now: Instant)
    requires |outcomes| == 4
    requires forall j :: 0 <= j < 4 ==> outcomes[j].Rows?
    requires forall n :: 1 <= n <= 4 ==> StepKey(runId, n) in steps
    ensures AllCompleted(CompleteUpTo(steps, runId, 0, 4, outcomes, now), runId, outcomes)
  {
  }

  /** Steps before f + 1 completed, step f + 1 is in the given row, later steps still Pending */
  predicate StoppedAt(steps: map<StepKey, StepRun>, runId: string, f: int, row: StepRun)
    requires 0 <= f < 4
  {
    (forall n :: 1 <= n <= f ==> StepKey(runId, n) in steps && steps[StepKey(runId, n)].status == Success)
    && StepKey(runId, f + 1) in steps && steps[StepKey(runId, f + 1)] == row
    && (forall n :: f + 1 < n <= 4 ==> StepKey(runId, n) in steps && steps[StepKey(runId, n)] == NewStep(n))
  }

  /** Once step i is set Running, it is the only Running step of the run */
  lemma OneStepRunning(db: Db, runId: string, i: int, now: Instant)
    requires Idle(db, runId) && 0 <= i < 4
    ensures forall n :: 1 <= n <= 4 ==> (RunningAt(BeginStep(db, runId, i, now), runId, n) <==> n == i + 1)
  {
  }

  /** The tables after step i completed with `rows` */
  function AfterStep(w: Shared, runId: string, i: int, rows: int, now: Instant): Shared {
    Shared(EndStep(BeginStep(w.db, runId, i, now), runId, i, rows, now), w.cancelled)
  }

  /** Completing a step touches that step's row alone */
  lemma AfterStepRows(w: Shared, runId: string, i: int, rows: int, now: Instant)
    ensures var w2 := AfterStep(w, runId, i, rows, now);
      var key := StepKey(runId, i + 1);
      w2.db.runs == w.db.runs && w2.cancelled == w.cancelled
      && w2.db.steps == (if key in w.db.steps then w.db.steps[key := Completed(w.db.steps[key], rows, now)] else w.db.steps)
      && (Idle(w.db, runId) ==> Idle(w2.db, runId))
  {
  }

  /** A loop pass that sees no cancellation and whose step returns a count */
  lemma LoopRowsStep(w: Shared, runId: string, i: int, lastRows: int, outcomes: seq<StepOutcome>, arrivals: seq<bool>, now: Instant)
    requires 0 <= i < 4 && |outcomes| == 4 && |arrivals| == 6
    requires outcomes[i].Rows? && runId !in Arrive(w, arrivals[i + 1], runId, now).cancelled
    ensures LoopFrom(w, runId, i, lastRows, outcomes, arrivals, now)
         == LoopFrom(AfterStep(Arrive(w, arrivals[i + 1], runId, now), runId, i, outcomes[i].n, now),
                     runId, i + 1, outcomes[i].n, outcomes, arrivals, now)
  {
  }

  /** A loop pass whose step throws: that step is marked, the run ends Failed */
  lemma FailHere(w: Shared, runId: string, i: int, lastRows: int, outcomes: seq<StepOutcome>, arrivals: seq<bool>, now: Instant)
    requires 0 <= i < 4 && |outcomes| == 4 && |arrivals| == 6
    requires outcomes[i].Threw? && runId !in Arrive(w, arrivals[i + 1], runId, now).cancelled
    requires Idle(w.db, runId)
    ensures var r := LoopFrom(w, runId, i, lastRows, outcomes, arrivals, now);
      var key := StepKey(runId, i + 1);
      (runId in w.db.runs ==> r.db.runs[runId].status == Failed)
      && r.db.steps == w.db.steps[key := MarkedFailed(w.db.steps[key], outcomes[i].message, now)]
  {
    var message := outcomes[i].message;
    var w1 := Arrive(w, arrivals[i + 1], runId, now);
    var key := StepKey(runId, i + 1);
    var db2 := AddLog(BeginStep(w1.db, runId, i, now), LogEntry(runId, Error, None, PipelineFailed(message)));
    assert RunningAt(db2, runId, AllSteps[i]);
    FirstRunningMarked(db2, runId, AllSteps, i, message, now);
    var marked := MarkFirstRunning(db2, runId, AllSteps, message, now);
    MarkAfterBegin(db2, w1.db.steps, key, message, now);
    assert marked.steps == w.db.steps[key := MarkedFailed(w.db.steps[key], message, now)];
    assert LoopFrom(w, runId, i, lastRows, outcomes, arrivals, now) == Shared(FinishRun(marked, runId, Failed, now), w1.cancelled);
  }

  /** updateStepRunning followed by updateStepSuccess(0, message) on one row */
  lemma MarkAfterBegin(db: Db, before: map<StepKey, StepRun>, key: StepKey, message: Option<string>, now: Instant)
    requires key in before && db.steps == before[key := before[key].(status := Running, startedAt := Some(now))]
    ensures FinishStep(db, key, 0, message, now).steps == before[key := MarkedFailed(before[key], message, now)]
  {
  }

  /** A loop pass that sees a cancellation marks no step */
  lemma CancelKeepsSteps(w: Shared, runId: string, i: int, lastRows: int, outcomes: seq<StepOutcome>, arrivals: seq<bool>, now: Instant)
    requires 0 <= i < 4 && |outcomes| == 4 && |arrivals| == 6
    requires runId in Arrive(w, arrivals[i + 1], runId, now).cancelled && Idle(w.db, runId)
    ensures LoopFrom(w, runId, i, lastRows, outcomes, arrivals, now).db.steps == w.db.steps
  {
    var w1 := Arrive(w, arrivals[i + 1], runId, now);
    var db2 := AddLog(w1.db, LogEntry(runId, Info, None, CancelledByUser));
    assert forall j :: 0 <= j < |AllSteps| ==> !RunningAt(db2, runId, AllSteps[j]);
  }

  /** A loop pass that sees an accepted cancel request: nothing is marked, the run ends Cancelled */
  lemma CancelHere(w: Shared, runId: string, i: int, lastRows: int, outcomes: seq<StepOutcome>, arrivals: seq<bool>, now: Instant)
    requires 0 <= i < 4 && |outcomes| == 4 && |arrivals| == 6
    requires arrivals[i + 1] && runId != []
    requires runId in w.db.runs && w.db.runs[runId].status == Running && Idle(w.db, runId)
    ensures var r := LoopFrom(w, runId, i, lastRows, outcomes, arrivals, now);
      r.db.runs[runId].status == Cancelled
      && LastLog(r.db.logs) == Some(LogEntry(runId, Info, None, CancelledByUser))
      && r.db.steps == w.db.steps
  {
    var w1 := AfterCancelRequest(w, runId, now);
    assert Arrive(w, arrivals[i + 1], runId, now) == w1;
    assert runId in w1.cancelled;
    var db2 := AddLog(w1.db, LogEntry(runId, Info, None, CancelledByUser));
    assert forall j :: 0 <= j < |AllSteps| ==> !RunningAt(db2, runId, AllSteps[j]);
    assert MarkFirstRunning(db2, runId, AllSteps, Some(CancelMessage), now) == db2;
    assert LoopFrom(w, runId, i, lastRows, outcomes, arrivals, now) == Shared(FinishRun(db2, runId, Cancelled, now), w1.cancelled);
  }

  /** From step i on, every step completes and the run ends Success with the last count logged */
  lemma {:induction false} SuccessFrom(w: Shared, runId: string, i: int, lastRows: int, outcomes: seq<StepOutcome>, arrivals: seq<bool>, now: Instant)
    requires 0 <= i <= 4 && |outcomes| == 4 && |arrivals| == 6
    requires forall j :: i <= j < 4 ==> outcomes[j].Rows?
    requires forall j :: i < j < 5 ==> !arrivals[j]
    requires runId in w.db.runs && runId !in w.cancelled
    ensures var r := LoopFrom(w, runId, i, lastRows, outcomes, arrivals, now);
      r.db.runs[runId].status == Success
      && LastLog(r.db.logs) == Some(LogEntry(runId, Info, None, PipelineCompleted(if i == 4 then lastRows else outcomes[3].n)))
      && r.db.steps == CompleteUpTo(w.db.steps, runId, i, 4, outcomes, now)
    decreases 4 - i
  {
    if i < 4 {
      var w2 := AfterStep(w, runId, i, outcomes[i].n, now);
      AfterStepRows(w, runId, i, outcomes[i].n, now);
      LoopRowsStep(w, runId, i, lastRows, outcomes, arrivals, now);
      SuccessFrom(w2, runId, i + 1, outcomes[i].n, outcomes, arrivals, now);
    }
  }

  /** Steps before f complete; step f's exception ends the run Failed and no later step starts */
  lemma {:induction false} FailureFrom(w: Shared, runId: string, i: int, f: int, lastRows: int,
                                       outcomes: seq<StepOutcome>, arrivals: seq<bool>, now: Instant)
    requires 0 <= i <= f < 4 && |outcomes| == 4 && |arrivals| == 6
    requires forall j :: i <= j < f ==> outcomes[j].Rows?
    requires outcomes[f].Threw?
    requires forall j :: i < j <= f + 1 ==> !arrivals[j]
    requires runId in w.db.runs && runId !in w.cancelled && Idle(w.db, runId)
    ensures var r := LoopFrom(w, runId, i, lastRows, outcomes, arrivals, now);
      var done := CompleteUpTo(w.db.steps, runId, i, f, outcomes, now);
      var key := StepKey(runId, f + 1);
      r.db.runs[runId].status == Failed
      && r.db.steps == done[key := MarkedFailed(done[key], outcomes[f].message, now)]
    decreases f - i
  {
    if i < f {
      var w2 := AfterStep(w, runId, i, outcomes[i].n, now);
      AfterStepRows(w, runId, i, outcomes[i].n, now);
      LoopRowsStep(w, runId, i, lastRows, outcomes, arrivals, now);
      FailureFrom(w2, runId, i + 1, f, outcomes[i].n, outcomes, arrivals, now);
    } else {
      FailHere(w, runId, i, lastRows, outcomes, arrivals, now);
    }
  }

  /** A cancel request accepted before check c: steps before c complete, no
      step is marked, no later step starts, the run ends Cancelled */
  lemma {:induction false} CancelFrom(w: Shared, runId: string, i: int, c: int, lastRows: int,
                                      outcomes: seq<StepOutcome>, arrivals: seq<bool>, now: Instant)
    requires 0 <= i <= c < 4 && |outcomes| == 4 && |arrivals| == 6
    requires forall j :: i <= j < c ==> outcomes[j].Rows?
    requires forall j :: i < j <= c ==> !arrivals[j]
    requires arrivals[c + 1] && runId != []
    requires runId in w.db.runs && w.db.runs[runId].status == Running && runId !in w.cancelled && Idle(w.db, runId)
    ensures var r := LoopFrom(w, runId, i, lastRows, outcomes, arrivals, now);
      r.db.runs[runId].status == Cancelled
      && LastLog(r.db.logs) == Some(LogEntry(runId, Info, None, CancelledByUser))
      && r.db.steps == CompleteUpTo(w.db.steps, runId, i, c, outcomes, now)
    decreases c - i
  {
    if i < c {
      var w2 := AfterStep(w, runId, i, outcomes[i].n, now);
      AfterStepRows(w, runId, i, outcomes[i].n, now);
      LoopRowsStep(w, runId, i, lastRows, outcomes, arrivals, now);
      CancelFrom(w2, runId, i + 1, c, outcomes[i].n, outcomes, arrivals, now);
    } else {
      CancelHere(w, runId, i, lastRows, outcomes, arrivals, now);
    }
  }

  /** However the steps end and whenever cancel requests arrive, no step of the run is left Running */
  lemma {:induction false} IdleFrom(w: Shared, runId: string, i: int, lastRows: int, outcomes: seq<StepOutcome>, arrivals: seq<bool>, now: Instant)
    requires 0 <= i <= 4 && |outcomes| == 4 && |arrivals| == 6
    requires Idle(w.db, runId)
    ensures Idle(LoopFrom(w, runId, i, lastRows, outcomes, arrivals, now).db, runId)
    decreases 4 - i
  {
    if i == 4 {
      assert LoopFrom(w, runId, i, lastRows, outcomes, arrivals, now).db.steps == w.db.steps;
    } else if runId in Arrive(w, arrivals[i + 1], runId, now).cancelled {
      CancelKeepsSteps(w, runId, i, lastRows, outcomes, arrivals, now);
    } else if outcomes[i].Rows? {
      RowsKeepIdle(w, runId, i, lastRows, outcomes, arrivals, now);
      IdleFrom(AfterStep(Arrive(w, arrivals[i + 1], runId, now), runId, i, outcomes[i].n, now),
               runId, i + 1, outcomes[i].n, outcomes, arrivals, now);
    } else {
      ThrowLeavesIdle(w, runId, i, lastRows, outcomes, arrivals, now);
    }
  }

  /** A step that returns a count leaves no step Running */
  lemma RowsKeepIdle(w: Shared, runId: string, i: int, lastRows: int, outcomes: seq<StepOutcome>, arrivals: seq<bool>, now: Instant)
    requires 0 <= i < 4 && |outcomes| == 4 && |arrivals| == 6
    requires outcomes[i].Rows? && runId !in Arrive(w, arrivals[i + 1], runId, now).cancelled
    requires Idle(w.db, runId)
    ensures var w2 := AfterStep(Arrive(w, arrivals[i + 1], runId, now), runId, i, outcomes[i].n, now);
      Idle(w2.db, runId)
      && LoopFrom(w, runId, i, lastRows, outcomes, arrivals, now) == LoopFrom(w2, runId, i + 1, outcomes[i].n, outcomes, arrivals, now)
  {
    var w1 := Arrive(w, arrivals[i + 1], runId, now);
    assert w1.db.steps == w.db.steps;
    LoopRowsStep(w, runId, i, lastRows, outcomes, arrivals, now);
    AfterStepRows(w1, runId, i, outcomes[i].n, now);
  }

  /** A step that throws is marked, so no step is left Running */
  lemma ThrowLeavesIdle(w: Shared, runId: string, i: int, lastRows: int, outcomes: seq<StepOutcome>, arrivals: seq<bool>, now: Instant)
    requires 0 <= i < 4 && |outcomes| == 4 && |arrivals| == 6
    requires outcomes[i].Threw? && runId !in Arrive(w, arrivals[i + 1], runId, now).cancelled
    requires Idle(w.db, runId)
    ensures Idle(LoopFrom(w, runId, i, lastRows, outcomes, arrivals, now).db, runId)
  {
    FailHere(w, runId, i, lastRows, outcomes, arrivals, now);
  }

  // ---- a fresh run, end to end ----

  /** The tables runPipeline's loop starts from */
  function LoopStart(db: Db, runId: string, csvPath: Option<string>): Db {
    AddLog(AddLog(db, LogEntry(runId, Info, Some(0), RunInitialized)), LogEntry(runId, Info, None, PipelineStarted(csvPath)))
  }

  /** With a fresh run, no cancellation seen and initSchema passing, executePipelineSteps reaches the loop */
  lemma ReachesLoop(w: Shared, runId: string, csvPath: Option<string>, outcomes: seq<StepOutcome>, arrivals: seq<bool>, now: Instant)
    requires |outcomes| == 4 && |arrivals| == 6
    requires Fresh(w, runId) && !arrivals[0]
    ensures ExecuteSpec(w, runId, csvPath, SchemaOk, outcomes, arrivals, now)
         == var r := LoopFrom(Shared(LoopStart(w.db, runId, csvPath), w.cancelled), runId, 0, 0, outcomes, arrivals, now);
            Shared(r.db, r.cancelled - {runId})
  {
    var db := LoopStart(w.db, runId, csvPath);
    assert StepNumbersOf(db, runId) == AllSteps;
  }

  /** All four steps return counts: each step is Success with its count, the
      run is Success and the last line carries step 4's count; a cancel request
      that lands after step 4 is overwritten */
  lemma AllStepsSucceed(w: Shared, runId: string, csvPath: Option<string>, outcomes: seq<StepOutcome>, arrivals: seq<bool>, now: Instant)
    requires |outcomes| == 4 && |arrivals| == 6
    requires Fresh(w, runId)
    requires forall j :: 0 <= j < 4 ==> outcomes[j].Rows?
    requires forall j :: 0 <= j < 5 ==> !arrivals[j]
    ensures var r := ExecuteSpec(w, runId, csvPath, SchemaOk, outcomes, arrivals, now);
      r.db.runs[runId].status == Success
      && AllCompleted(r.db.steps, runId, outcomes)
      && LastLog(r.db.logs) == Some(LogEntry(runId, Info, None, PipelineCompleted(outcomes[3].n)))
      && r.cancelled == w.cancelled - {runId}
  {
    ReachesLoop(w, runId, csvPath, outcomes, arrivals, now);
    var w1 := Shared(LoopStart(w.db, runId, csvPath), w.cancelled);
    SuccessFrom(w1, runId, 0, 0, outcomes, arrivals, now);
    CompletedAll(w1.db.steps, runId, outcomes, now);
  }

  /** Step f throws: earlier steps are Success, step f keeps 0 rows and the
      message (and is Success when the exception has no message), later
      steps never leave Pending, the run is Failed */
  lemma StepFailureRecorded(w: Shared, runId: string, csvPath: Option<string>, f: int,
                            outcomes: seq<StepOutcome>, arrivals: seq<bool>, now: Instant)
    requires |outcomes| == 4 && |arrivals| == 6 && 0 <= f < 4
    requires Fresh(w, runId)
    requires forall j :: 0 <= j < f ==> outcomes[j].Rows?
    requires outcomes[f].Threw?
    requires forall j :: 0 <= j <= f + 1 ==> !arrivals[j]
    ensures var r := ExecuteSpec(w, runId, csvPath, SchemaOk, outcomes, arrivals, now);
      r.db.runs[runId].status == Failed
      && StoppedAt(r.db.steps, runId, f, MarkedFailed(NewStep(f + 1), outcomes[f].message, now))
  {
    ReachesLoop(w, runId, csvPath, outcomes, arrivals, now);
    var w1 := Shared(LoopStart(w.db, runId, csvPath), w.cancelled);
    FailureFrom(w1, runId, 0, f, 0, outcomes, arrivals, now);
    FreshStoppedAt(w1.db.steps, runId, f, outcomes, outcomes[f].message, now);
  }

  /** Fresh rows where steps 1 to f completed and step f + 1 was marked */
  lemma FreshStoppedAt(steps: map<StepKey, StepRun>, runId: string, f: int, outcomes: seq<StepOutcome>,
                       message: Option<string>, now: Instant)
    requires 0 <= f < 4 && |outcomes| == 4
    requires forall j :: 0 <= j < f ==> outcomes[j].Rows?
    requires forall n :: 1 <= n <= 4 ==> StepKey(runId, n) in steps && steps[StepKey(runId, n)] == NewStep(n)
    ensures var done := CompleteUpTo(steps, runId, 0, f, outcomes, now);
      var key := StepKey(runId, f + 1);
      StoppedAt(done[key := MarkedFailed(done[key], message, now)], runId, f, MarkedFailed(NewStep(f + 1), message, now))
  {
  }

  /** A cancel request accepted just before check c: steps before c are
      Success, no step is marked "Cancelled", the steps from c on never start,
      and the run is Cancelled */
  lemma CancelStopsRun(w: Shared, runId: string, csvPath: Option<string>, c: int,
                       outcomes: seq<StepOutcome>, arrivals: seq<bool>, now: Instant)
    requires |outcomes| == 4 && |arrivals| == 6 && 0 <= c < 4
    requires Fresh(w, runId) && runId != []
    requires forall j :: 0 <= j < c ==> outcomes[j].Rows?
    requires forall j :: 0 <= j <= c ==> !arrivals[j]
    requires arrivals[c + 1]
    ensures var r := ExecuteSpec(w, runId, csvPath, SchemaOk, outcomes, arrivals, now);
      r.db.runs[runId].status == Cancelled
      && (forall n :: 1 <= n <= c ==> r.db.steps[StepKey(runId, n)].status == Success && r.db.steps[StepKey(runId, n)].errorMessage == None)
      && (forall n :: c < n <= 4 ==> r.db.steps[StepKey(runId, n)] == NewStep(n))
      && LastLog(r.db.logs) == Some(LogEntry(runId, Info, None, CancelledByUser))
      && r.cancelled == w.cancelled - {runId}
  {
    ReachesLoop(w, runId, csvPath, outcomes, arrivals, now);
    var w1 := Shared(LoopStart(w.db, runId, csvPath), w.cancelled);
    CancelFrom(w1, runId, 0, c, 0, outcomes, arrivals, now);
    var r := LoopFrom(w1, runId, 0, 0, outcomes, arrivals, now);
  }

  /** A cancellation seen by the first check: no step row and no log line is
      touched, and the run keeps what the cancel request gave it */
  lemma EarlyCancelTouchesNothing(w: Shared, runId: string, csvPath: Option<string>, schema: SchemaOutcome,
                                  outcomes: seq<StepOutcome>, arrivals: seq<bool>, now: Instant)
    requires |outcomes| == 4 && |arrivals| == 6
    requires runId in w.db.runs
    requires runId in w.cancelled || (arrivals[0] && w.db.runs[runId].status == Running && runId != [])
    ensures var r := ExecuteSpec(w, runId, csvPath, schema, outcomes, arrivals, now);
      r.db.steps == w.db.steps && r.db.logs == w.db.logs
      && (runId !in w.cancelled ==> r.db.runs[runId].status == Cancelled)
      && !Escapes(w, runId, schema, arrivals, now)
  {
  }

  /** A run that does not have four step rows is reported and left as it is (Running) */
  lemma WrongStepCountLeavesRun(w: Shared, runId: string, csvPath: Option<string>,
                                outcomes: seq<StepOutcome>, arrivals: seq<bool>, now: Instant)
    requires |outcomes| == 4 && |arrivals| == 6
    requires runId !in w.cancelled && !arrivals[0] && |StepNumbersOf(w.db, runId)| != 4
    ensures var r := ExecuteSpec(w, runId, csvPath, SchemaOk, outcomes, arrivals, now);
      r.db.runs == w.db.runs && r.db.steps == w.db.steps
      && LastLog(r.db.logs) == Some(LogEntry(runId, Error, None, WrongStepCount(|StepNumbersOf(w.db, runId)|)))
  {
    assert StepNumbersOf(LoopStart(w.db, runId, csvPath), runId) == StepNumbersOf(w.db, runId);
  }

  /** An initSchema failure: one Error line, the run Failed, no step touched;
      a failure without message is only caught by the background task */
  lemma SchemaFailureMarksRun(w: Shared, runId: string, csvPath: Option<string>, schema: SchemaOutcome, crashMessage: Option<string>,
                              outcomes: seq<StepOutcome>, arrivals: seq<bool>, now: Instant)
    requires |outcomes| == 4 && |arrivals| == 6
    requires runId in w.db.runs && runId !in w.cancelled && !arrivals[0] && schema != SchemaOk
    ensures var r := BackgroundSpec(w, runId, csvPath, schema, crashMessage, outcomes, arrivals, now);
      r.db.runs[runId].status == Failed && r.db.steps == w.db.steps
      && r.db.logs == w.db.logs + [LogEntry(runId, Error, None, RunError(
           if schema == SchemaCrashed then crashMessage.GetOr("Pipeline failed") else SchemaFailureMessage(schema).value))]
      && r.cancelled == w.cancelled - {runId}
  {
  }

  /** Whatever the steps do and whenever cancel requests arrive, no step of the run is left Running */
  lemma NoStepLeftRunning(w: Shared, runId: string, csvPath: Option<string>, schema: SchemaOutcome, crashMessage: Option<string>,
                          outcomes: seq<StepOutcome>, arrivals: seq<bool>, now: Instant)
    requires |outcomes| == 4 && |arrivals| == 6
    requires Idle(w.db, runId)
    ensures Idle(BackgroundSpec(w, runId, csvPath, schema, crashMessage, outcomes, arrivals, now).db, runId)
  {
    var w0 := Arrive(w, arrivals[0], runId, now);
    if runId !in w0.cancelled && schema == SchemaOk {
      var db := AddLog(w0.db, LogEntry(runId, Info, Some(0), RunInitialized));
      var db1 := AddLog(db, LogEntry(runId, Info, None, PipelineStarted(csvPath)));
      if |StepNumbersOf(db1, runId)| == 4 {
        IdleFrom(Shared(db1, w0.cancelled), runId, 0, 0, outcomes, arrivals, now);
      }
    }
  }
}
