/** The JavaScript orchestrator (python_code/orchestrator/index.js): the same
    run and step tables, the same four steps, but no cancellation, no
    step-count check, a log line before each step's update, and a failure
    that always marks the Running step Failed with no row count. */
module JsOrchestrator {
  import opened Wrappers
  import opened Store
  import PipelineRunner
  import Database
  import opened ApiServlet

  /** The TypeError a missing step row raises when its StepRunId is read */
  const MissingStepMessage: string := "Cannot read properties of undefined (reading 'StepRunId')"

  /** What executePipelineSteps ends with: the run id, or the error it rethrows */
  datatype JsResult = Returned(runId: string) | Rethrown(message: Option<string>)

  /** The state of the try block after some steps: still going, or thrown */
  datatype Progress = Going(db: Db, lastRows: int) | Raised(db: Db, message: Option<string>)

  /** The run after executePipelineSteps, with what it returned or threw */
  datatype JsRun = JsRun(db: Db, result: JsResult)

  /** `errorMessage || null`: an absent or empty message is stored as null */
  function StoredMessage(message: Option<string>): (r: Option<string>)
    ensures r.None? <==> (message.None? || message.value == [])
    ensures r.Some? ==> r == message
  {
    if message.Some? && message.value != [] then message else None
  }

  /** One step block: its "started" line, then the Running update (which reads
      the StepRunId of the row found), the step, the Success update and its line */
  function JsStep(db: Db, runId: string, steps: seq<int>, i: int, outcome: PipelineRunner.StepOutcome, now: Instant): (r: Progress)
    ensures r.db.runs == db.runs && r.db.steps.Keys == db.steps.Keys
    ensures forall k :: k in db.steps && k != StepKey(runId, i + 1) ==> r.db.steps[k] == db.steps[k]
  {
    var key := StepKey(runId, i + 1);
    var db1 := AddLog(db, LogEntry(runId, Info, Some(i + 1), StepStarted(i + 1)));
    if i + 1 !in steps then Raised(db1, Some(MissingStepMessage))
    else
      var db2 := StartStep(db1, key, now);
      match outcome
      case Rows(n) => Going(AddLog(SetStepResult(db2, key, Success, Some(n), None, now),
                                   LogEntry(runId, Info, Some(i + 1), StepCompleted(i + 1, n))), n)
      case Threw(message) => Raised(db2, message)
  }

  /** The step blocks from index i on; the first throw ends the try block */
  function JsStepsFrom(db: Db, runId: string, steps: seq<int>, i: int, lastRows: int,
                       outcomes: seq<PipelineRunner.StepOutcome>, now: Instant): (r: Progress)
    requires 0 <= i <= 4 && |outcomes| == 4
    ensures r.db.runs == db.runs && r.db.steps.Keys == db.steps.Keys
    ensures forall k :: k in db.steps && k.runId != runId ==> r.db.steps[k] == db.steps[k]
    decreases 4 - i
  {
    if i == 4 then Going(db, lastRows)
    else match JsStep(db, runId, steps, i, outcomes[i], now)
      case Going(d, n) => JsStepsFrom(d, runId, steps, i + 1, n, outcomes, now)
      case Raised(d, m) => Raised(d, m)
  }

  /** `steps.find(...)` in the catch block: the first loaded step whose stored status is Running */
  function FirstRunning(db: Db, runId: string, steps: seq<int>): (r: Option<int>)
    ensures r.Some? ==> r.value in steps && PipelineRunner.RunningAt(db, runId, r.value)
    ensures r.Some? ==> exists f :: 0 <= f < |steps| && steps[f] == r.value
                                    && forall i :: 0 <= i < f ==> !PipelineRunner.RunningAt(db, runId, steps[i])
    ensures r.None? <==> forall i :: 0 <= i < |steps| ==> !PipelineRunner.RunningAt(db, runId, steps[i])
    decreases |steps|
  {
    if steps == [] then None
    else if PipelineRunner.RunningAt(db, runId, steps[0]) then Some(steps[0])
    else
      var r := FirstRunning(db, runId, steps[1..]);
      assert r.Some? ==> exists f :: 0 <= f < |steps| && steps[f] == r.value
                                     && forall i :: 0 <= i < f ==> !PipelineRunner.RunningAt(db, runId, steps[i]) by {
        if r.Some? {
          var f :| 0 <= f < |steps[1..]| && steps[1..][f] == r.value
                   && forall i :: 0 <= i < f ==> !PipelineRunner.RunningAt(db, runId, steps[1..][i]);
          assert steps[f + 1] == r.value;
        }
      }
      r
  }

  /** The catch block's update of the step found: Failed, no row count, the message or null */
  function MarkFound(db: Db, runId: string, found: Option<int>, message: Option<string>, now: Instant): Db {
    match found
    case None => db
    case Some(n) =>
      AddLog(SetStepResult(db, StepKey(runId, n), Failed, None, StoredMessage(message), now),
             LogEntry(runId, Error, Some(n), StepFailed(n, message)))
  }

  /** What follows the try block: the success path, or the catch block that
      marks the first Running step of the loaded ones and rethrows */
  function JsFinish(runId: string, steps: seq<int>, p: Progress, now: Instant): (r: JsRun)
    ensures r.db.runs.Keys == p.db.runs.Keys && r.db.steps.Keys == p.db.steps.Keys
    ensures forall id :: id in p.db.runs && id != runId ==> r.db.runs[id] == p.db.runs[id]
    ensures forall k :: k in p.db.steps && k.runId != runId ==> r.db.steps[k] == p.db.steps[k]
    ensures runId in p.db.runs ==> r.db.runs[runId].status == (if r.result.Returned? then Success else Failed)
    ensures r.result == (if p.Going? then Returned(runId) else Rethrown(p.message))
    ensures p.Going? ==> r.db.steps == p.db.steps
                         && PipelineRunner.LastLog(r.db.logs) == Some(LogEntry(runId, Info, None, PipelineCompleted(p.lastRows)))
    ensures p.Raised? ==> r.db.steps == MarkFound(p.db, runId, FirstRunning(p.db, runId, steps), p.message, now).steps
  {
    match p
    case Going(d, rows) =>
      JsRun(AddLog(FinishRun(d, runId, Success, now), LogEntry(runId, Info, None, PipelineCompleted(rows))), Returned(runId))
    case Raised(d, m) =>
      var d1 := AddLog(d, LogEntry(runId, Error, None, PipelineFailed(m)));
      assert FirstRunning(d1, runId, steps) == FirstRunning(d, runId, steps) by {
        assert forall n :: PipelineRunner.RunningAt(d1, runId, n) == PipelineRunner.RunningAt(d, runId, n);
      }
      JsRun(FinishRun(MarkFound(d1, runId, FirstRunning(d1, runId, steps), m, now), runId, Failed, now), Rethrown(m))
  }

  /** executePipelineSteps: the steps are loaded, the start line written, then the try block runs */
  function JsExecuteSpec(db: Db, runId: string, csvPath: Option<string>, outcomes: seq<PipelineRunner.StepOutcome>, now: Instant): (r: JsRun)
    requires |outcomes| == 4
    ensures r.db.runs.Keys == db.runs.Keys && r.db.steps.Keys == db.steps.Keys
    ensures forall id :: id in db.runs && id != runId ==> r.db.runs[id] == db.runs[id]
    ensures forall k :: k in db.steps && k.runId != runId ==> r.db.steps[k] == db.steps[k]
    ensures runId in db.runs ==> r.db.runs[runId].status == (if r.result.Returned? then Success else Failed)
    ensures r.result.Returned? ==> r.result.runId == runId
  {
    var steps := StepNumbersOf(db, runId);
    JsFinish(runId, steps, JsStepsFrom(AddLog(db, LogEntry(runId, Info, None, PipelineStarted(csvPath))), runId, steps, 0, 0, outcomes, now), now)
  }

  /** updateStepRun */
  method UpdateStepRun(store: Store, key: StepKey, status: Status, rows: Option<int>, message: Option<string>, now: Instant)
    modifies store
    ensures store.State() == SetStepResult(old(store.State()), key, status, rows, StoredMessage(message), now)
  {
    var stored := if message.Some? && message.value != [] then message else None;
    store.UpdateStepResult(key, status, rows, stored, now);
  }

  /** One of the four step blocks of the try statement */
  method RunStepBlock(store: Store, runId: string, steps: seq<int>, i: int, outcome: PipelineRunner.StepOutcome, now: Instant)
    returns (threw: bool, message: Option<string>, rows: int)
    modifies store
    ensures var p := JsStep(old(store.State()), runId, steps, i, outcome, now);
      store.State() == p.db && threw == p.Raised? && (p.Raised? ==> message == p.message) && (p.Going? ==> rows == p.lastRows)
  {
    var key := StepKey(runId, i + 1);
    store.Log(LogEntry(runId, Info, Some(i + 1), StepStarted(i + 1)));
    if i + 1 !in steps {
      return true, Some(MissingStepMessage), 0;
    }
    store.UpdateStepRunning(key, now);
    if outcome.Threw? {
      return true, outcome.message, 0;
    }
    UpdateStepRun(store, key, Success, Some(outcome.n), None, now);
    store.Log(LogEntry(runId, Info, Some(i + 1), StepCompleted(i + 1, outcome.n)));
    return false, None, outcome.n;
  }

  /** executePipelineSteps: the start line, the four step blocks, then the
      success path, or the catch block that marks the Running step and rethrows */
  method JsExecutePipelineSteps(store: Store, runId: string, csvPath: Option<string>,
                                outcomes: seq<PipelineRunner.StepOutcome>, now: Instant) returns (result: JsResult)
    requires |outcomes| == 4
    modifies store
    ensures JsRun(store.State(), result) == JsExecuteSpec(old(store.State()), runId, csvPath, outcomes, now)
  {
    var steps := StepNumbersOf(store.State(), runId);
    store.Log(LogEntry(runId, Info, None, PipelineStarted(csvPath)));
    ghost var db0 := store.State();
    var threw, message, rows := false, None, 0;
    ghost var p := JsStepsFrom(db0, runId, steps, 0, 0, outcomes, now);
    threw, message, rows := RunStepBlock(store, runId, steps, 0, outcomes[0], now);
    if !threw {
      assert p == JsStepsFrom(store.State(), runId, steps, 1, rows, outcomes, now);
      threw, message, rows := RunStepBlock(store, runId, steps, 1, outcomes[1], now);
      if !threw {
        assert p == JsStepsFrom(store.State(), runId, steps, 2, rows, outcomes, now);
        threw, message, rows := RunStepBlock(store, runId, steps, 2, outcomes[2], now);
        if !threw {
          assert p == JsStepsFrom(store.State(), runId, steps, 3, rows, outcomes, now);
          threw, message, rows := RunStepBlock(store, runId, steps, 3, outcomes[3], now);
        }
      }
    }
    assert threw ==> p == Raised(store.State(), message);
    assert !threw ==> p == Going(store.State(), rows);
    if !threw {
      store.MarkRunFinished(runId, Success, now);
      store.Log(LogEntry(runId, Info, None, PipelineCompleted(rows)));
      return Returned(runId);
    }
    store.Log(LogEntry(runId, Error, None, PipelineFailed(message)));
    var failed := FirstRunning(store.State(), runId, steps);
    if failed.Some? {
      UpdateStepRun(store, StepKey(runId, failed.value), Failed, None, message, now);
      store.Log(LogEntry(runId, Error, Some(failed.value), StepFailed(failed.value, message)));
    }
    store.MarkRunFinished(runId, Failed, now);
    result := Rethrown(message);
  }

  /** startPipelineRun: the same allocation and rows as the Java runner */
  method JsStartPipelineRun(store: Store, runId: string, pipelineName: string, adfRunId: string, now: Instant) returns (id: string)
    modifies store
    ensures id == runId
    ensures exists n :: (PipelineRunner.IsNextRunNumber(old(store.runs), n)
      && store.State() == PipelineRunner.WithNewRun(old(store.State()), runId, PipelineRunner.FreshRun(n, pipelineName, adfRunId, now)))
  {
    var n := PipelineRunner.NextRunNumber(store);
    PipelineRunner.InsertRunAndSteps(store, runId, PipelineRunner.FreshRun(n, pipelineName, adfRunId, now));
    id := runId;
  }

  /** runPipeline: startPipelineRun, then executePipelineSteps on the same id */
  method JsRunPipeline(store: Store, runId: string, pipelineName: string, adfRunId: string, csvPath: Option<string>,
                       outcomes: seq<PipelineRunner.StepOutcome>, now: Instant) returns (result: JsResult)
    requires |outcomes| == 4
    modifies store
    ensures exists n :: (PipelineRunner.IsNextRunNumber(old(store.runs), n)
      && JsRun(store.State(), result)
         == JsExecuteSpec(PipelineRunner.WithNewRun(old(store.State()), runId, PipelineRunner.FreshRun(n, pipelineName, adfRunId, now)),
                          runId, csvPath, outcomes, now))
  {
    var n := PipelineRunner.NextRunNumber(store);
    PipelineRunner.InsertRunAndSteps(store, runId, PipelineRunner.FreshRun(n, pipelineName, adfRunId, now));
    result := JsExecutePipelineSteps(store, runId, csvPath, outcomes, now);
  }

  // ---- what a run ends with ----

  /** A block whose step returns a count completes its row */
  lemma JsStepReturns(db: Db, runId: string, i: int, n: int, now: Instant)
    requires 0 <= i < 4 && StepKey(runId, i + 1) in db.steps
    ensures var q := JsStep(db, runId, PipelineRunner.AllSteps, i, PipelineRunner.Rows(n), now);
      q.Going? && q.lastRows == n && q.db.runs == db.runs
      && q.db.steps == db.steps[StepKey(runId, i + 1) := PipelineRunner.Completed(db.steps[StepKey(runId, i + 1)], n, now)]
  {
  }

  /** A block whose step throws leaves its row Running */
  lemma JsStepThrows(db: Db, runId: string, i: int, message: Option<string>, now: Instant)
    requires 0 <= i < 4 && StepKey(runId, i + 1) in db.steps
    ensures var q := JsStep(db, runId, PipelineRunner.AllSteps, i, PipelineRunner.Threw(message), now);
      q.Raised? && q.message == message && q.db.runs == db.runs
      && q.db.steps == db.steps[StepKey(runId, i + 1) := db.steps[StepKey(runId, i + 1)].(status := Running, startedAt := Some(now))]
  {
  }

  /** From step i on every step returns a count: each completes and the try block ends normally */
  lemma {:induction false} JsSuccessFrom(db: Db, runId: string, i: int, lastRows: int, outcomes: seq<PipelineRunner.StepOutcome>, now: Instant)
    requires 0 <= i <= 4 && |outcomes| == 4
    requires forall j :: i <= j < 4 ==> outcomes[j].Rows?
    requires forall n :: i < n <= 4 ==> StepKey(runId, n) in db.steps
    ensures var p := JsStepsFrom(db, runId, PipelineRunner.AllSteps, i, lastRows, outcomes, now);
      p.Going? && p.lastRows == (if i == 4 then lastRows else outcomes[3].n)
      && p.db.steps == PipelineRunner.CompleteUpTo(db.steps, runId, i, 4, outcomes, now)
    decreases 4 - i
  {
    if i < 4 {
      JsStepReturns(db, runId, i, outcomes[i].n, now);
      var q := JsStep(db, runId, PipelineRunner.AllSteps, i, outcomes[i], now);
      JsSuccessFrom(q.db, runId, i + 1, outcomes[i].n, outcomes, now);
    }
  }

  /** Steps i + 1 to f complete and step f + 1 throws: it is left Running */
  lemma {:induction false} JsFailureFrom(db: Db, runId: string, i: int, f: int, lastRows: int,
                                         outcomes: seq<PipelineRunner.StepOutcome>, now: Instant)
    requires 0 <= i <= f < 4 && |outcomes| == 4
    requires forall j :: i <= j < f ==> outcomes[j].Rows?
    requires outcomes[f].Threw?
    requires forall n :: i < n <= 4 ==> StepKey(runId, n) in db.steps
    ensures var p := JsStepsFrom(db, runId, PipelineRunner.AllSteps, i, lastRows, outcomes, now);
      var done := PipelineRunner.CompleteUpTo(db.steps, runId, i, f, outcomes, now);
      p.Raised? && p.message == outcomes[f].message
      && p.db.steps == done[StepKey(runId, f + 1) := done[StepKey(runId, f + 1)].(status := Running, startedAt := Some(now))]
    decreases f - i
  {
    if i == f {
      JsStepThrows(db, runId, i, outcomes[i].message, now);
    } else {
      JsStepReturns(db, runId, i, outcomes[i].n, now);
      var q := JsStep(db, runId, PipelineRunner.AllSteps, i, outcomes[i], now);
      JsFailureFrom(q.db, runId, i + 1, f, outcomes[i].n, outcomes, now);
    }
  }

  /** The steps a fresh run loads are the four step numbers in order */
  lemma FreshStepNumbers(db: Db, runId: string)
    requires HasFreshSteps(db, runId)
    ensures StepNumbersOf(db, runId) == PipelineRunner.AllSteps
  {
    assert StepKey(runId, 1) in db.steps && StepKey(runId, 2) in db.steps && StepKey(runId, 3) in db.steps && StepKey(runId, 4) in db.steps;
  }

  /** The executePipelineSteps of a fresh run: its four loaded steps, then the try block */
  lemma JsFreshRun(db: Db, runId: string, csvPath: Option<string>, outcomes: seq<PipelineRunner.StepOutcome>, now: Instant)
    requires |outcomes| == 4 && HasFreshSteps(db, runId)
    ensures JsExecuteSpec(db, runId, csvPath, outcomes, now)
      == JsFinish(runId, PipelineRunner.AllSteps,
                  JsStepsFrom(AddLog(db, LogEntry(runId, Info, None, PipelineStarted(csvPath))), runId, PipelineRunner.AllSteps, 0, 0, outcomes, now), now)
  {
    FreshStepNumbers(db, runId);
  }

  /** The end of a try block in which every step of a run with four rows returned a count */
  lemma JsFinishAfterSuccess(db: Db, runId: string, outcomes: seq<PipelineRunner.StepOutcome>, now: Instant)
    requires |outcomes| == 4 && runId in db.runs
    requires forall n :: 1 <= n <= 4 ==> StepKey(runId, n) in db.steps
    requires forall j :: 0 <= j < 4 ==> outcomes[j].Rows?
    ensures var r := JsFinish(runId, PipelineRunner.AllSteps, JsStepsFrom(db, runId, PipelineRunner.AllSteps, 0, 0, outcomes, now), now);
      r.result == Returned(runId) && r.db.runs[runId].status == Success && PipelineRunner.AllCompleted(r.db.steps, runId, outcomes)
      && PipelineRunner.LastLog(r.db.logs) == Some(LogEntry(runId, Info, None, PipelineCompleted(outcomes[3].n)))
  {
    JsSuccessFrom(db, runId, 0, 0, outcomes, now);
    var p := JsStepsFrom(db, runId, PipelineRunner.AllSteps, 0, 0, outcomes, now);
    PipelineRunner.CompletedAll(db.steps, runId, outcomes, now);
    JsFinishGoing(runId, p, now);
  }

  /** The success path after the try block */
  lemma JsFinishGoing(runId: string, p: Progress, now: Instant)
    requires p.Going? && runId in p.db.runs
    ensures var r := JsFinish(runId, PipelineRunner.AllSteps, p, now);
      r.result == Returned(runId) && r.db.runs[runId].status == Success && r.db.steps == p.db.steps
      && PipelineRunner.LastLog(r.db.logs) == Some(LogEntry(runId, Info, None, PipelineCompleted(p.lastRows)))
  {
  }

  /** The catch block after step f + 1 threw */
  lemma JsFinishRaised(runId: string, f: int, p: Progress, now: Instant)
    requires 0 <= f < 4 && p.Raised? && runId in p.db.runs
    requires PipelineRunner.RunningAt(p.db, runId, f + 1)
    requires forall n :: 1 <= n <= f ==> !PipelineRunner.RunningAt(p.db, runId, n)
    ensures var r := JsFinish(runId, PipelineRunner.AllSteps, p, now);
      r.result == Rethrown(p.message) && r.db.runs[runId].status == Failed
      && r.db.steps == p.db.steps[StepKey(runId, f + 1) := p.db.steps[StepKey(runId, f + 1)].(
           status := Failed, finishedAt := Some(now), rowsAffected := None, errorMessage := StoredMessage(p.message))]
  {
    JsFoundIsFailing(p.db, runId, f);
  }

  /** All four steps return counts: every step Success with its count, the
      run Success, the last line carries the Migrate count, the id is returned */
  lemma JsAllStepsSucceed(db: Db, runId: string, csvPath: Option<string>, outcomes: seq<PipelineRunner.StepOutcome>, now: Instant)
    requires |outcomes| == 4
    requires runId in db.runs && HasFreshSteps(db, runId)
    requires forall j :: 0 <= j < 4 ==> outcomes[j].Rows?
    ensures var r := JsExecuteSpec(db, runId, csvPath, outcomes, now);
      r.result == Returned(runId) && r.db.runs[runId].status == Success && PipelineRunner.AllCompleted(r.db.steps, runId, outcomes)
      && PipelineRunner.LastLog(r.db.logs) == Some(LogEntry(runId, Info, None, PipelineCompleted(outcomes[3].n)))
  {
    JsFreshRun(db, runId, csvPath, outcomes, now);
    JsFinishAfterSuccess(AddLog(db, LogEntry(runId, Info, None, PipelineStarted(csvPath))), runId, outcomes, now);
  }

  /** The end of a try block of a fresh run in which step f + 1 threw */
  lemma JsFinishAfterThrow(db: Db, runId: string, f: int, outcomes: seq<PipelineRunner.StepOutcome>, now: Instant)
    requires |outcomes| == 4 && 0 <= f < 4
    requires runId in db.runs && HasFreshSteps(db, runId)
    requires forall j :: 0 <= j < f ==> outcomes[j].Rows?
    requires outcomes[f].Threw?
    ensures var r := JsFinish(runId, PipelineRunner.AllSteps, JsStepsFrom(db, runId, PipelineRunner.AllSteps, 0, 0, outcomes, now), now);
      r.result == Rethrown(outcomes[f].message) && r.db.runs[runId].status == Failed
      && PipelineRunner.StoppedAt(r.db.steps, runId, f, NewStep(f + 1).(status := Failed, startedAt := Some(now), finishedAt := Some(now),
                                                         rowsAffected := None, errorMessage := StoredMessage(outcomes[f].message)))
  {
    JsFailureFrom(db, runId, 0, f, 0, outcomes, now);
    var p := JsStepsFrom(db, runId, PipelineRunner.AllSteps, 0, 0, outcomes, now);
    StartedAfterCompleted(db.steps, runId, f, outcomes, now);
    JsFinishRaised(runId, f, p, now);
    MarkStopped(p.db.steps, runId, f, NewStep(f + 1).(status := Running, startedAt := Some(now)),
                NewStep(f + 1).(status := Failed, startedAt := Some(now), finishedAt := Some(now),
                                rowsAffected := None, errorMessage := StoredMessage(outcomes[f].message)));
  }

  /** Four Pending rows after steps 1 to f completed and step f + 1 started */
  lemma StartedAfterCompleted(steps: map<StepKey, StepRun>, runId: string, f: int, outcomes: seq<PipelineRunner.StepOutcome>, now: Instant)
    requires |outcomes| == 4 && 0 <= f < 4
    requires forall j :: 0 <= j < f ==> outcomes[j].Rows?
    requires forall n :: 1 <= n <= 4 ==> StepKey(runId, n) in steps && steps[StepKey(runId, n)] == NewStep(n)
    ensures var done := PipelineRunner.CompleteUpTo(steps, runId, 0, f, outcomes, now);
      PipelineRunner.StoppedAt(done[StepKey(runId, f + 1) := done[StepKey(runId, f + 1)].(status := Running, startedAt := Some(now))],
                runId, f, NewStep(f + 1).(status := Running, startedAt := Some(now)))
  {
  }

  /** Replacing the row of step f + 1 keeps the other rows of a stopped run */
  lemma MarkStopped(steps: map<StepKey, StepRun>, runId: string, f: int, row: StepRun, marked: StepRun)
    requires 0 <= f < 4 && PipelineRunner.StoppedAt(steps, runId, f, row)
    ensures PipelineRunner.StoppedAt(steps[StepKey(runId, f + 1) := marked], runId, f, marked)
  {
  }

  /** Step f + 1 throws: earlier steps Success, step f + 1 Failed with no row count and
      the message (null when empty or absent), later steps Pending, the run
      Failed, and the error rethrown */
  lemma JsStepFailureRecorded(db: Db, runId: string, csvPath: Option<string>, f: int, outcomes: seq<PipelineRunner.StepOutcome>, now: Instant)
    requires |outcomes| == 4 && 0 <= f < 4
    requires runId in db.runs && HasFreshSteps(db, runId)
    requires forall j :: 0 <= j < f ==> outcomes[j].Rows?
    requires outcomes[f].Threw?
    ensures var r := JsExecuteSpec(db, runId, csvPath, outcomes, now);
      r.result == Rethrown(outcomes[f].message) && r.db.runs[runId].status == Failed
      && PipelineRunner.StoppedAt(r.db.steps, runId, f, NewStep(f + 1).(status := Failed, startedAt := Some(now), finishedAt := Some(now),
                                                         rowsAffected := None, errorMessage := StoredMessage(outcomes[f].message)))
  {
    JsFreshRun(db, runId, csvPath, outcomes, now);
    JsFinishAfterThrow(AddLog(db, LogEntry(runId, Info, None, PipelineStarted(csvPath))), runId, f, outcomes, now);
  }

  /** Only step f + 1 is Running after a throw in block f, so the catch block finds it */
  lemma JsFoundIsFailing(db: Db, runId: string, f: int)
    requires 0 <= f < 4
    requires PipelineRunner.RunningAt(db, runId, f + 1)
    requires forall n :: 1 <= n <= f ==> !PipelineRunner.RunningAt(db, runId, n)
    ensures FirstRunning(db, runId, PipelineRunner.AllSteps) == Some(f + 1)
  {
    var found := FirstRunning(db, runId, PipelineRunner.AllSteps);
    var g :| 0 <= g < 4 && PipelineRunner.AllSteps[g] == found.value
             && forall i :: 0 <= i < g ==> !PipelineRunner.RunningAt(db, runId, PipelineRunner.AllSteps[i]);
    assert PipelineRunner.RunningAt(db, runId, PipelineRunner.AllSteps[f]);
    assert found.value == g + 1;
  }

  /** A run whose first step row is missing and none of whose rows is Running:
      the first block throws the TypeError, no step row changes, the run is Failed */
  lemma JsMissingStepRows(db: Db, runId: string, csvPath: Option<string>, outcomes: seq<PipelineRunner.StepOutcome>, now: Instant)
    requires |outcomes| == 4
    requires runId in db.runs && StepKey(runId, 1) !in db.steps
    requires forall n :: 1 <= n <= 4 ==> !PipelineRunner.RunningAt(db, runId, n)
    ensures var r := JsExecuteSpec(db, runId, csvPath, outcomes, now);
      r.result == Rethrown(Some(MissingStepMessage)) && r.db.runs[runId].status == Failed && r.db.steps == db.steps
  {
    var steps := StepNumbersOf(db, runId);
    assert 1 !in steps;
    var db0 := AddLog(db, LogEntry(runId, Info, None, PipelineStarted(csvPath)));
    var p := JsStepsFrom(db0, runId, steps, 0, 0, outcomes, now);
    assert p == Raised(AddLog(db0, LogEntry(runId, Info, Some(1), StepStarted(1))), Some(MissingStepMessage));
    assert p.db.steps == db.steps;
    forall i | 0 <= i < |steps|
      ensures !PipelineRunner.RunningAt(p.db, runId, steps[i])
    {
      assert !PipelineRunner.RunningAt(db, runId, steps[i]);
    }
  }

  /** The two orchestrators disagree on an exception without message: the
      Java runner records the step as Success, the JavaScript one as Failed */
  lemma MessagelessFailureDiffers(w: Shared, runId: string, csvPath: Option<string>, f: int,
                                  outcomes: seq<PipelineRunner.StepOutcome>, arrivals: seq<bool>, now: Instant)
    requires |outcomes| == 4 && |arrivals| == 6 && 0 <= f < 4
    requires PipelineRunner.Fresh(w, runId)
    requires forall j :: 0 <= j < f ==> outcomes[j].Rows?
    requires outcomes[f] == PipelineRunner.Threw(None)
    requires forall j :: 0 <= j < 6 ==> !arrivals[j]
    ensures PipelineRunner.ExecuteSpec(w, runId, csvPath, Database.SchemaOk, outcomes, arrivals, now).db.steps[StepKey(runId, f + 1)].status == Success
    ensures JsExecuteSpec(w.db, runId, csvPath, outcomes, now).db.steps[StepKey(runId, f + 1)].status == Failed
  {
    PipelineRunner.StepFailureRecorded(w, runId, csvPath, f, outcomes, arrivals, now);
    JsStepFailureRecorded(w.db, runId, csvPath, f, outcomes, now);
  }
}
