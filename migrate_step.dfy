/** Step 4 (Java): read the run's Staging_Orders_Transformed rows and MERGE
    each into Target_Orders by OrderId, in batches of BatchSize. */
module MigrateStep {
  import opened Wrappers
  import opened Store
  import opened Orders
  import opened StepProgress
  import opened Batching

  /** The read loop after the first k rows: their MERGEs added, the full
      batches executed against the target */
  ghost predicate Merging(target: map<string, TargetRow>, rows: seq<TransformedRow>, k: int,
                          batches: seq<seq<TransformedRow>>, pending: seq<TransformedRow>, progress: seq<int>,
                          count: int, batchCount: int, target1: map<string, TargetRow>, now: Instant) {
    && 0 <= k <= |rows|
    && Batched(rows[..k], batches, pending, progress)
    && count == k && batchCount == |pending|
    && target1 == UpsertAll(target, Concat(batches), now)
  }

  /** One pass of the read loop: add the MERGE of row k, executing the batch when it is full */
  method MergeRow(ghost target: map<string, TargetRow>, rows: seq<TransformedRow>, k: int,
                  count: int, batchCount: int, batches: seq<seq<TransformedRow>>, pending: seq<TransformedRow>,
                  progress: seq<int>, target1: map<string, TargetRow>, now: Instant)
    returns (count1: int, batchCount1: int, batches1: seq<seq<TransformedRow>>, pending1: seq<TransformedRow>,
             progress1: seq<int>, target2: map<string, TargetRow>)
    requires k < |rows| && Merging(target, rows, k, batches, pending, progress, count, batchCount, target1, now)
    ensures Merging(target, rows, k + 1, batches1, pending1, progress1, count1, batchCount1, target2, now)
  {
    var row := rows[k];
    assert rows[..k + 1] == rows[..k] + [row];
    var executed;
    executed, count1, batchCount1, batches1, pending1, progress1 :=
      AddToBatch(rows[..k], count, batchCount, batches, pending, progress, row);
    target2 := target1;
    if executed {
      MergeBatch(target, batches, pending + [row], now);
      target2 := UpsertAll(target1, pending + [row], now);
    }
  }

  /** run: the rows merged, the landing total, Target_Orders afterwards, the
      executed batches and the progress reports. `now` is the time
      SYSDATETIMEOFFSET() gives the MERGE statements. */
  method Run(runId: string, table: seq<TransformedRow>, target: map<string, TargetRow>, now: Instant)
    returns (count: int, total: Option<int>, target1: map<string, TargetRow>, batches: seq<seq<TransformedRow>>,
             progress: seq<int>)
    ensures total == Some(|TransformedOf(table, runId)|)
    ensures count == |TransformedOf(table, runId)|
    ensures Flushed(TransformedOf(table, runId), batches)
    ensures progress == ProgressCalls(count)
    ensures target1 == UpsertAll(target, TransformedOf(table, runId), now)
  {
    var rows := TransformedOf(table, runId);
    total := Some(|rows|);
    count := 0;
    var batchCount := 0;
    var pending: seq<TransformedRow> := [];
    batches := [];
    progress := [];
    target1 := target;
    Start<TransformedRow>();
    var k := 0;
    while k < |rows|
      invariant Merging(target, rows, k, batches, pending, progress, count, batchCount, target1, now)
    {
      count, batchCount, batches, pending, progress, target1 :=
        MergeRow(target, rows, k, count, batchCount, batches, pending, progress, target1, now);
      k := k + 1;
    }
    assert rows[..k] == rows;
    ghost var done := batches;
    batches, progress := FlushBatch(rows, count, batchCount, batches, pending, progress);
    if batchCount > 0 {
      MergeBatch(target, done, pending, now);
      target1 := UpsertAll(target1, pending, now);
    } else {
      assert batches == done + [];
    }
  }

  /** Executing one more MERGE batch continues the upsert of the rows so far */
  lemma MergeBatch(target: map<string, TargetRow>, done: seq<seq<TransformedRow>>, batch: seq<TransformedRow>, now: Instant)
    ensures UpsertAll(target, Concat(done + [batch]), now) == UpsertAll(UpsertAll(target, Concat(done), now), batch, now)
  {
    ConcatAppend(done, batch);
    UpsertAllAppend(target, Concat(done), batch, now);
  }
}
