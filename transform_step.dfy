/** Step 3 (Java): read the run's Staging_Orders rows, give each an amount
    category and insert it into Staging_Orders_Transformed in batches. A
    negative amount gets a category longer than the column allows, so the
    batch holding it is rejected and the step fails there. */
module TransformStep {
  import opened Wrappers
  import opened Orders
  import opened StepProgress
  import opened Batching

  /** AmountCategory is NVARCHAR(32) */
  const CategoryMaxLength := 32

  const InvalidCategory := "InvalidNegativeAmountExceedsMaxLength"

  /** The category rule */
  function Category(amount: real): string {
    if amount < 0.0 then InvalidCategory
    else if amount < 50.0 then "Low"
    else if amount < 200.0 then "Medium"
    else "High"
  }

  /** The order of the valid categories */
  function Rank(category: string): int {
    if category == "Low" then 0 else if category == "Medium" then 1 else if category == "High" then 2 else -1
  }

  /** Below 0 the marker; [0, 50) Low; [50, 200) Medium; from 200 High */
  lemma CategoryBands(amount: real)
    ensures amount < 0.0 <==> Category(amount) == InvalidCategory
    ensures 0.0 <= amount < 50.0 <==> Category(amount) == "Low"
    ensures 50.0 <= amount < 200.0 <==> Category(amount) == "Medium"
    ensures 200.0 <= amount <==> Category(amount) == "High"
  {
  }

  /** For non-negative amounts the category never falls as the amount grows */
  lemma CategoryMonotone(a: real, b: real)
    requires 0.0 <= a <= b
    ensures 0 <= Rank(Category(a)) <= Rank(Category(b))
  {
  }

  /** The marker has 37 characters, so only the categories of non-negative amounts fit the column */
  lemma FitsIffNonNegative(amount: real)
    ensures |InvalidCategory| == 37
    ensures |Category(amount)| <= CategoryMaxLength <==> amount >= 0.0
  {
  }

  /** The row inserted for one staging row: the columns copied, the category added */
  function Transform(runId: string, row: StagingRow): (t: TransformedRow)
    ensures t.orderId == row.orderId && t.customerId == row.customerId && t.amount == row.amount
    ensures t.orderDate == row.orderDate && t.runId == runId
    ensures t.category == Category(row.amount)
  {
    TransformedRow(runId, row.orderId, row.customerId, row.amount, row.orderDate, Category(row.amount))
  }

  /** The rows inserted for the staging rows `rows`, one each, in read order */
  function Transformed(runId: string, rows: seq<StagingRow>): (r: seq<TransformedRow>)
    ensures |r| == |rows|
  {
    if rows == [] then [] else Transformed(runId, rows[..|rows| - 1]) + [Transform(runId, rows[|rows| - 1])]
  }

  /** The column constraint executeBatch enforces on each row */
  predicate FitsColumn(t: TransformedRow) {
    |t.category| <= CategoryMaxLength
  }

  /** One inserted row per staging row, at the same position */
  lemma {:induction false} TransformedAt(runId: string, rows: seq<StagingRow>, i: nat)
    requires i < |rows|
    ensures Transformed(runId, rows)[i] == Transform(runId, rows[i])
  {
    if i < |rows| - 1 {
      TransformedAt(runId, rows[..|rows| - 1], i);
    }
  }

  /** Transforming a prefix gives the prefix of the transformed rows */
  lemma {:induction false} TransformedPrefix(runId: string, rows: seq<StagingRow>, n: nat)
    requires n <= |rows|
    ensures Transformed(runId, rows[..n]) == Transformed(runId, rows)[..n]
  {
    forall i | 0 <= i < n
      ensures Transformed(runId, rows[..n])[i] == Transformed(runId, rows)[i]
    {
      TransformedAt(runId, rows[..n], i);
      TransformedAt(runId, rows, i);
    }
  }

  lemma TransformedStep(runId: string, rows: seq<StagingRow>, k: nat)
    requires k < |rows|
    ensures Transformed(runId, rows[..k + 1]) == Transformed(runId, rows[..k]) + [Transform(runId, rows[k])]
  {
    assert rows[..k + 1][..k] == rows[..k];
  }

  /** The read loop after the first k staging rows: their transformed rows
      added, the full batches executed and accepted */
  ghost predicate Reading(runId: string, rows: seq<StagingRow>, k: int, inserted: seq<TransformedRow>,
                          batches: seq<seq<TransformedRow>>, pending: seq<TransformedRow>, progress: seq<int>,
                          count: int, batchCount: int) {
    && 0 <= k <= |rows|
    && inserted == Transformed(runId, rows[..k])
    && Batched(inserted, batches, pending, progress)
    && count == |inserted| && batchCount == |pending|
    && AllOk(Concat(batches), FitsColumn)
  }

  /** The step stopped at a rejected batch: the executed batches are full and
      hold the transformed rows of a prefix with no negative amount, and the
      next BatchSize rows contain a negative amount */
  ghost predicate StoppedAtNegative(runId: string, rows: seq<StagingRow>, batches: seq<seq<TransformedRow>>) {
    var done := Concat(batches);
    && |done| <= |rows| && done == Transformed(runId, rows[..|done|])
    && (forall i :: 0 <= i < |batches| ==> |batches[i]| == BatchSize)
    && (forall i :: 0 <= i < |done| ==> rows[i].amount >= 0.0)
    && (exists i :: |done| <= i < |done| + BatchSize && i < |rows| && rows[i].amount < 0.0)
  }

  /** One pass of the read loop: transform row k and add it to the batch */
  method ReadRow(runId: string, rows: seq<StagingRow>, k: int, ghost inserted: seq<TransformedRow>, count: int,
                 batchCount: int, batches: seq<seq<TransformedRow>>, pending: seq<TransformedRow>, progress: seq<int>)
    returns (rejected: bool, ghost inserted1: seq<TransformedRow>, count1: int, batchCount1: int,
             batches1: seq<seq<TransformedRow>>, pending1: seq<TransformedRow>, progress1: seq<int>)
    requires k < |rows| && Reading(runId, rows, k, inserted, batches, pending, progress, count, batchCount)
    ensures !rejected ==> Reading(runId, rows, k + 1, inserted1, batches1, pending1, progress1, count1, batchCount1)
    ensures rejected ==> batches1 == batches && progress1 == progress && StoppedAtNegative(runId, rows, batches1)
  {
    var row := rows[k];
    var amount := row.amount;
    var category := Category(amount);
    var t := TransformedRow(runId, row.orderId, row.customerId, amount, row.orderDate, category);
    assert t == Transform(runId, row);
    TransformedStep(runId, rows, k);
    inserted1 := inserted + [t];
    assert inserted1 == Transformed(runId, rows[..k + 1]);
    rejected, count1, batchCount1, batches1, pending1, progress1 :=
      AddToCheckedBatch(inserted, count, batchCount, batches, pending, progress, t, FitsColumn);
    if rejected {
      Rejected(runId, rows, Concat(batches1), pending1, k + 1);
    }
  }

  /** run: the count, or None when a batch was rejected and the exception
      left the step; the batches that were executed and the progress reports.
      StepProgress.update commits on its own connection, so on None the
      reports of the executed batches stay behind the step's rollback. */
  method Run(runId: string, table: seq<StagingRow>)
    returns (outcome: Option<int>, total: Option<int>, batches: seq<seq<TransformedRow>>, progress: seq<int>)
    ensures total == Some(|StagingOf(table, runId)|)
    ensures outcome.Some? <==> forall i :: 0 <= i < |StagingOf(table, runId)| ==> StagingOf(table, runId)[i].amount >= 0.0
    ensures outcome.Some? ==>
      outcome.value == |StagingOf(table, runId)|
      && Flushed(Transformed(runId, StagingOf(table, runId)), batches)
      && progress == ProgressCalls(outcome.value)
    ensures outcome.None? ==>
      StoppedAtNegative(runId, StagingOf(table, runId), batches) && progress == BoundaryCalls(|batches|)
  {
    var rows := StagingOf(table, runId);
    total := Some(|rows|);
    var rejected, count, batchCount, pending;
    ghost var inserted;
    rejected, inserted, count, batchCount, batches, pending, progress := ReadRows(runId, rows);
    if rejected {
      StoppedHasNegative(runId, rows, batches);
      return None, total, batches, progress;
    }
    outcome, batches, progress := EndOfRows(runId, rows, inserted, count, batchCount, batches, pending, progress);
  }

  /** The read loop: every row added, or the loop left at a rejected batch */
  method ReadRows(runId: string, rows: seq<StagingRow>)
    returns (rejected: bool, ghost inserted: seq<TransformedRow>, count: int, batchCount: int,
             batches: seq<seq<TransformedRow>>, pending: seq<TransformedRow>, progress: seq<int>)
    ensures !rejected ==> Reading(runId, rows, |rows|, inserted, batches, pending, progress, count, batchCount)
    ensures rejected ==> StoppedAtNegative(runId, rows, batches) && progress == BoundaryCalls(|batches|)
  {
    count := 0;
    batchCount := 0;
    pending := [];
    batches := [];
    progress := [];
    inserted := [];
    rejected := false;
    Start<TransformedRow>();
    var k := 0;
    while k < |rows|
      invariant Reading(runId, rows, k, inserted, batches, pending, progress, count, batchCount)
    {
      rejected, inserted, count, batchCount, batches, pending, progress :=
        ReadRow(runId, rows, k, inserted, count, batchCount, batches, pending, progress);
      if rejected {
        return;
      }
      k := k + 1;
    }
  }

  /** After the read loop: the remainder executed, the final report */
  method EndOfRows(runId: string, rows: seq<StagingRow>, ghost inserted: seq<TransformedRow>, count: int,
                   batchCount: int, batches: seq<seq<TransformedRow>>, pending: seq<TransformedRow>, progress: seq<int>)
    returns (outcome: Option<int>, batches1: seq<seq<TransformedRow>>, progress1: seq<int>)
    requires Reading(runId, rows, |rows|, inserted, batches, pending, progress, count, batchCount)
    ensures outcome.Some? <==> forall i :: 0 <= i < |rows| ==> rows[i].amount >= 0.0
    ensures outcome.Some? ==>
      outcome.value == |rows| && Flushed(Transformed(runId, rows), batches1) && progress1 == ProgressCalls(outcome.value)
    ensures outcome.None? ==> StoppedAtNegative(runId, rows, batches1) && progress1 == BoundaryCalls(|batches1|)
  {
    assert rows[..|rows|] == rows;
    var rejected;
    ghost var done := Concat(batches);
    rejected, batches1, progress1 := FlushCheckedBatch(inserted, count, batchCount, batches, pending, progress, FitsColumn);
    if rejected {
      Rejected(runId, rows, done, pending, |rows|);
      StoppedHasNegative(runId, rows, batches1);
      return None, batches1, progress1;
    }
    outcome := Some(count);
    AllAccepted(runId, rows, inserted);
  }

  lemma StoppedHasNegative(runId: string, rows: seq<StagingRow>, batches: seq<seq<TransformedRow>>)
    requires StoppedAtNegative(runId, rows, batches)
    ensures exists i :: 0 <= i < |rows| && rows[i].amount < 0.0
  {
  }

  /** A rejected batch holds the transformed form of a negative amount, and
      every row before it was accepted */
  lemma Rejected(runId: string, rows: seq<StagingRow>, done: seq<TransformedRow>, failing: seq<TransformedRow>, k: nat)
    requires k <= |rows| && done + failing == Transformed(runId, rows[..k])
    requires AllOk(done, FitsColumn) && !AllOk(failing, FitsColumn) && |failing| <= BatchSize
    ensures |done| <= |rows| && done == Transformed(runId, rows[..|done|])
    ensures forall i :: 0 <= i < |done| ==> rows[i].amount >= 0.0
    ensures exists i :: |done| <= i < |done| + BatchSize && i < |rows| && rows[i].amount < 0.0
  {
    AcceptedPrefix(runId, rows, done, failing, k);
    var j := RejectedRow(runId, rows, done, failing, k);
    assert |done| <= |done| + j < |done| + BatchSize;
  }

  lemma AcceptedPrefix(runId: string, rows: seq<StagingRow>, done: seq<TransformedRow>, failing: seq<TransformedRow>, k: nat)
    requires k <= |rows| && done + failing == Transformed(runId, rows[..k]) && AllOk(done, FitsColumn)
    ensures |done| <= |rows| && done == Transformed(runId, rows[..|done|])
    ensures forall i :: 0 <= i < |done| ==> rows[i].amount >= 0.0
  {
    var n := |done|;
    var all := Transformed(runId, rows[..k]);
    assert rows[..k][..n] == rows[..n];
    TransformedPrefix(runId, rows[..k], n);
    assert done == all[..n];
    forall i | 0 <= i < n
      ensures rows[i].amount >= 0.0
    {
      FitsIffNonNegative(rows[i].amount);
      TransformedAt(runId, rows[..k], i);
      assert done[i] == all[i];
    }
  }

  lemma RejectedRow(runId: string, rows: seq<StagingRow>, done: seq<TransformedRow>, failing: seq<TransformedRow>, k: nat)
    returns (j: nat)
    requires k <= |rows| && done + failing == Transformed(runId, rows[..k]) && !AllOk(failing, FitsColumn)
    ensures j < |failing| && |done| + j < |rows| && rows[|done| + j].amount < 0.0
  {
    var all := Transformed(runId, rows[..k]);
    j :| 0 <= j < |failing| && !FitsColumn(failing[j]);
    var n := |done|;
    assert failing[j] == all[n + j];
    TransformedAt(runId, rows[..k], n + j);
    assert rows[..k][n + j] == rows[n + j];
    FitsIffNonNegative(rows[n + j].amount);
  }

  /** When every executed row fits, no amount was negative */
  lemma AllAccepted(runId: string, rows: seq<StagingRow>, done: seq<TransformedRow>)
    requires done == Transformed(runId, rows) && AllOk(done, FitsColumn)
    ensures forall i :: 0 <= i < |rows| ==> rows[i].amount >= 0.0
  {
    forall i | 0 <= i < |rows|
      ensures rows[i].amount >= 0.0
    {
      FitsIffNonNegative(rows[i].amount);
      TransformedAt(runId, rows, i);
    }
  }

  /** Every inserted row copies its staging row and adds its category */
  lemma TransformedCopies(runId: string, rows: seq<StagingRow>)
    ensures forall i :: 0 <= i < |rows| ==>
      var t := Transformed(runId, rows)[i];
      t.orderId == rows[i].orderId && t.customerId == rows[i].customerId && t.amount == rows[i].amount
      && t.orderDate == rows[i].orderDate && t.category == Category(rows[i].amount)
  {
    forall i | 0 <= i < |rows|
      ensures Transformed(runId, rows)[i] == Transform(runId, rows[i])
    {
      TransformedAt(runId, rows, i);
    }
  }
}
