/** The batch-and-report loop the four Java steps share: each row is added to a
    JDBC batch, the batch is executed every BatchSize rows and once more for a
    non-empty remainder, and progress is reported after a full batch and once
    after the loop, each time only when shouldUpdate allows it. */
module Batching {
  import opened StepProgress

  const BatchSize := 2000

  /** The rows of the batches, in execution order */
  function Concat<R>(bs: seq<seq<R>>): seq<R> {
    if bs == [] then [] else Concat(bs[..|bs| - 1]) + bs[|bs| - 1]
  }

  /** The counts reported after the first m full batches: the k-th full batch
      is reported when shouldUpdate(k * BatchSize) */
  function BoundaryCalls(m: nat): (r: seq<int>)
    ensures forall i :: 0 <= i < |r| ==> ShouldUpdate(r[i]) && 0 < r[i] <= m * BatchSize
    ensures forall i, j :: 0 <= i < j < |r| ==> r[i] < r[j]
  {
    if m == 0 then []
    else BoundaryCalls(m - 1) + (if ShouldUpdate(m * BatchSize) then [m * BatchSize] else [])
  }

  /** Every progress call for a step that handled n rows */
  function ProgressCalls(n: nat): seq<int> {
    BoundaryCalls(n / BatchSize) + (if ShouldUpdate(n) then [n] else [])
  }

  /** The loop state after `rows` were added: full batches executed, the rest
      still in the JDBC batch, and the calls made so far */
  ghost predicate Batched<R>(rows: seq<R>, batches: seq<seq<R>>, pending: seq<R>, progress: seq<int>) {
    Concat(batches) + pending == rows
    && (forall i :: 0 <= i < |batches| ==> |batches[i]| == BatchSize)
    && |pending| < BatchSize
    && progress == BoundaryCalls(|batches|)
  }

  /** Every row in exactly one executed batch, in order; no batch empty or
      larger than BatchSize, all of them full except the last */
  ghost predicate Flushed<R>(rows: seq<R>, batches: seq<seq<R>>) {
    Concat(batches) == rows
    && (forall i :: 0 <= i < |batches| ==> 0 < |batches[i]| <= BatchSize)
    && (forall i :: 0 <= i < |batches| - 1 ==> |batches[i]| == BatchSize)
  }

  lemma ConcatAppend<R>(bs: seq<seq<R>>, b: seq<R>)
    ensures Concat(bs + [b]) == Concat(bs) + b
  {
    assert (bs + [b])[..|bs|] == bs;
  }

  lemma {:induction false} ConcatOfFull<R>(bs: seq<seq<R>>)
    requires forall i :: 0 <= i < |bs| ==> |bs[i]| == BatchSize
    ensures |Concat(bs)| == |bs| * BatchSize
  {
    if bs != [] {
      ConcatOfFull(bs[..|bs| - 1]);
    }
  }

  /** The state before the first row */
  lemma Start<R>()
    ensures Batched<R>([], [], [], [])
  {
  }

  /** Adding one row: the batch is executed and possibly reported once it is full */
  lemma AddRow<R>(rows: seq<R>, batches: seq<seq<R>>, pending: seq<R>, progress: seq<int>, row: R)
    requires Batched(rows, batches, pending, progress)
    ensures |rows + [row]| == |rows| + 1
    ensures |pending + [row]| < BatchSize ==> Batched(rows + [row], batches, pending + [row], progress)
    ensures |pending + [row]| == BatchSize ==>
      Batched(rows + [row], batches + [pending + [row]], [],
              progress + (if ShouldUpdate(|rows| + 1) then [|rows| + 1] else []))
  {
    var p := pending + [row];
    assert Concat(batches) + p == rows + [row];
    if |p| == BatchSize {
      ConcatAppend(batches, p);
      ConcatOfFull(batches);
      assert |rows| + 1 == (|batches| + 1) * BatchSize;
    }
  }

  /** After the loop: the remainder executed when non-empty, the final report when due */
  lemma Finish<R>(rows: seq<R>, batches: seq<seq<R>>, pending: seq<R>, progress: seq<int>)
    requires Batched(rows, batches, pending, progress)
    ensures Flushed(rows, batches + (if pending != [] then [pending] else []))
    ensures progress + (if ShouldUpdate(|rows|) then [|rows|] else []) == ProgressCalls(|rows|)
  {
    ConcatOfFull(batches);
    DivOfBatches(|batches|, |pending|);
    if pending != [] {
      ConcatAppend(batches, pending);
      var bs := batches + [pending];
      assert forall i :: 0 <= i < |batches| ==> bs[i] == batches[i];
      assert Concat(bs) == rows;
      assert forall i :: 0 <= i < |bs| ==> 0 < |bs[i]| <= BatchSize;
      assert forall i :: 0 <= i < |bs| - 1 ==> |bs[i]| == BatchSize;
    } else {
      assert batches + [] == batches;
    }
  }

  /** One added row: `addBatch(); count++; if (++batchCount >= BATCH_SIZE) {
      executeBatch(); batchCount = 0; if (shouldUpdate(count)) update(...); }` */
  method AddToBatch<R>(ghost rows: seq<R>, count: int, batchCount: int, batches: seq<seq<R>>, pending: seq<R>,
                       progress: seq<int>, row: R)
    returns (executed: bool, count1: int, batchCount1: int, batches1: seq<seq<R>>, pending1: seq<R>, progress1: seq<int>)
    requires Batched(rows, batches, pending, progress) && count == |rows| && batchCount == |pending|
    ensures Batched(rows + [row], batches1, pending1, progress1)
    ensures count1 == |rows| + 1 && batchCount1 == |pending1|
    ensures executed ==> batches1 == batches + [pending + [row]]
    ensures !executed ==> batches1 == batches
  {
    executed := false;
    AddRow(rows, batches, pending, progress, row);
    pending1 := pending + [row];
    batches1 := batches;
    progress1 := progress;
    count1 := count + 1;
    batchCount1 := batchCount + 1;
    if batchCount1 >= BatchSize {
      executed := true;
      batches1 := batches1 + [pending1];
      pending1 := [];
      batchCount1 := 0;
      if ShouldUpdate(count1) {
        progress1 := progress1 + [count1];
      }
    }
  }

  /** After the loop: `if (batchCount > 0) executeBatch(); if (shouldUpdate(count)) update(...);` */
  method FlushBatch<R>(ghost rows: seq<R>, count: int, batchCount: int, batches: seq<seq<R>>, pending: seq<R>,
                       progress: seq<int>)
    returns (batches1: seq<seq<R>>, progress1: seq<int>)
    requires Batched(rows, batches, pending, progress) && count == |rows| && batchCount == |pending|
    ensures Flushed(rows, batches1)
    ensures progress1 == ProgressCalls(|rows|)
    ensures batches1 == batches + (if batchCount > 0 then [pending] else [])
  {
    Finish(rows, batches, pending, progress);
    batches1 := batches;
    progress1 := progress;
    if batchCount > 0 {
      batches1 := batches1 + [pending];
    }
    if ShouldUpdate(count) {
      progress1 := progress1 + [count];
    }
  }

  /** Whether the database accepts every row of a batch */
  predicate AllOk<R>(rows: seq<R>, ok: R -> bool) {
    forall i :: 0 <= i < |rows| ==> ok(rows[i])
  }

  lemma AllOkAppend<R>(a: seq<R>, b: seq<R>, ok: R -> bool)
    requires AllOk(a, ok) && AllOk(b, ok)
    ensures AllOk(a + b, ok)
  {
  }

  /** AddToBatch for a table that rejects some rows: executeBatch throws when
      the full batch holds a row `ok` refuses, and the batches executed so far stay */
  method AddToCheckedBatch<R>(ghost rows: seq<R>, count: int, batchCount: int, batches: seq<seq<R>>, pending: seq<R>,
                              progress: seq<int>, row: R, ok: R -> bool)
    returns (rejected: bool, count1: int, batchCount1: int, batches1: seq<seq<R>>, pending1: seq<R>, progress1: seq<int>)
    requires Batched(rows, batches, pending, progress) && count == |rows| && batchCount == |pending|
    requires AllOk(Concat(batches), ok)
    ensures !rejected ==>
      Batched(rows + [row], batches1, pending1, progress1) && AllOk(Concat(batches1), ok)
      && count1 == |rows| + 1 && batchCount1 == |pending1|
    ensures rejected ==>
      batches1 == batches && progress1 == progress && pending1 == pending + [row]
      && Concat(batches1) + pending1 == rows + [row] && |pending1| == BatchSize && !AllOk(pending1, ok)
  {
    AddRow(rows, batches, pending, progress, row);
    rejected := false;
    pending1 := pending + [row];
    batches1 := batches;
    progress1 := progress;
    count1 := count + 1;
    batchCount1 := batchCount + 1;
    if batchCount1 >= BatchSize {
      if !AllOk(pending1, ok) {
        rejected := true;
        return;
      }
      ConcatAppend(batches, pending1);
      AllOkAppend(Concat(batches), pending1, ok);
      batches1 := batches1 + [pending1];
      pending1 := [];
      batchCount1 := 0;
      if ShouldUpdate(count1) {
        progress1 := progress1 + [count1];
      }
    }
  }

  /** FlushBatch for a table that rejects some rows */
  method FlushCheckedBatch<R>(ghost rows: seq<R>, count: int, batchCount: int, batches: seq<seq<R>>, pending: seq<R>,
                              progress: seq<int>, ok: R -> bool)
    returns (rejected: bool, batches1: seq<seq<R>>, progress1: seq<int>)
    requires Batched(rows, batches, pending, progress) && count == |rows| && batchCount == |pending|
    requires AllOk(Concat(batches), ok)
    ensures !rejected ==> Flushed(rows, batches1) && progress1 == ProgressCalls(|rows|) && AllOk(rows, ok)
    ensures rejected ==>
      batches1 == batches && progress1 == progress
      && Concat(batches) + pending == rows && |pending| < BatchSize && !AllOk(pending, ok)
  {
    Finish(rows, batches, pending, progress);
    rejected := false;
    batches1 := batches;
    progress1 := progress;
    if batchCount > 0 {
      if !AllOk(pending, ok) {
        rejected := true;
        return;
      }
      AllOkAppend(Concat(batches), pending, ok);
      batches1 := batches1 + [pending];
    }
    if ShouldUpdate(count) {
      progress1 := progress1 + [count];
    }
  }

  /** The pull step's form of one added row: `addBatch(); n++; if (n % batchSize == 0)
      { executeBatch(); if (shouldUpdate(n)) update(...); }` */
  method AddToBatchByCount<R>(ghost rows: seq<R>, n: int, batches: seq<seq<R>>, pending: seq<R>, progress: seq<int>, row: R)
    returns (n1: int, batches1: seq<seq<R>>, pending1: seq<R>, progress1: seq<int>)
    requires Batched(rows, batches, pending, progress) && n == |rows|
    ensures Batched(rows + [row], batches1, pending1, progress1) && n1 == |rows| + 1
  {
    AddRow(rows, batches, pending, progress, row);
    ConcatOfFull(batches);
    ModOfBatches(|batches|, |pending| + 1);
    n1 := n + 1;
    pending1 := pending + [row];
    batches1 := batches;
    progress1 := progress;
    if n1 % BatchSize == 0 {
      batches1 := batches1 + [pending1];
      pending1 := [];
      if ShouldUpdate(n1) {
        progress1 := progress1 + [n1];
      }
    }
  }

  /** The pull step's end of loop: `if (n % batchSize != 0) executeBatch();
      if (shouldUpdate(n)) update(...);` */
  method FlushByCount<R>(ghost rows: seq<R>, n: int, batches: seq<seq<R>>, pending: seq<R>, progress: seq<int>)
    returns (batches1: seq<seq<R>>, progress1: seq<int>)
    requires Batched(rows, batches, pending, progress) && n == |rows|
    ensures Flushed(rows, batches1)
    ensures progress1 == ProgressCalls(|rows|)
  {
    Finish(rows, batches, pending, progress);
    FullIffMultiple(rows, batches, pending, progress);
    batches1 := batches;
    progress1 := progress;
    if n % BatchSize != 0 {
      batches1 := batches1 + [pending];
    }
    if ShouldUpdate(n) {
      progress1 := progress1 + [n];
    }
  }

  /** A count past some full batches is a multiple of BatchSize exactly when the last batch is full */
  lemma ModOfBatches(q: nat, r: nat)
    requires 0 < r <= BatchSize
    ensures (q * BatchSize + r) % BatchSize == 0 <==> r == BatchSize
  {
    if r == BatchSize {
      assert q * BatchSize + r == (q + 1) * BatchSize;
    } else {
      DivOfBatches(q, r);
    }
  }

  lemma DivOfBatches(q: nat, r: nat)
    requires r < BatchSize
    ensures (q * BatchSize + r) / BatchSize == q
  {
  }

  /** The pull step's test `n % batchSize == 0` is the full-batch test */
  lemma FullIffMultiple<R>(rows: seq<R>, batches: seq<seq<R>>, pending: seq<R>, progress: seq<int>)
    requires Batched(rows, batches, pending, progress)
    ensures |rows| % BatchSize == |pending| % BatchSize
    ensures |rows| % BatchSize == 0 <==> pending == []
  {
    ConcatOfFull(batches);
    DivOfBatches(|batches|, |pending|);
  }

  /** Every call reports a count shouldUpdate allows and at most the rows
      handled; the counts only grow, a count being repeated only when the last
      full batch ends on a multiple of the interval */
  lemma ProgressCallsSound(n: nat)
    ensures forall i :: 0 <= i < |ProgressCalls(n)| ==> ShouldUpdate(ProgressCalls(n)[i]) && ProgressCalls(n)[i] <= n
    ensures forall i, j :: 0 <= i < j < |ProgressCalls(n)| ==> ProgressCalls(n)[i] <= ProgressCalls(n)[j]
  {
    var b := BoundaryCalls(n / BatchSize);
    assert (n / BatchSize) * BatchSize <= n;
    assert forall i :: 0 <= i < |b| ==> b[i] <= n;
  }

  /** The last call carries the total exactly when shouldUpdate(total) holds */
  lemma FinalCallIffDue(n: nat)
    ensures (ProgressCalls(n) != [] && ProgressCalls(n)[|ProgressCalls(n)| - 1] == n) <==> ShouldUpdate(n)
  {
    var b := BoundaryCalls(n / BatchSize);
    assert (n / BatchSize) * BatchSize <= n;
    if !ShouldUpdate(n) && b != [] {
      assert ShouldUpdate(b[|b| - 1]);
    }
  }

  /** 25000 rows: reports at 2000 to 10000 and at 20000, none for the total */
  lemma ProgressExample()
    ensures ProgressCalls(25000) == [2000, 4000, 6000, 8000, 10000, 20000]
  {
    FirstFiveBatches();
    assert BoundaryCalls(12) == BoundaryCalls(5) + [20000] by {
      assert BoundaryCalls(6) == BoundaryCalls(5);
      assert BoundaryCalls(7) == BoundaryCalls(6);
      assert BoundaryCalls(8) == BoundaryCalls(7);
      assert BoundaryCalls(9) == BoundaryCalls(8);
      assert BoundaryCalls(10) == BoundaryCalls(5) + [20000];
      assert BoundaryCalls(11) == BoundaryCalls(10);
    }
  }

  /** A count that is a multiple of the interval is reported twice: after its
      full batch and after the loop */
  lemma ProgressRepeatsOnInterval()
    ensures ProgressCalls(10000) == [2000, 4000, 6000, 8000, 10000, 10000]
    ensures ProgressCalls(3500) == [2000, 3500]
    ensures ProgressCalls(0) == []
  {
    FirstFiveBatches();
    assert BoundaryCalls(1) == [2000];
  }

  lemma FirstFiveBatches()
    ensures BoundaryCalls(5) == [2000, 4000, 6000, 8000, 10000]
  {
    assert BoundaryCalls(1) == [2000];
    assert BoundaryCalls(2) == [2000, 4000];
    assert BoundaryCalls(3) == [2000, 4000, 6000];
    assert BoundaryCalls(4) == [2000, 4000, 6000, 8000];
  }
}
