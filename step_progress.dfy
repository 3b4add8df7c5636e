/** Row-level progress of a step: the cadence rule and the best-effort write of
    RowsProcessed and RowsTotal into that step's row. */
module StepProgress {
  import opened Wrappers
  import opened Store

  const UpdateInterval := 10_000

  /** shouldUpdate: the first rows are reported every time, later ones only on
      multiples of the interval */
  predicate ShouldUpdate(processed: int) {
    processed > 0 && (processed % UpdateInterval == 0 || processed < UpdateInterval)
  }

  /** Nothing is reported before the first row */
  lemma NoUpdateBeforeFirstRow(p: int)
    requires p <= 0
    ensures !ShouldUpdate(p)
  {
  }

  /** Below the interval every count is reported */
  lemma SmallCountsUpdate(p: int)
    requires 1 <= p < UpdateInterval
    ensures ShouldUpdate(p)
  {
  }

  /** From the interval on, a count is reported exactly when it is a whole number of intervals */
  lemma LargeCountsOnMultiples(p: int)
    requires p >= UpdateInterval
    ensures ShouldUpdate(p) <==> exists k :: k >= 1 && p == UpdateInterval * k
  {
    if ShouldUpdate(p) {
      assert p == UpdateInterval * (p / UpdateInterval);
    }
  }

  /** update: nothing when the run id is null; otherwise the progress UPDATE of
      that one row, unless storage fails, in which case the failure is swallowed
      and nothing changes */
  method Update(store: Store, runId: Option<string>, stepNumber: int, processed: int, total: Option<int>, storageFails: bool)
    modifies store
    ensures runId.None? || storageFails ==> store.State() == old(store.State())
    ensures runId.Some? && !storageFails ==>
      store.State() == SetProgress(old(store.State()), StepKey(runId.value, stepNumber), processed, total)
  {
    if runId.None? {
      return;
    }
    if !storageFails {
      store.UpdateProgress(StepKey(runId.value, stepNumber), processed, total);
    }
  }

  /** Progress reports overwrite each other: after two writes to the same row
      only the later one is visible, and writes to two different rows commute */
  lemma ProgressLastWins(db: Db, key: StepKey, p1: int, t1: Option<int>, p2: int, t2: Option<int>)
    ensures SetProgress(SetProgress(db, key, p1, t1), key, p2, t2) == SetProgress(db, key, p2, t2)
  {
  }

  lemma ProgressRowsCommute(db: Db, k1: StepKey, p1: int, t1: Option<int>, k2: StepKey, p2: int, t2: Option<int>)
    requires k1 != k2
    ensures SetProgress(SetProgress(db, k1, p1, t1), k2, p2, t2) == SetProgress(SetProgress(db, k2, p2, t2), k1, p1, t1)
  {
  }
}
