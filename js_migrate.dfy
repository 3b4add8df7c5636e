/** Step 4 (JavaScript twin): upsert the run's Staging_Orders_Transformed rows
    into Target_Orders one statement at a time (INSERT ... ON CONFLICT(OrderId)
    DO UPDATE). */
module JsMigrate {
  import opened Store
  import opened Orders

  /** One statement: insert the row, or overwrite the row with its OrderId */
  lemma UpsertOne(target: map<string, TargetRow>, row: TransformedRow, now: Instant)
    ensures UpsertAll(target, [row], now) == target[row.orderId := TargetOf(row, now)]
  {
    assert [row][1..] == [];
  }

  /** runMigrate: the number of source rows, duplicates included, and
      Target_Orders afterwards. `now` is the time datetime('now') gives. */
  method RunMigrate(runId: string, table: seq<TransformedRow>, target: map<string, TargetRow>, now: Instant)
    returns (count: int, target1: map<string, TargetRow>)
    ensures count == |TransformedOf(table, runId)|
    ensures target1 == UpsertAll(target, TransformedOf(table, runId), now)
  {
    var rows := TransformedOf(table, runId);
    target1 := target;
    for k := 0 to |rows|
      invariant target1 == UpsertAll(target, rows[..k], now)
    {
      var row := rows[k];
      assert rows[..k + 1] == rows[..k] + [row];
      UpsertAllAppend(target, rows[..k], [row], now);
      UpsertOne(target1, row, now);
      target1 := target1[row.orderId := TargetOf(row, now)];
    }
    assert rows[..|rows|] == rows;
    count := |rows|;
  }
}
