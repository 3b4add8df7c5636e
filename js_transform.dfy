/** Step 3 (JavaScript twin): read Staging_Orders for the run, categorise each
    row and insert it into Staging_Orders_Transformed, one insert per row. */
module JsTransform {
  import opened Orders
  import TransformStep

  /** `amount < 50 ? 'Low' : amount < 200 ? 'Medium' : 'High'` */
  function JsCategory(amount: real): string {
    if amount < 50.0 then "Low" else if amount < 200.0 then "Medium" else "High"
  }

  /** Below 50 Low, [50, 200) Medium, from 200 High: negative amounts are Low */
  lemma JsCategoryBands(amount: real)
    ensures amount < 50.0 <==> JsCategory(amount) == "Low"
    ensures 50.0 <= amount < 200.0 <==> JsCategory(amount) == "Medium"
    ensures 200.0 <= amount <==> JsCategory(amount) == "High"
  {
  }

  /** The two rules agree exactly on the non-negative amounts */
  lemma AgreesWithJava(amount: real)
    ensures JsCategory(amount) == TransformStep.Category(amount) <==> amount >= 0.0
  {
    assert TransformStep.InvalidCategory != "Low";
  }

  /** The row inserted for one staging row: every column copied, the category added */
  function Transform(runId: string, row: StagingRow): TransformedRow {
    TransformedRow(runId, row.orderId, row.customerId, row.amount, row.orderDate, JsCategory(row.amount))
  }

  /** The rows inserted for the staging rows `rows`, in read order */
  function Transformed(runId: string, rows: seq<StagingRow>): (r: seq<TransformedRow>)
    ensures |r| == |rows|
  {
    if rows == [] then [] else Transformed(runId, rows[..|rows| - 1]) + [Transform(runId, rows[|rows| - 1])]
  }

  lemma {:induction false} TransformedAt(runId: string, rows: seq<StagingRow>, i: nat)
    requires i < |rows|
    ensures Transformed(runId, rows)[i] == Transform(runId, rows[i])
  {
    if i < |rows| - 1 {
      TransformedAt(runId, rows[..|rows| - 1], i);
    }
  }

  /** Row i keeps the staging row's columns and gets its amount's category */
  lemma TransformedCopies(runId: string, rows: seq<StagingRow>, i: nat)
    requires i < |rows|
    ensures Transformed(runId, rows)[i].orderId == rows[i].orderId
    ensures Transformed(runId, rows)[i].customerId == rows[i].customerId
    ensures Transformed(runId, rows)[i].amount == rows[i].amount
    ensures Transformed(runId, rows)[i].orderDate == rows[i].orderDate
    ensures Transformed(runId, rows)[i].runId == runId
    ensures Transformed(runId, rows)[i].category == JsCategory(rows[i].amount)
  {
    TransformedAt(runId, rows, i);
  }

  /** The JavaScript step writes what the Java step writes exactly when no
      amount is negative */
  lemma SameAsJavaIffNonNegative(runId: string, rows: seq<StagingRow>)
    ensures Transformed(runId, rows) == TransformStep.Transformed(runId, rows) <==>
      forall i :: 0 <= i < |rows| ==> rows[i].amount >= 0.0
  {
    if forall i :: 0 <= i < |rows| ==> rows[i].amount >= 0.0 {
      forall i | 0 <= i < |rows|
        ensures Transformed(runId, rows)[i] == TransformStep.Transformed(runId, rows)[i]
      {
        TransformedAt(runId, rows, i);
        TransformStep.TransformedAt(runId, rows, i);
        AgreesWithJava(rows[i].amount);
      }
    } else {
      var i :| 0 <= i < |rows| && rows[i].amount < 0.0;
      TransformedAt(runId, rows, i);
      TransformStep.TransformedAt(runId, rows, i);
      AgreesWithJava(rows[i].amount);
      assert Transformed(runId, rows)[i].category != TransformStep.Transformed(runId, rows)[i].category;
    }
  }

  /** runTransform: the number of staging rows read and the rows inserted */
  method RunTransform(runId: string, table: seq<StagingRow>) returns (count: int, inserted: seq<TransformedRow>)
    ensures count == |StagingOf(table, runId)|
    ensures inserted == Transformed(runId, StagingOf(table, runId))
  {
    var rows := StagingOf(table, runId);
    inserted := [];
    for k := 0 to |rows|
      invariant inserted == Transformed(runId, rows[..k])
    {
      var row := rows[k];
      assert rows[..k + 1][..k] == rows[..k];
      var amount := row.amount;
      var category := if amount < 50.0 then "Low" else if amount < 200.0 then "Medium" else "High";
      inserted := inserted + [TransformedRow(runId, row.orderId, row.customerId, row.amount, row.orderDate, category)];
    }
    assert rows[..|rows|] == rows;
    count := |rows|;
  }
}
