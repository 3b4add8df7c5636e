/** The four order tables the steps move rows through: Landing_Orders,
    Staging_Orders, Staging_Orders_Transformed and Target_Orders, and the
    upsert by OrderId that loads the target. */
module Orders {
  import opened Wrappers
  import opened Store

  /** A Landing_Orders row: the text as pulled, every column nullable */
  datatype LandingRow = LandingRow(
    runId: string,
    orderId: Option<string>,
    customerId: Option<string>,
    amount: Option<string>,
    orderDate: Option<string>,
    sourceType: string,
    rawPayload: Option<string>)

  /** A Staging_Orders row as the extract step writes it */
  datatype StagingRow = StagingRow(runId: string, orderId: string, customerId: string, amount: real, orderDate: Option<string>)

  /** A Staging_Orders_Transformed row */
  datatype TransformedRow = TransformedRow(runId: string, orderId: string, customerId: string, amount: real,
                                           orderDate: Option<string>, category: string)

  /** A Target_Orders row without its key */
  datatype TargetRow = TargetRow(customerId: string, amount: real, orderDate: Option<string>, category: string, migratedAt: Instant)

  /** The columns the upsert writes for one source row */
  function TargetOf(row: TransformedRow, now: Instant): TargetRow {
    TargetRow(row.customerId, row.amount, row.orderDate, row.category, now)
  }

  /** The rows a `WHERE` clause selects, in table order */
  function Where<R>(table: seq<R>, keep: R -> bool): (r: seq<R>)
    ensures |r| <= |table|
    ensures forall i :: 0 <= i < |r| ==> r[i] in table && keep(r[i])
    ensures forall i :: 0 <= i < |table| && keep(table[i]) ==> table[i] in r
  {
    if table == [] then []
    else Where(table[..|table| - 1], keep) + (if keep(table[|table| - 1]) then [table[|table| - 1]] else [])
  }

  /** `SELECT * FROM dbo.Landing_Orders WHERE RunId = ?` */
  function LandingOf(table: seq<LandingRow>, runId: string): seq<LandingRow> {
    Where(table, (r: LandingRow) => r.runId == runId)
  }

  /** `SELECT * FROM dbo.Staging_Orders WHERE RunId = ?` */
  function StagingOf(table: seq<StagingRow>, runId: string): seq<StagingRow> {
    Where(table, (r: StagingRow) => r.runId == runId)
  }

  /** `SELECT ... FROM dbo.Staging_Orders_Transformed WHERE RunId = ?` */
  function TransformedOf(table: seq<TransformedRow>, runId: string): seq<TransformedRow> {
    Where(table, (r: TransformedRow) => r.runId == runId)
  }

  /** The rows a step inserts when it maps each read row to at most one
      output row, in read order */
  function FilterMap<A, B>(f: A -> Option<B>, xs: seq<A>): (r: seq<B>)
    ensures |r| <= |xs|
  {
    if xs == [] then []
    else
      var last := f(xs[|xs| - 1]);
      FilterMap(f, xs[..|xs| - 1]) + (if last.Some? then [last.value] else [])
  }

  /** A read row with an image has it output */
  lemma {:induction false} FilterMapHas<A, B>(f: A -> Option<B>, xs: seq<A>, i: nat)
    requires i < |xs| && f(xs[i]).Some?
    ensures f(xs[i]).value in FilterMap(f, xs)
  {
    var init := xs[..|xs| - 1];
    if i < |xs| - 1 {
      assert init[i] == xs[i];
      FilterMapHas(f, init, i);
    }
  }

  /** An output row is the image of some read row */
  lemma {:induction false} FilterMapOrigin<A, B>(f: A -> Option<B>, xs: seq<A>, y: B) returns (i: nat)
    requires y in FilterMap(f, xs)
    ensures i < |xs| && f(xs[i]) == Some(y)
  {
    var init := xs[..|xs| - 1];
    if y in FilterMap(f, init) {
      i := FilterMapOrigin(f, init, y);
      assert xs[i] == init[i];
    } else {
      i := |xs| - 1;
    }
  }

  /** Every output row is the image of a read row, and every read row with an image is output */
  lemma FilterMapFrom<A, B>(f: A -> Option<B>, xs: seq<A>)
    ensures forall y :: y in FilterMap(f, xs) <==> exists i :: 0 <= i < |xs| && f(xs[i]) == Some(y)
  {
    forall y | y in FilterMap(f, xs)
      ensures exists i :: 0 <= i < |xs| && f(xs[i]) == Some(y)
    {
      var i := FilterMapOrigin(f, xs, y);
    }
    forall y | exists i :: 0 <= i < |xs| && f(xs[i]) == Some(y)
      ensures y in FilterMap(f, xs)
    {
      var i :| 0 <= i < |xs| && f(xs[i]) == Some(y);
      FilterMapHas(f, xs, i);
    }
  }

  /** No row is dropped exactly when every read row has an image */
  lemma {:induction false} FilterMapKeepsAll<A, B>(f: A -> Option<B>, xs: seq<A>)
    ensures |FilterMap(f, xs)| == |xs| <==> forall i :: 0 <= i < |xs| ==> f(xs[i]).Some?
  {
    if xs != [] {
      var init := xs[..|xs| - 1];
      FilterMapKeepsAll(f, init);
      assert forall i :: 0 <= i < |init| ==> init[i] == xs[i];
    }
  }

  /** The rows after one more read row */
  lemma FilterMapStep<A, B>(f: A -> Option<B>, xs: seq<A>, k: nat)
    requires k < |xs|
    ensures FilterMap(f, xs[..k + 1]) == FilterMap(f, xs[..k]) + (if f(xs[k]).Some? then [f(xs[k]).value] else [])
  {
    assert xs[..k + 1][..k] == xs[..k];
  }

  /** The upsert of source rows in order: a matched OrderId has all its other
      columns overwritten, an unmatched one is inserted */
  function UpsertAll(target: map<string, TargetRow>, rows: seq<TransformedRow>, now: Instant): map<string, TargetRow>
    decreases |rows|
  {
    if rows == [] then target
    else UpsertAll(target[rows[0].orderId := TargetOf(rows[0], now)], rows[1..], now)
  }

  /** Upserting two runs of rows one after the other is upserting them together */
  lemma {:induction false} UpsertAllAppend(target: map<string, TargetRow>, a: seq<TransformedRow>, b: seq<TransformedRow>, now: Instant)
    ensures UpsertAll(target, a + b, now) == UpsertAll(UpsertAll(target, a, now), b, now)
    decreases |a|
  {
    if a == [] {
      assert a + b == b;
    } else {
      assert (a + b)[0] == a[0];
      assert (a + b)[1..] == a[1..] + b;
      UpsertAllAppend(target[a[0].orderId := TargetOf(a[0], now)], a[1..], b, now);
    }
  }

  /** The OrderIds of some source rows */
  function OrderIds(rows: seq<TransformedRow>): (r: set<string>)
    ensures forall i :: 0 <= i < |rows| ==> rows[i].orderId in r
    ensures forall id :: id in r ==> exists i :: 0 <= i < |rows| && rows[i].orderId == id
    decreases |rows|
  {
    if rows == [] then {} else {rows[0].orderId} + OrderIds(rows[1..])
  }

  /** The target holds its old keys and every source OrderId, and no other */
  lemma {:induction false} UpsertKeys(target: map<string, TargetRow>, rows: seq<TransformedRow>, now: Instant)
    ensures UpsertAll(target, rows, now).Keys == target.Keys + OrderIds(rows)
    decreases |rows|
  {
    if rows != [] {
      UpsertKeys(target[rows[0].orderId := TargetOf(rows[0], now)], rows[1..], now);
    }
  }

  /** A target row whose OrderId the source lacks is untouched */
  lemma {:induction false} UpsertKeepsOthers(target: map<string, TargetRow>, rows: seq<TransformedRow>, now: Instant, id: string)
    requires id in target && id !in OrderIds(rows)
    ensures id in UpsertAll(target, rows, now) && UpsertAll(target, rows, now)[id] == target[id]
    decreases |rows|
  {
    if rows != [] {
      UpsertKeepsOthers(target[rows[0].orderId := TargetOf(rows[0], now)], rows[1..], now, id);
    }
  }

  /** The row at index i is what the target holds for its OrderId when no later row carries it */
  lemma {:induction false} UpsertLastWins(target: map<string, TargetRow>, rows: seq<TransformedRow>, now: Instant, i: nat)
    requires i < |rows| && rows[i].orderId !in OrderIds(rows[i + 1..])
    ensures rows[i].orderId in UpsertAll(target, rows, now)
    ensures UpsertAll(target, rows, now)[rows[i].orderId] == TargetOf(rows[i], now)
    decreases |rows|
  {
    var t1 := target[rows[0].orderId := TargetOf(rows[0], now)];
    if i == 0 {
      UpsertKeepsOthers(t1, rows[1..], now, rows[0].orderId);
    } else {
      assert rows[1..][i - 1 + 1..] == rows[i + 1..];
      UpsertLastWins(t1, rows[1..], now, i - 1);
    }
  }

  /** Two rows with the same OrderId: the later one is what the target keeps */
  lemma DuplicateLastWins(target: map<string, TargetRow>, a: TransformedRow, b: TransformedRow, now: Instant)
    requires a.orderId == b.orderId
    ensures UpsertAll(target, [a, b], now) == target[a.orderId := TargetOf(b, now)]
  {
    var t1 := target[a.orderId := TargetOf(a, now)];
    var t2 := t1[b.orderId := TargetOf(b, now)];
    assert [a, b][1..] == [b];
    assert [b][1..] == [];
    assert UpsertAll(t1, [b], now) == UpsertAll(t2, [], now) == t2;
    assert t2 == target[a.orderId := TargetOf(b, now)];
  }
}
