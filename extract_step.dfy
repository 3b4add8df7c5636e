/** Step 2 (Java): read the run's Landing_Orders rows, normalise each into a
    Staging_Orders row, insert them in batches of BatchSize and report progress
    against the landing total. */
module ExtractStep {
  import opened Wrappers
  import opened JavaLang
  import opened Orders
  import opened StepProgress
  import opened Batching

  /** Double.parseDouble and LocalDate.parse(...).toString(), left abstract:
      None stands for the exception the step ignores */
  datatype Parsers = Parsers(parseDouble: string -> Option<real>, isoDate: string -> Option<string>)

  /** The class's trim helper: null stays null */
  function TrimOrNull(s: Option<string>): (r: Option<string>)
    ensures r.Some? <==> s.Some?
  {
    match s
    case None => None
    case Some(v) => Some(Trim(v))
  }

  /** The trimmed OrderId, None when it is null or blank */
  function KeptOrderId(orderId: Option<string>): (r: Option<string>)
    ensures r.Some? ==> orderId.Some? && r.value == Trim(orderId.value) && r.value != []
  {
    var t := TrimOrNull(orderId);
    if t.None? || t.value == [] then None else t
  }

  /** The trimmed CustomerId, UNKNOWN when it is null or blank */
  function CustomerOf(customerId: Option<string>): (r: string)
    ensures r != []
  {
    var t := TrimOrNull(customerId);
    if t.None? || t.value == [] then "UNKNOWN" else t.value
  }

  /** The Amount, 0 when it is null, empty or does not parse */
  function AmountOf(amount: Option<string>, p: Parsers): (r: real)
    ensures amount.None? || amount.value == [] ==> r == 0.0
    ensures amount.Some? && amount.value != [] && p.parseDouble(Trim(amount.value)).None? ==> r == 0.0
    ensures amount.Some? && amount.value != [] && p.parseDouble(Trim(amount.value)).Some? ==>
              r == p.parseDouble(Trim(amount.value)).value
  {
    if amount.Some? && amount.value != [] then p.parseDouble(Trim(amount.value)).GetOr(0.0) else 0.0
  }

  /** The OrderDate as an ISO date, null when it is null, blank or does not parse */
  function DateOf(orderDate: Option<string>, p: Parsers): (r: Option<string>)
    ensures orderDate.None? || Trim(orderDate.value) == [] ==> r.None?
    ensures r.Some? ==> orderDate.Some? && r == p.isoDate(Trim(orderDate.value))
  {
    var t := TrimOrNull(orderDate);
    if t.Some? && t.value != [] then p.isoDate(t.value) else None
  }

  /** The Staging_Orders row one landing row yields, or None when it is skipped */
  function Normalize(runId: string, row: LandingRow, p: Parsers): (r: Option<StagingRow>)
    ensures r.None? <==> row.orderId.None? || Trim(row.orderId.value) == []
    ensures r.Some? ==> r.value.runId == runId && r.value.orderId == Trim(row.orderId.value)
                        && r.value.customerId != [] && r.value.amount == AmountOf(row.amount, p)
                        && r.value.orderDate == DateOf(row.orderDate, p)
  {
    match KeptOrderId(row.orderId)
    case None => None
    case Some(id) => Some(StagingRow(runId, id, CustomerOf(row.customerId), AmountOf(row.amount, p), DateOf(row.orderDate, p)))
  }

  /** The rows the step inserts for the landing rows `rows`, in read order */
  function Extracted(runId: string, rows: seq<LandingRow>, p: Parsers): (r: seq<StagingRow>)
    ensures |r| <= |rows|
  {
    FilterMap(row => Normalize(runId, row, p), rows)
  }

  /** A null or blank OrderId skips the row; a kept one is trimmed and non-empty */
  lemma OrderIdRule(orderId: Option<string>)
    ensures KeptOrderId(orderId).None? <==>
      orderId.None? || forall i :: 0 <= i < |orderId.value| ==> IsTrimmable(orderId.value[i])
    ensures KeptOrderId(orderId).Some? ==>
      KeptOrderId(orderId).value == Trim(orderId.value) && Trim(KeptOrderId(orderId).value) == KeptOrderId(orderId).value
  {
    if orderId.Some? {
      TrimEmptyIffBlank(orderId.value);
      TrimIdempotent(orderId.value);
    }
  }

  /** A null or blank CustomerId becomes UNKNOWN, any other is trimmed */
  lemma CustomerRule(customerId: Option<string>)
    ensures CustomerOf(customerId) == "UNKNOWN" <==>
      customerId.None? || Trim(customerId.value) == [] || Trim(customerId.value) == "UNKNOWN"
    ensures customerId.Some? && Trim(customerId.value) != [] ==> CustomerOf(customerId) == Trim(customerId.value)
  {
  }

  /** The amount is 0 when it is null, empty or unparsable, and the parsed value otherwise */
  lemma AmountRule(amount: Option<string>, p: Parsers)
    ensures amount.None? || amount.value == [] || p.parseDouble(Trim(amount.value)).None? ==> AmountOf(amount, p) == 0.0
    ensures amount.Some? && amount.value != [] && p.parseDouble(Trim(amount.value)).Some? ==>
      AmountOf(amount, p) == p.parseDouble(Trim(amount.value)).value
  {
  }

  /** A date is kept, normalised, exactly when it is present, not blank and parses */
  lemma DateRule(orderDate: Option<string>, p: Parsers)
    ensures DateOf(orderDate, p).Some? <==>
      orderDate.Some? && Trim(orderDate.value) != [] && p.isoDate(Trim(orderDate.value)).Some?
    ensures DateOf(orderDate, p).Some? ==> DateOf(orderDate, p) == p.isoDate(Trim(orderDate.value))
  {
  }

  /** Every inserted row is the normalised form of a landing row, and every
      landing row that is not skipped is inserted */
  lemma ExtractedFromLanding(runId: string, rows: seq<LandingRow>, p: Parsers)
    ensures forall s :: s in Extracted(runId, rows, p) <==>
      exists i :: 0 <= i < |rows| && Normalize(runId, rows[i], p) == Some(s)
  {
    FilterMapFrom(row => Normalize(runId, row, p), rows);
  }

  /** Every landing row is inserted exactly when none has a null or blank OrderId */
  lemma ExtractedKeepsAll(runId: string, rows: seq<LandingRow>, p: Parsers)
    ensures |Extracted(runId, rows, p)| == |rows| <==> forall i :: 0 <= i < |rows| ==> KeptOrderId(rows[i].orderId).Some?
  {
    FilterMapKeepsAll(row => Normalize(runId, row, p), rows);
  }

  /** run: the landing total, the count of inserted rows, the executed batches
      and the counts progress was reported with */
  method Run(runId: string, table: seq<LandingRow>, p: Parsers)
    returns (count: int, total: Option<int>, batches: seq<seq<StagingRow>>, progress: seq<int>)
    ensures total == Some(|LandingOf(table, runId)|)
    ensures count == |Extracted(runId, LandingOf(table, runId), p)| <= |LandingOf(table, runId)|
    ensures Flushed(Extracted(runId, LandingOf(table, runId), p), batches)
    ensures progress == ProgressCalls(count)
  {
    var rows := LandingOf(table, runId);
    total := Some(|rows|);
    count := 0;
    var batchCount := 0;
    var pending: seq<StagingRow> := [];
    batches := [];
    progress := [];
    ghost var inserted: seq<StagingRow> := [];
    Start<StagingRow>();
    var k := 0;
    while k < |rows|
      invariant 0 <= k <= |rows|
      invariant inserted == Extracted(runId, rows[..k], p)
      invariant Batched(inserted, batches, pending, progress)
      invariant count == |inserted| && batchCount == |pending|
    {
      var row := rows[k];
      FilterMapStep(r => Normalize(runId, r, p), rows, k);
      k := k + 1;
      var orderId := TrimOrNull(row.orderId);
      if orderId.None? || orderId.value == [] {
        assert Normalize(runId, row, p).None?;
        continue;
      }
      var customerId := TrimOrNull(row.customerId);
      if customerId.None? || customerId.value == [] {
        customerId := Some("UNKNOWN");
      }
      var amount := 0.0;
      if row.amount.Some? && row.amount.value != [] {
        var parsed := p.parseDouble(Trim(row.amount.value));
        if parsed.Some? {
          amount := parsed.value;
        }
      }
      var orderDateStr := TrimOrNull(row.orderDate);
      var orderDate: Option<string> := None;
      if orderDateStr.Some? && orderDateStr.value != [] {
        orderDate := p.isoDate(orderDateStr.value);
      }
      var staged := StagingRow(runId, orderId.value, customerId.value, amount, orderDate);
      assert Normalize(runId, row, p) == Some(staged);
      var executed;
      executed, count, batchCount, batches, pending, progress := AddToBatch(inserted, count, batchCount, batches, pending, progress, staged);
      inserted := inserted + [staged];
    }
    assert rows[..k] == rows;
    batches, progress := FlushBatch(inserted, count, batchCount, batches, pending, progress);
  }
}
