/** Step 2 (JavaScript twin): read Landing_Orders for the run, normalise each
    row into Staging_Orders, and return the number of landing rows read. */
module JsExtract {
  import opened Wrappers
  import opened JavaLang
  import opened Orders

  /** The white space and line terminators String.prototype.trim removes
      (ECMAScript, sections 12.2 and 12.3) */
  predicate IsJsSpace(c: char) {
    c == '\t' || c == '\n' || c == '\U{B}' || c == '\U{C}' || c == '\r' || c == ' '
    || c == '\U{A0}' || c == '\U{1680}' || ('\U{2000}' <= c <= '\U{200A}')
    || c == '\U{2028}' || c == '\U{2029}' || c == '\U{202F}' || c == '\U{205F}'
    || c == '\U{3000}' || c == '\U{FEFF}'
  }

  function JsTrimStart(s: string): (r: string)
    ensures |r| <= |s|
    ensures r != [] ==> !IsJsSpace(r[0])
    ensures forall i :: 0 <= i < |s| - |r| ==> IsJsSpace(s[i])
  {
    if s != [] && IsJsSpace(s[0]) then JsTrimStart(s[1..]) else s
  }

  function JsTrimEnd(s: string): (r: string)
    ensures |r| <= |s| && r == s[..|r|]
    ensures r != [] ==> !IsJsSpace(r[|r| - 1])
    ensures forall i :: |r| <= i < |s| ==> IsJsSpace(s[i])
  {
    if s != [] && IsJsSpace(s[|s| - 1]) then JsTrimEnd(s[..|s| - 1]) else s
  }

  /** String.prototype.trim */
  function JsTrim(s: string): (r: string)
    ensures r != [] ==> !IsJsSpace(r[0]) && !IsJsSpace(r[|r| - 1])
  {
    JsTrimEnd(JsTrimStart(s))
  }

  /** The trim is empty exactly when every character is white space */
  lemma JsTrimEmptyIffBlank(s: string)
    ensures JsTrim(s) == [] <==> forall i :: 0 <= i < |s| ==> IsJsSpace(s[i])
  {
    JsTrimStartSuffix(s);
    if JsTrim(s) == [] {
      var u := JsTrimStart(s);
      assert JsTrimEnd(u) == [];
      assert u == [];
    }
  }

  /** What JsTrimStart keeps is a suffix */
  lemma {:induction false} JsTrimStartSuffix(s: string)
    ensures JsTrimStart(s) == s[|s| - |JsTrimStart(s)|..]
  {
    if s != [] && IsJsSpace(s[0]) {
      JsTrimStartSuffix(s[1..]);
      assert s[1..][|s| - 1 - |JsTrimStart(s)|..] == s[|s| - |JsTrimStart(s)|..];
    }
  }

  /** The two trims differ: JavaScript strips a no-break space that Java keeps,
      and Java strips control characters that JavaScript keeps */
  lemma TrimsDiffer()
    ensures JsTrim("\U{A0}x") == "x" && Trim("\U{A0}x") == "\U{A0}x"
    ensures Trim("\U{1}x") == "x" && JsTrim("\U{1}x") == "\U{1}x"
  {
    assert "\U{A0}x"[1..] == "x" && "\U{1}x"[1..] == "x";
    TrimNothing("x");
    TrimNothing("\U{A0}x");
    assert JsTrimStart("x") == "x";
    assert JsTrimStart("\U{1}x") == "\U{1}x";
    assert Trim("\U{1}x") == Trim("x") by {
      assert TrimStart("\U{1}x") == TrimStart("x");
    }
  }

  /** `(v || '').trim()`: null and the empty string both give "" */
  function TrimOrEmpty(v: Option<string>): string {
    if v.None? then [] else JsTrim(v.value)
  }

  /** Number(...) and `new Date(s)` cut to its YYYY-MM-DD prefix, left
      abstract; None stands for an invalid date */
  datatype JsParsers = JsParsers(number: string -> real, isoDate: string -> Option<string>)

  /** parseDate: null for a null or empty value or an invalid date */
  function ParseDate(s: Option<string>, p: JsParsers): (r: Option<string>)
    ensures s.None? || s.value == [] ==> r.None?
    ensures r.Some? ==> s.Some? && r == p.isoDate(s.value)
  {
    if s.None? || s.value == [] then None else p.isoDate(s.value)
  }

  /** `row.OrderDate ? parseDate(row.OrderDate) : null` */
  function DateOf(orderDate: Option<string>, p: JsParsers): Option<string> {
    if orderDate.Some? && orderDate.value != [] then ParseDate(orderDate, p) else None
  }

  /** `row.Amount != null ? Number(row.Amount) : 0` */
  function AmountOf(amount: Option<string>, p: JsParsers): real {
    if amount.Some? then p.number(amount.value) else 0.0
  }

  /** `(row.CustomerId || '').trim() || 'UNKNOWN'` */
  function CustomerOf(customerId: Option<string>): string {
    var c := TrimOrEmpty(customerId);
    if c == [] then "UNKNOWN" else c
  }

  /** The Staging_Orders row one landing row yields, None when it is skipped */
  function Normalize(runId: string, row: LandingRow, p: JsParsers): (r: Option<StagingRow>)
    ensures r.None? <==> TrimOrEmpty(row.orderId) == []
    ensures r.Some? ==> r.value.runId == runId && r.value.orderId == TrimOrEmpty(row.orderId)
                        && r.value.customerId != [] && r.value.amount == AmountOf(row.amount, p)
                        && r.value.orderDate == DateOf(row.orderDate, p)
  {
    var orderId := TrimOrEmpty(row.orderId);
    if orderId == [] then None
    else Some(StagingRow(runId, orderId, CustomerOf(row.customerId), AmountOf(row.amount, p), DateOf(row.orderDate, p)))
  }

  /** The rows inserted for the landing rows `rows`, in read order */
  function Extracted(runId: string, rows: seq<LandingRow>, p: JsParsers): (r: seq<StagingRow>)
    ensures |r| <= |rows|
  {
    FilterMap(row => Normalize(runId, row, p), rows)
  }

  /** A row is skipped exactly when its OrderId is null or all white space;
      a kept OrderId is trimmed */
  lemma SkipRule(runId: string, row: LandingRow, p: JsParsers)
    ensures Normalize(runId, row, p).None? <==>
      row.orderId.None? || forall i :: 0 <= i < |row.orderId.value| ==> IsJsSpace(row.orderId.value[i])
    ensures Normalize(runId, row, p).Some? ==>
      Normalize(runId, row, p).value.orderId == JsTrim(row.orderId.value) != []
  {
    if row.orderId.Some? {
      JsTrimEmptyIffBlank(row.orderId.value);
    }
  }

  /** A null or blank CustomerId becomes UNKNOWN, any other is trimmed */
  lemma CustomerRule(customerId: Option<string>)
    ensures customerId.None? ==> CustomerOf(customerId) == "UNKNOWN"
    ensures customerId.Some? && (forall i :: 0 <= i < |customerId.value| ==> IsJsSpace(customerId.value[i])) ==>
      CustomerOf(customerId) == "UNKNOWN"
    ensures customerId.Some? && JsTrim(customerId.value) != [] ==> CustomerOf(customerId) == JsTrim(customerId.value)
  {
    if customerId.Some? {
      JsTrimEmptyIffBlank(customerId.value);
    }
  }

  /** A null Amount becomes 0; any other is converted, the empty string included */
  lemma AmountRule(amount: Option<string>, p: JsParsers)
    ensures amount.None? ==> AmountOf(amount, p) == 0.0
    ensures amount.Some? ==> AmountOf(amount, p) == p.number(amount.value)
  {
  }

  /** The caller's truthiness test only repeats parseDate's own: the date is
      parseDate of the value, null exactly when it is null, empty or invalid */
  lemma DateGuardRedundant(orderDate: Option<string>, p: JsParsers)
    ensures DateOf(orderDate, p) == ParseDate(orderDate, p)
    ensures DateOf(orderDate, p).None? <==>
      orderDate.None? || orderDate.value == [] || p.isoDate(orderDate.value).None?
  {
  }

  /** Every inserted row is the normalised form of a landing row, and every
      landing row that is not skipped is inserted */
  lemma ExtractedFromLanding(runId: string, rows: seq<LandingRow>, p: JsParsers)
    ensures forall s :: s in Extracted(runId, rows, p) <==>
      exists i :: 0 <= i < |rows| && Normalize(runId, rows[i], p) == Some(s)
  {
    FilterMapFrom(row => Normalize(runId, row, p), rows);
  }

  /** The returned count, every landing row, matches the inserted rows exactly
      when no row is skipped */
  lemma CountIncludesSkipped(runId: string, rows: seq<LandingRow>, p: JsParsers)
    ensures |Extracted(runId, rows, p)| <= |rows|
    ensures |Extracted(runId, rows, p)| == |rows| <==> forall i :: 0 <= i < |rows| ==> TrimOrEmpty(rows[i].orderId) != []
  {
    FilterMapKeepsAll(row => Normalize(runId, row, p), rows);
  }

  /** runExtract: the number of landing rows read and the rows inserted */
  method RunExtract(runId: string, table: seq<LandingRow>, p: JsParsers) returns (count: int, inserted: seq<StagingRow>)
    ensures count == |LandingOf(table, runId)|
    ensures inserted == Extracted(runId, LandingOf(table, runId), p)
  {
    var landing := LandingOf(table, runId);
    inserted := [];
    for k := 0 to |landing|
      invariant inserted == Extracted(runId, landing[..k], p)
    {
      var row := landing[k];
      FilterMapStep(r => Normalize(runId, r, p), landing, k);
      var orderId := if row.orderId.None? then [] else JsTrim(row.orderId.value);
      if orderId == [] {
        continue;
      }
      var orderDate := if row.orderDate.Some? && row.orderDate.value != [] then ParseDate(row.orderDate, p) else None;
      var amount := if row.amount.Some? then p.number(row.amount.value) else 0.0;
      var customerId := if row.customerId.None? then [] else JsTrim(row.customerId.value);
      if customerId == [] {
        customerId := "UNKNOWN";
      }
      inserted := inserted + [StagingRow(runId, orderId, customerId, amount, orderDate)];
    }
    assert landing[..|landing|] == landing;
    count := |landing|;
  }
}
