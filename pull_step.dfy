/** Step 1 (Java): read the source file named by the run (CSV or JSON), turn
    each record into a Landing_Orders row with text columns, insert them in
    batches of BatchSize and report progress. */
module PullStep {
  import opened Wrappers
  import opened JavaLang
  import opened FileNames
  import opened Orders
  import opened StepProgress
  import opened Batching

  // ---------------------------------------------------------------------
  // parseCsvLine

  /** The scanner's state: the finished fields, the current one, and whether
      an opening quote is still unmatched */
  datatype Scan = Scan(out: seq<string>, cur: string, inQuotes: bool)

  /** One character: a quote toggles the quoted state and is dropped; a comma
      outside quotes or a newline ends the (trimmed) field; anything else is kept */
  function ScanChar(s: Scan, c: char): (r: Scan)
    ensures |s.out| <= |r.out| <= |s.out| + 1 && r.out[..|s.out|] == s.out
    ensures |r.out| == |s.out| + 1 <==> c == '\n' || (c == ',' && !s.inQuotes)
    ensures r.inQuotes == (if c == '"' then !s.inQuotes else s.inQuotes)
  {
    if c == '"' then s.(inQuotes := !s.inQuotes)
    else if (c == ',' && !s.inQuotes) || c == '\n' then Scan(s.out + [Trim(s.cur)], [], s.inQuotes)
    else s.(cur := s.cur + [c])
  }

  function ScanLine(line: string): Scan {
    if line == [] then Scan([], [], false)
    else ScanChar(ScanLine(line[..|line| - 1]), line[|line| - 1])
  }

  /** The fields parseCsvLine returns: the finished ones and the last */
  function CsvFields(line: string): (r: seq<string>)
    ensures |r| == |ScanLine(line).out| + 1
  {
    var s := ScanLine(line);
    s.out + [Trim(s.cur)]
  }

  function QuoteCount(s: string): nat {
    if s == [] then 0 else QuoteCount(s[..|s| - 1]) + (if s[|s| - 1] == '"' then 1 else 0)
  }

  /** The characters that end a field: newlines, and commas after an even
      number of quotes */
  function Separators(s: string): nat {
    if s == [] then 0
    else
      var init, c := s[..|s| - 1], s[|s| - 1];
      Separators(init) + (if c == '\n' || (c == ',' && QuoteCount(init) % 2 == 0) then 1 else 0)
  }

  /** The scanner is inside quotes after an odd number of them, has ended one
      field per separator, and keeps no quote and no surrounding blank in a field */
  lemma {:induction false} ScanInvariant(line: string)
    ensures ScanLine(line).inQuotes <==> QuoteCount(line) % 2 == 1
    ensures |ScanLine(line).out| == Separators(line)
    ensures '"' !in ScanLine(line).cur
    ensures forall i :: 0 <= i < |ScanLine(line).out| ==>
      '"' !in ScanLine(line).out[i] && Trim(ScanLine(line).out[i]) == ScanLine(line).out[i]
  {
    if line != [] {
      var init, c := line[..|line| - 1], line[|line| - 1];
      ScanInvariant(init);
      var s := ScanLine(init);
      if c != '"' && ((c == ',' && !s.inQuotes) || c == '\n') {
        TrimKeepsChars(s.cur);
        TrimIdempotent(s.cur);
        var out := s.out + [Trim(s.cur)];
        assert forall i :: 0 <= i < |s.out| ==> out[i] == s.out[i];
      }
    }
  }

  /** parseCsvLine yields one field more than there are separators, none of
      them with a quote or surrounding blanks */
  lemma CsvFieldsFacts(line: string)
    ensures |CsvFields(line)| == Separators(line) + 1
    ensures forall i :: 0 <= i < |CsvFields(line)| ==> '"' !in CsvFields(line)[i] && Trim(CsvFields(line)[i]) == CsvFields(line)[i]
  {
    ScanInvariant(line);
    var s := ScanLine(line);
    TrimKeepsChars(s.cur);
    TrimIdempotent(s.cur);
    var r := CsvFields(line);
    assert forall i :: 0 <= i < |s.out| ==> r[i] == s.out[i];
  }

  /** Every piece trimmed */
  function TrimAll(ps: seq<string>): (r: seq<string>)
    ensures |r| == |ps|
  {
    if ps == [] then [] else TrimAll(ps[..|ps| - 1]) + [Trim(ps[|ps| - 1])]
  }

  lemma {:induction false} ScanWithoutQuotes(line: string)
    requires '"' !in line && '\n' !in line
    ensures ScanLine(line).cur == CommaPieces(line)[|CommaPieces(line)| - 1]
    ensures ScanLine(line).out == TrimAll(CommaPieces(line)[..|CommaPieces(line)| - 1])
    ensures !ScanLine(line).inQuotes
  {
    if line != [] {
      var init, c := line[..|line| - 1], line[|line| - 1];
      assert forall x :: x in init ==> x in line;
      ScanWithoutQuotes(init);
      var p, q := CommaPieces(init), CommaPieces(line);
      if c == ',' {
        assert q[..|q| - 1] == p;
        assert p == p[..|p| - 1] + [p[|p| - 1]];
      } else {
        assert q[..|q| - 1] == p[..|p| - 1];
      }
    }
  }

  /** Without quotes and newlines, parseCsvLine is split on every comma,
      empty pieces kept, each piece trimmed */
  lemma NoQuotesIsSplit(line: string)
    requires '"' !in line && '\n' !in line
    ensures CsvFields(line) == TrimAll(CommaPieces(line))
  {
    ScanWithoutQuotes(line);
    var p := CommaPieces(line);
    assert p[..|p| - 1] + [p[|p| - 1]] == p;
  }

  lemma ScanStep(line: string, k: nat)
    requires k < |line|
    ensures ScanLine(line[..k + 1]) == ScanChar(ScanLine(line[..k]), line[k])
  {
    assert line[..k + 1][..k] == line[..k];
  }

  lemma QuotedField()
    ensures ScanLine("\"a,b\"") == Scan([], "a,b", false)
  {
    var line := "\"a,b\"";
    assert line[..0] == [];
    ScanStep(line, 0);
    assert ScanLine(line[..1]) == Scan([], [], true);
    ScanStep(line, 1);
    assert ScanLine(line[..2]) == Scan([], "a", true);
    ScanStep(line, 2);
    assert ScanLine(line[..3]) == Scan([], "a,", true);
    ScanStep(line, 3);
    assert ScanLine(line[..4]) == Scan([], "a,b", true);
    ScanStep(line, 4);
    assert line[..5] == line;
  }

  /** A comma inside quotes stays in the field; the quotes themselves are dropped */
  lemma QuotedCommaKept()
    ensures CsvFields("\"a,b\",c") == ["a,b", "c"]
  {
    var line := "\"a,b\",c";
    assert line[..5] == "\"a,b\"";
    QuotedField();
    ScanStep(line, 5);
    TrimNothing("a,b");
    assert ScanLine(line[..6]) == Scan(["a,b"], [], false);
    ScanStep(line, 6);
    assert line[..7] == line;
    assert ScanLine(line) == Scan(["a,b"], "c", false);
    TrimNothing("c");
  }

  /** parseCsvLine */
  method ParseCsvLine(line: string) returns (fields: seq<string>)
    ensures fields == CsvFields(line)
  {
    var out: seq<string> := [];
    var cur: string := [];
    var inQuotes := false;
    for i := 0 to |line|
      invariant Scan(out, cur, inQuotes) == ScanLine(line[..i])
    {
      ScanStep(line, i);
      var c := line[i];
      if c == '"' {
        inQuotes := !inQuotes;
      } else if (c == ',' && !inQuotes) || c == '\n' {
        out := out + [Trim(cur)];
        cur := [];
      } else {
        cur := cur + [c];
      }
    }
    assert line[..|line|] == line;
    fields := out + [Trim(cur)];
  }

  // ---------------------------------------------------------------------
  // getVal

  /** Header i names `key` (trimmed, ignoring case) and the line has a value there */
  predicate Matches(vals: seq<string>, headers: seq<string>, key: string, i: int) {
    0 <= i < |headers| && i < |vals| && EqualsIgnoreCase(Trim(headers[i]), key)
  }

  /** The inner loop of getVal from header i on: the trimmed value under the
      first matching header */
  function LookupFrom(vals: seq<string>, headers: seq<string>, key: string, i: nat): Option<string>
    decreases |headers| - i
  {
    if i >= |headers| then None
    else if EqualsIgnoreCase(Trim(headers[i]), key) && i < |vals| then Some(Trim(vals[i]))
    else LookupFrom(vals, headers, key, i + 1)
  }

  function Lookup(vals: seq<string>, headers: seq<string>, key: string): Option<string> {
    LookupFrom(vals, headers, key, 0)
  }

  /** getVal: the keys tried in order, the first one found wins */
  function GetVal(vals: seq<string>, headers: seq<string>, keys: seq<string>): Option<string> {
    if keys == [] then None
    else
      var v := Lookup(vals, headers, keys[0]);
      if v.Some? then v else GetVal(vals, headers, keys[1..])
  }

  lemma {:induction false} LookupFromFirst(vals: seq<string>, headers: seq<string>, key: string, i: nat, j: nat)
    requires i <= j && Matches(vals, headers, key, j)
    requires forall k :: i <= k < j ==> !Matches(vals, headers, key, k)
    ensures LookupFrom(vals, headers, key, i) == Some(Trim(vals[j]))
    decreases j - i
  {
    if i < j {
      assert !Matches(vals, headers, key, i);
      LookupFromFirst(vals, headers, key, i + 1, j);
    }
  }

  /** With a first matching header j, the value is the trimmed value at j */
  lemma LookupFirst(vals: seq<string>, headers: seq<string>, key: string, j: nat)
    requires Matches(vals, headers, key, j)
    requires forall k :: 0 <= k < j ==> !Matches(vals, headers, key, k)
    ensures Lookup(vals, headers, key) == Some(Trim(vals[j]))
  {
    LookupFromFirst(vals, headers, key, 0, j);
  }

  lemma {:induction false} LookupFromNone(vals: seq<string>, headers: seq<string>, key: string, i: nat)
    ensures LookupFrom(vals, headers, key, i).None? <==> forall k :: i <= k < |headers| ==> !Matches(vals, headers, key, k)
    decreases |headers| - i
  {
    if i < |headers| {
      LookupFromNone(vals, headers, key, i + 1);
      assert Matches(vals, headers, key, i) <==> EqualsIgnoreCase(Trim(headers[i]), key) && i < |vals|;
    }
  }

  /** Nothing is found exactly when no header with a value names the key */
  lemma LookupNone(vals: seq<string>, headers: seq<string>, key: string)
    ensures Lookup(vals, headers, key).None? <==> forall k :: 0 <= k < |headers| ==> !Matches(vals, headers, key, k)
  {
    LookupFromNone(vals, headers, key, 0);
  }

  lemma {:induction false} LookupFromOrigin(vals: seq<string>, headers: seq<string>, key: string, i: nat) returns (j: nat)
    requires LookupFrom(vals, headers, key, i).Some?
    ensures j < |vals| && LookupFrom(vals, headers, key, i).value == Trim(vals[j])
    decreases |headers| - i
  {
    if EqualsIgnoreCase(Trim(headers[i]), key) && i < |vals| {
      j := i;
    } else {
      j := LookupFromOrigin(vals, headers, key, i + 1);
    }
  }

  lemma {:induction false} GetValOrigin(vals: seq<string>, headers: seq<string>, keys: seq<string>) returns (j: nat)
    requires GetVal(vals, headers, keys).Some?
    ensures j < |vals| && GetVal(vals, headers, keys).value == Trim(vals[j])
  {
    if Lookup(vals, headers, keys[0]).Some? {
      j := LookupFromOrigin(vals, headers, keys[0], 0);
    } else {
      j := GetValOrigin(vals, headers, keys[1..]);
    }
  }

  lemma {:induction false} LookupFromSameLower(vals: seq<string>, headers: seq<string>, k1: string, k2: string, i: nat)
    requires ToLower(k1) == ToLower(k2)
    ensures LookupFrom(vals, headers, k1, i) == LookupFrom(vals, headers, k2, i)
    decreases |headers| - i
  {
    if i < |headers| {
      LookupFromSameLower(vals, headers, k1, k2, i + 1);
    }
  }

  /** Keys that differ only in case find the same value, so a second key that
      is a case variant of the first is never used */
  lemma CaseVariantKeyUnused(vals: seq<string>, headers: seq<string>, k1: string, k2: string)
    requires EqualsIgnoreCase(k1, k2)
    ensures GetVal(vals, headers, [k1, k2]) == Lookup(vals, headers, k1)
  {
    LookupFromSameLower(vals, headers, k1, k2, 0);
    assert [k1, k2][1..] == [k2] && [k2][1..] == [];
    assert GetVal(vals, headers, [k1, k2]) == if Lookup(vals, headers, k1).Some? then Lookup(vals, headers, k1) else GetVal(vals, headers, [k2]);
    assert GetVal(vals, headers, [k2]) == if Lookup(vals, headers, k2).Some? then Lookup(vals, headers, k2) else GetVal(vals, headers, []);
  }

  /** Two names that differ only in the case of their first letter */
  lemma FirstLetterCase(a: string, b: string)
    requires a != [] && b != [] && a[1..] == b[1..] && LowerChar(a[0]) == LowerChar(b[0])
    ensures EqualsIgnoreCase(a, b)
  {
  }

  /** Each pair of keys the step passes is one name in two cases */
  lemma StepKeysAreCaseVariants()
    ensures EqualsIgnoreCase("OrderId", "orderId")
    ensures EqualsIgnoreCase("CustomerId", "customerId")
    ensures EqualsIgnoreCase("Amount", "amount")
    ensures EqualsIgnoreCase("OrderDate", "orderDate")
  {
    FirstLetterCase("OrderId", "orderId");
    FirstLetterCase("CustomerId", "customerId");
    FirstLetterCase("Amount", "amount");
    FirstLetterCase("OrderDate", "orderDate");
  }

  // ---------------------------------------------------------------------
  // get (JSON)

  /** A JSON object as Gson parses it: its members with a non-null value, each
      as the text toString() gives it, and the text GSON.toJson writes for it */
  datatype JsonObject = JsonObject(members: map<string, string>, json: string)

  /** get: the first key with a non-null member */
  function Get(m: map<string, string>, keys: seq<string>): (r: Option<string>)
    ensures r.None? <==> forall k :: 0 <= k < |keys| ==> keys[k] !in m
    ensures r.Some? ==> exists k :: 0 <= k < |keys| && keys[k] in m && r.value == m[keys[k]]
  {
    if keys == [] then None
    else if keys[0] in m then Some(m[keys[0]])
    else Get(m, keys[1..])
  }

  /** The member of the first key present wins */
  lemma {:induction false} GetFirst(m: map<string, string>, keys: seq<string>, j: nat)
    requires j < |keys| && keys[j] in m
    requires forall k :: 0 <= k < j ==> keys[k] !in m
    ensures Get(m, keys) == Some(m[keys[j]])
  {
    if j > 0 {
      assert keys[0] !in m;
      GetFirst(m, keys[1..], j - 1);
    }
  }

  /** Nothing is found exactly when no key is present */
  lemma {:induction false} GetNone(m: map<string, string>, keys: seq<string>)
    ensures Get(m, keys).None? <==> forall k :: 0 <= k < |keys| ==> keys[k] !in m
  {
    if keys != [] {
      GetNone(m, keys[1..]);
      assert forall k :: 1 <= k < |keys| ==> keys[k] == keys[1..][k - 1];
    }
  }

  // ---------------------------------------------------------------------
  // The rows read from the file

  /** The Landing_Orders row of one CSV data line */
  function CsvRow(runId: string, headers: seq<string>, line: string): LandingRow {
    var vals := CsvFields(line);
    LandingRow(runId, GetVal(vals, headers, ["OrderId", "orderId"]), GetVal(vals, headers, ["CustomerId", "customerId"]),
               GetVal(vals, headers, ["Amount", "amount"]), GetVal(vals, headers, ["OrderDate", "orderDate"]), "CSV", None)
  }

  /** The Landing_Orders row of one JSON object; `String.valueOf` of the
      Amount member is its toString() */
  function JsonRow(runId: string, m: JsonObject): LandingRow {
    LandingRow(runId, Get(m.members, ["OrderId", "orderId"]), Get(m.members, ["CustomerId", "customerId"]),
               Get(m.members, ["Amount", "amount"]), Get(m.members, ["OrderDate", "orderDate"]), "JSON", Some(m.json))
  }

  /** The rows of the data lines `body` under `headers` */
  function CsvRowsOf(runId: string, headers: seq<string>, body: seq<string>): (r: seq<LandingRow>)
    ensures |r| == |body|
  {
    if body == [] then [] else CsvRowsOf(runId, headers, body[..|body| - 1]) + [CsvRow(runId, headers, body[|body| - 1])]
  }

  /** Row i is the row of data line i */
  lemma {:induction false} CsvRowsAt(runId: string, headers: seq<string>, body: seq<string>, i: nat)
    requires i < |body|
    ensures CsvRowsOf(runId, headers, body)[i] == CsvRow(runId, headers, body[i])
  {
    if i < |body| - 1 {
      CsvRowsAt(runId, headers, body[..|body| - 1], i);
    }
  }

  /** The rows of a CSV file: its first line gives the headers, split on commas */
  function CsvRows(runId: string, lines: seq<string>): seq<LandingRow>
    requires lines != []
  {
    CsvRowsOf(runId, SplitComma(lines[0]), lines[1..])
  }

  function JsonRows(runId: string, list: seq<JsonObject>): seq<LandingRow> {
    seq(|list|, i requires 0 <= i < |list| => JsonRow(runId, list[i]))
  }

  /** Path.getFileName: the part after the last '/' */
  function FileName(path: string): (r: string)
    ensures |r| <= |path| && r == path[|path| - |r|..]
    ensures forall k :: 0 <= k < |r| ==> r[k] != '/'
    ensures |r| == |path| || path[|path| - |r| - 1] == '/'
  {
    path[LastIndexOf(path, '/') + 1..]
  }

  /** The extension the step dispatches on, "" without a dot */
  function Extension(path: string): string {
    FileExtension(FileName(path), "")
  }

  /** The rows the step lands, given the file's lines (when it is read as CSV)
      and Gson's parse of its text (when it is read as JSON) */
  function Pulled(runId: string, filePath: Option<string>, lines: seq<string>, list: Option<seq<JsonObject>>): seq<LandingRow> {
    if filePath.None? || filePath.value == [] then []
    else if Extension(filePath.value) == ".csv" then (if lines == [] then [] else CsvRows(runId, lines))
    else if Extension(filePath.value) == ".json" then (if list.None? then [] else JsonRows(runId, list.value))
    else []
  }

  // ---------------------------------------------------------------------
  // Properties of the rows read

  /** CSV: one row per line after the header; no raw payload */
  lemma PulledCsv(runId: string, path: string, lines: seq<string>, list: Option<seq<JsonObject>>)
    requires Extension(path) == ".csv" && lines != []
    ensures |Pulled(runId, Some(path), lines, list)| == |lines| - 1
    ensures forall i :: 0 <= i < |lines| - 1 ==>
      var r := Pulled(runId, Some(path), lines, list)[i];
      r.runId == runId && r.sourceType == "CSV" && r.rawPayload.None?
  {
    assert path != [] by {
      assert '.' in FileName(path);
    }
    var rows := Pulled(runId, Some(path), lines, list);
    assert rows == CsvRows(runId, lines);
    forall i | 0 <= i < |lines| - 1
      ensures rows[i].runId == runId && rows[i].sourceType == "CSV" && rows[i].rawPayload.None?
    {
      CsvRowsAt(runId, SplitComma(lines[0]), lines[1..], i);
    }
  }

  /** JSON: one row per object, each carrying the object's JSON text */
  lemma PulledJson(runId: string, path: string, lines: seq<string>, list: seq<JsonObject>)
    requires Extension(path) == ".json"
    ensures |Pulled(runId, Some(path), lines, Some(list))| == |list|
    ensures forall i :: 0 <= i < |list| ==>
      var r := Pulled(runId, Some(path), lines, Some(list))[i];
      r.runId == runId && r.sourceType == "JSON" && r.rawPayload == Some(list[i].json)
  {
    assert path != [] by {
      assert '.' in FileName(path);
    }
    var rows := Pulled(runId, Some(path), lines, Some(list));
    assert rows == JsonRows(runId, list);
    forall i | 0 <= i < |list|
      ensures rows[i].runId == runId && rows[i].sourceType == "JSON" && rows[i].rawPayload == Some(list[i].json)
    {
      assert rows[i] == JsonRow(runId, list[i]);
    }
  }

  /** Nothing is landed for a missing path, an empty CSV file, a JSON null or
      any other extension */
  lemma PulledNothing(runId: string, filePath: Option<string>, lines: seq<string>, list: Option<seq<JsonObject>>)
    ensures Pulled(runId, filePath, lines, list) == [] <==>
      filePath.None? || filePath.value == []
      || (Extension(filePath.value) == ".csv" && |lines| <= 1)
      || (Extension(filePath.value) == ".json" && (list.None? || list.value == []))
      || (Extension(filePath.value) != ".csv" && Extension(filePath.value) != ".json")
  {
    if filePath.Some? && filePath.value != [] && Extension(filePath.value) == ".csv" && |lines| > 1 {
      assert |CsvRows(runId, lines)| == |lines| - 1;
    }
  }

  /** A CSV value is trimmed and holds no quote */
  lemma CsvValueClean(vals: seq<string>, line: string, headers: seq<string>, keys: seq<string>)
    requires vals == CsvFields(line) && GetVal(vals, headers, keys).Some?
    ensures Trim(GetVal(vals, headers, keys).value) == GetVal(vals, headers, keys).value
    ensures '"' !in GetVal(vals, headers, keys).value
  {
    var j := GetValOrigin(vals, headers, keys);
    CsvFieldsFacts(line);
  }

  /** A JSON field takes the capitalised key's member when present, else the
      lower-case one's, else stays null */
  lemma JsonKeyPrecedence(m: map<string, string>, upper: string, lower: string)
    ensures upper in m ==> Get(m, [upper, lower]) == Some(m[upper])
    ensures upper !in m && lower in m ==> Get(m, [upper, lower]) == Some(m[lower])
    ensures upper !in m && lower !in m ==> Get(m, [upper, lower]).None?
  {
    assert [upper, lower][1..] == [lower] && [lower][1..] == [];
    assert Get(m, [upper, lower]) == if upper in m then Some(m[upper]) else Get(m, [lower]);
    assert Get(m, [lower]) == if lower in m then Some(m[lower]) else Get(m, []);
  }

  // ---------------------------------------------------------------------
  // run

  /** One data line of the CSV branch */
  method ReadCsvLine(runId: string, headers: seq<string>, line: string) returns (row: LandingRow)
    ensures row == CsvRow(runId, headers, line)
  {
    var vals := ParseCsvLine(line);
    row := LandingRow(runId, GetVal(vals, headers, ["OrderId", "orderId"]), GetVal(vals, headers, ["CustomerId", "customerId"]),
                      GetVal(vals, headers, ["Amount", "amount"]), GetVal(vals, headers, ["OrderDate", "orderDate"]), "CSV", None);
  }

  /** The CSV branch: headers from the first line, one row per later line */
  method ReadCsv(runId: string, lines: seq<string>) returns (rows: seq<LandingRow>)
    requires lines != []
    ensures rows == CsvRows(runId, lines)
  {
    var headers := SplitComma(lines[0]);
    ghost var body := lines[1..];
    rows := [];
    for i := 1 to |lines|
      invariant rows == CsvRowsOf(runId, headers, body[..i - 1])
    {
      var row := ReadCsvLine(runId, headers, lines[i]);
      assert body[..i][..i - 1] == body[..i - 1] && body[..i][i - 1] == lines[i];
      rows := rows + [row];
    }
    assert body[..|lines| - 1] == body;
  }

  /** The JSON branch: one row per object of the list */
  method ReadJson(runId: string, list: seq<JsonObject>) returns (rows: seq<LandingRow>)
    ensures rows == JsonRows(runId, list)
  {
    rows := [];
    for i := 0 to |list|
      invariant |rows| == i
      invariant forall j :: 0 <= j < i ==> rows[j] == JsonRow(runId, list[j])
    {
      var m := list[i].members;
      var amt: Option<string> := None;
      if "Amount" in m {
        amt := Some(m["Amount"]);
      }
      if amt.None? && "amount" in m {
        amt := Some(m["amount"]);
      }
      JsonKeyPrecedence(m, "Amount", "amount");
      var row := LandingRow(runId, Get(m, ["OrderId", "orderId"]), Get(m, ["CustomerId", "customerId"]), amt,
                            Get(m, ["OrderDate", "orderDate"]), "JSON", Some(list[i].json));
      rows := rows + [row];
    }
  }

  /** The insert loop: a batch executed every BatchSize rows and once for the remainder */
  method InsertRows(rows: seq<LandingRow>) returns (n: int, batches: seq<seq<LandingRow>>, progress: seq<int>)
    ensures n == |rows| && Flushed(rows, batches) && progress == ProgressCalls(n)
  {
    n := 0;
    batches := [];
    var pending: seq<LandingRow> := [];
    progress := [];
    Start<LandingRow>();
    for k := 0 to |rows|
      invariant n == k && Batched(rows[..k], batches, pending, progress)
    {
      assert rows[..k + 1] == rows[..k] + [rows[k]];
      n, batches, pending, progress := AddToBatchByCount(rows[..k], n, batches, pending, progress, rows[k]);
    }
    assert rows[..|rows|] == rows;
    batches, progress := FlushByCount(rows, n, batches, pending, progress);
  }

  /** run: the number of rows landed, the executed batches and the counts
      progress was reported with */
  method Run(runId: string, filePath: Option<string>, lines: seq<string>, list: Option<seq<JsonObject>>)
    returns (count: int, batches: seq<seq<LandingRow>>, progress: seq<int>)
    ensures count == |Pulled(runId, filePath, lines, list)|
    ensures Flushed(Pulled(runId, filePath, lines, list), batches)
    ensures progress == ProgressCalls(count)
  {
    ProgressRepeatsOnInterval();
    if filePath.None? || filePath.value == [] {
      return 0, [], [];
    }
    var ext := FileExtension(FileName(filePath.value), "");
    var rows: seq<LandingRow> := [];
    if ext == ".csv" {
      if lines == [] {
        return 0, [], [];
      }
      rows := ReadCsv(runId, lines);
    } else if ext == ".json" {
      if list.None? {
        return 0, [], [];
      }
      rows := ReadJson(runId, list.value);
    }
    count, batches, progress := InsertRows(rows);
  }
}
