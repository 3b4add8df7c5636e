/** The servlet logic around the stored runs: the 6-hour lazy timeout, the
    cancellation guard, and the small request helpers (log limit, JSON escaping,
    JSON field coercions). */
module ApiServlet {
  import opened Wrappers
  import opened JavaLang
  import opened Store
  import opened CancelRegistry
  import opened Database

  const RunTimeoutHours := 6

  // ---- lazy timeout ----

  /** The run reads Running, its StartedAt parses, and now is not before StartedAt + 6h */
  predicate Expired(run: PipelineRun, now: Instant) {
    run.status == Running
    && run.startedAt.Some? && run.startedAt.value.Parsed?
    && now >= run.startedAt.value.at + RunTimeoutHours * HourMillis
  }

  /** The run map as markRunTimedOutIfNeeded leaves it */
  function TimeoutRow(run: PipelineRun, now: Instant): (r: PipelineRun)
    ensures Expired(run, now) ==> r == run.(status := TimedOut, finishedAt := Some(now))
    ensures !Expired(run, now) ==> r == run
  {
    if Expired(run, now) then run.(status := TimedOut, finishedAt := Some(now)) else run
  }

  /** Every expired run timed out, every other row as it was */
  function TimeOutExpired(db: Db, now: Instant): (r: Db)
    ensures r.steps == db.steps && r.logs == db.logs && r.runs.Keys == db.runs.Keys
    ensures forall id :: id in db.runs ==> r.runs[id] == TimeoutRow(db.runs[id], now)
  {
    db.(runs := map id | id in db.runs :: TimeoutRow(db.runs[id], now))
  }

  /** The rows among `ids` timed out, the rest as they were */
  function TimeOutAmong(db: Db, ids: set<string>, now: Instant): (r: Db)
    ensures r.steps == db.steps && r.logs == db.logs && r.runs.Keys == db.runs.Keys
    ensures forall id :: id in db.runs && id !in ids ==> r.runs[id] == db.runs[id]
    ensures forall id :: id in db.runs && id in ids && !Expired(db.runs[id], now) ==> r.runs[id] == db.runs[id]
  {
    db.(runs := map id | id in db.runs :: if id in ids then TimeoutRow(db.runs[id], now) else db.runs[id])
  }

  function ExpiredIds(db: Db, now: Instant): set<string> {
    set id | id in db.runs && Expired(db.runs[id], now)
  }

  /** A second check right after the first changes nothing: no expired run is left */
  lemma TimeoutIdempotent(db: Db, now: Instant)
    ensures ExpiredIds(TimeOutExpired(db, now), now) == {}
    ensures TimeOutExpired(TimeOutExpired(db, now), now) == TimeOutExpired(db, now)
  {
    var once := TimeOutExpired(db, now);
    assert forall id :: id in once.runs ==> !Expired(once.runs[id], now);
  }

  /** Only Running runs are ever reclassified: any other status, and a run that
      started less than six hours ago, is kept */
  lemma TimeoutKeepsOthers(db: Db, id: string, now: Instant)
    requires id in db.runs
    ensures db.runs[id].status != Running ==> TimeOutExpired(db, now).runs[id] == db.runs[id]
    ensures (db.runs[id].startedAt.Some? && db.runs[id].startedAt.value.Parsed?
             && now < db.runs[id].startedAt.value.at + 21_600_000)
            ==> TimeOutExpired(db, now).runs[id] == db.runs[id]
    ensures Expired(db.runs[id], now) ==> TimeOutExpired(db, now).runs[id].status == TimedOut
  {
  }

  /** The stored text of the timeout status */
  lemma TimeoutStatusText()
    ensures StatusText(TimedOut) == "Failed-TimeOut-6Hours"
  {
  }

  /** One more row through the timeout rule */
  lemma TimeOutAmongStep(start: Db, done: set<string>, id: string, now: Instant)
    requires id in start.runs && id !in done && start.runs[id].status == Running
    ensures Expired(start.runs[id], now) ==>
      FinishRunIfRunning(TimeOutAmong(start, done, now), id, TimedOut, now) == TimeOutAmong(start, done + {id}, now)
    ensures !Expired(start.runs[id], now) ==> TimeOutAmong(start, done, now) == TimeOutAmong(start, done + {id}, now)
  {
    var a := TimeOutAmong(start, done, now);
    var b := TimeOutAmong(start, done + {id}, now);
    assert a.runs[id] == start.runs[id];
    if Expired(start.runs[id], now) {
      assert FinishRunIfRunning(a, id, TimedOut, now).runs == b.runs;
    } else {
      assert a.runs == b.runs;
    }
  }

  /** Passing every Running row through the rule is passing every row */
  lemma TimeOutAmongRunning(start: Db, running: set<string>, now: Instant)
    requires forall id :: id in start.runs && start.runs[id].status == Running ==> id in running
    ensures TimeOutAmong(start, running, now) == TimeOutExpired(start, now)
  {
    assert TimeOutAmong(start, running, now).runs == TimeOutExpired(start, now).runs;
  }

  /** markRunTimedOutIfNeeded: `run` is the row as read; the stored UPDATE is
      guarded by Status = 'Running', the returned row is updated whenever the
      read row was expired. */
  method MarkRunTimedOutIfNeeded(store: Store, runId: string, run: PipelineRun, now: Instant) returns (row: PipelineRun)
    modifies store
    ensures row == TimeoutRow(run, now)
    ensures Expired(run, now) ==> store.State() == FinishRunIfRunning(old(store.State()), runId, TimedOut, now)
    ensures !Expired(run, now) ==> store.State() == old(store.State())
  {
    row := run;
    if run.status != Running { return; }
    if run.startedAt.None? { return; }
    if run.startedAt.value.Unparsable? { return; }
    if now < run.startedAt.value.at + RunTimeoutHours * HourMillis { return; }
    store.MarkRunFinishedIfRunning(runId, TimedOut, now);
    row := run.(status := TimedOut, finishedAt := Some(now));
  }

  /** No id occurs twice in the list */
  predicate NoRepeats(ids: seq<string>) {
    forall i, j :: 0 <= i < j < |ids| ==> ids[i] != ids[j]
  }

  /** Appending an id not yet listed keeps the list free of repeats */
  lemma AppendNew(ids: seq<string>, id: string)
    requires NoRepeats(ids) && id !in ids
    ensures NoRepeats(ids + [id])
  {
    forall i, j | 0 <= i < j < |ids + [id]|
      ensures (ids + [id])[i] != (ids + [id])[j]
    {
      if j == |ids| {
        assert (ids + [id])[i] == ids[i];
      }
    }
  }

  /** One pass of checkRunningStatus's loop: the rule applied to one more Running row */
  method CheckOne(store: Store, ghost start: Db, ghost done: set<string>, id: string, run: PipelineRun, now: Instant)
    returns (row: PipelineRun)
    requires store.State() == TimeOutAmong(start, done, now)
    requires id in start.runs && id !in done && start.runs[id].status == Running && run == start.runs[id]
    modifies store
    ensures store.State() == TimeOutAmong(start, done + {id}, now)
    ensures row.status == TimedOut <==> Expired(start.runs[id], now)
  {
    TimeOutAmongStep(start, done, id, now);
    row := MarkRunTimedOutIfNeeded(store, id, run, now);
  }

  /** checkRunningStatus: reads every Running run, applies the timeout rule to
      each, and reports exactly the ids it reclassified, once each. */
  method CheckRunningStatus(store: Store, now: Instant) returns (marked: seq<string>)
    modifies store
    ensures store.State() == TimeOutExpired(old(store.State()), now)
    ensures forall id :: id in marked <==> id in ExpiredIds(old(store.State()), now)
    ensures NoRepeats(marked) && |marked| == |ExpiredIds(old(store.State()), now)|
  {
    ghost var start := store.State();
    var running := set id | id in store.runs && store.runs[id].status == Running;
    var rows := store.runs;
    var remaining := running;
    marked := [];
    ghost var done: set<string> := {};
    while remaining != {}
      invariant done !! remaining && done + remaining == running
      invariant forall x :: x in running ==> x in start.runs && start.runs[x].status == Running && rows[x] == start.runs[x]
      invariant store.State() == TimeOutAmong(start, done, now)
      invariant forall x :: x in marked <==> x in done && Expired(start.runs[x], now)
      invariant NoRepeats(marked)
      decreases remaining
    {
      var id :| id in remaining;
      var row := CheckOne(store, start, done, id, rows[id], now);
      if row.status == TimedOut {
        AppendNew(marked, id);
        marked := marked + [id];
      }
      done := done + {id};
      remaining := remaining - {id};
    }
    TimeOutAmongRunning(start, running, now);
    MarkedAreExpired(start, running, marked, now);
  }

  /** The ids the loop reported are the expired runs, each once */
  lemma MarkedAreExpired(start: Db, running: set<string>, marked: seq<string>, now: Instant)
    requires forall x :: x in start.runs && start.runs[x].status == Running ==> x in running
    requires forall x :: x in marked <==> x in running && x in start.runs && Expired(start.runs[x], now)
    requires NoRepeats(marked)
    ensures forall id :: id in marked <==> id in ExpiredIds(start, now)
    ensures |marked| == |ExpiredIds(start, now)|
  {
    NoRepeatsCount(marked);
    assert (set x | x in marked) == ExpiredIds(start, now);
  }

  /** A list without repeats has as many entries as distinct ids */
  lemma {:induction false} NoRepeatsCount(ids: seq<string>)
    requires NoRepeats(ids)
    ensures |set x | x in ids| == |ids|
  {
    if ids != [] {
      var rest := ids[..|ids| - 1];
      var last := ids[|ids| - 1];
      assert NoRepeats(rest);
      NoRepeatsCount(rest);
      assert ids == rest + [last];
      assert last !in rest;
      assert (set x | x in ids) == (set x | x in rest) + {last};
    }
  }

  // ---- cancellation guard ----

  /** The reply of cancelRun: 404, 400 with the stored status, or success */
  datatype CancelReply = RunNotFound | NotRunning(status: Status) | CancellationRequested

  /** The state the servlet and the orchestrator share: the tables and the registry */
  datatype Shared = Shared(db: Db, cancelled: set<string>)

  function CancelReplyFor(db: Db, runId: string): (r: CancelReply)
    ensures r == RunNotFound <==> runId !in db.runs
    ensures r == CancellationRequested <==> runId in db.runs && db.runs[runId].status == Running
    ensures r.NotRunning? ==> runId in db.runs && r.status == db.runs[runId].status && r.status != Running
  {
    if runId !in db.runs then RunNotFound
    else if db.runs[runId].status != Running then NotRunning(db.runs[runId].status)
    else CancellationRequested
  }

  /** What cancelRun does to the shared state */
  function AfterCancelRequest(w: Shared, runId: string, now: Instant): (r: Shared)
    ensures CancelReplyFor(w.db, runId) != CancellationRequested ==> r == w
    ensures CancelReplyFor(w.db, runId) == CancellationRequested ==>
      r.cancelled == AfterCancel(w.cancelled, Some(runId))
      && runId in r.db.runs && r.db.runs[runId].status == Cancelled && r.db.runs[runId].finishedAt == Some(now)
      && r.db.steps == w.db.steps && r.db.logs == w.db.logs && r.db.runs.Keys == w.db.runs.Keys
      && (forall id :: id in w.db.runs && id != runId ==> r.db.runs[id] == w.db.runs[id])
  {
    if CancelReplyFor(w.db, runId) == CancellationRequested
    then Shared(FinishRunIfRunning(w.db, runId, Cancelled, now), AfterCancel(w.cancelled, Some(runId)))
    else w
  }

  /** A request for a run that is not Running, or unknown, changes nothing; an
      accepted one makes the next request for the same run a 400 "Cancelled" */
  lemma CancelRequestAnswers(w: Shared, runId: string, now: Instant)
    ensures runId !in w.db.runs ==> CancelReplyFor(w.db, runId) == RunNotFound && AfterCancelRequest(w, runId, now) == w
    ensures CancelReplyFor(w.db, runId) == CancellationRequested ==>
      CancelReplyFor(AfterCancelRequest(w, runId, now).db, runId) == NotRunning(Cancelled)
    ensures CancelReplyFor(w.db, runId) == CancellationRequested && runId != [] ==>
      runId in AfterCancelRequest(w, runId, now).cancelled
  {
  }

  /** cancelRun */
  method CancelRun(store: Store, registry: Registry, runId: string, now: Instant) returns (reply: CancelReply)
    modifies store, registry
    ensures reply == CancelReplyFor(old(store.State()), runId)
    ensures Shared(store.State(), registry.ids) == AfterCancelRequest(Shared(old(store.State()), old(registry.ids)), runId, now)
  {
    if runId !in store.runs {
      return RunNotFound;
    }
    var status := store.runs[runId].status;
    if status != Running {
      return NotRunning(status);
    }
    registry.Cancel(Some(runId));
    store.MarkRunFinishedIfRunning(runId, Cancelled, now);
    reply := CancellationRequested;
  }

  // ---- request helpers ----

  function Min(a: int, b: int): int {
    if a <= b then a else b
  }

  /** allLogs' `limit`: 500 by default and when unparsable, otherwise the value capped at 2000 */
  function LogLimit(param: Option<string>): (r: int)
    ensures r <= 2000
    ensures param.None? ==> r == 500
    ensures param.Some? && ParseInt(param.value).None? ==> r == 500
    ensures param.Some? && ParseInt(param.value).Some? ==>
      r <= ParseInt(param.value).value && (r == ParseInt(param.value).value || r == 2000)
  {
    match param
    case None => 500
    case Some(p) =>
      match ParseInt(p)
      case None => 500
      case Some(v) => Min(v, 2000)
  }

  /** The cap applies only from above: a large request is cut to 2000, a small or
      negative one passes through unchanged */
  lemma LogLimitExamples()
    ensures LogLimit(Some("5000")) == 2000
    ensures LogLimit(Some("-1")) == -1
    ensures LogLimit(Some("abc")) == 500
  {
    assert DigitsValue("5000") == 5000 by {
      assert "5000"[..3] == "500" && "500"[..2] == "50" && "50"[..1] == "5";
    }
    assert "-1"[1..] == "1" && DigitsValue("1") == 1;
  }

  /** The replacement of each occurrence of `c` by `rep` (String.replace with a one-char target) */
  function ReplaceChar(s: string, c: char, rep: string): string {
    if s == [] then [] else (if s[0] == c then rep else [s[0]]) + ReplaceChar(s[1..], c, rep)
  }

  /** The four replacements of escapeJson: backslashes first, then quotes, line
      feeds and carriage returns */
  function EscapePasses(t: string): string {
    ReplaceChar(ReplaceChar(ReplaceChar(ReplaceChar(t, '\\', "\\\\"), '"', "\\\""), '\n', "\\n"), '\r', "\\r")
  }

  /** escapeJson: "" for null, otherwise every character escaped on its own, so
      the text holds no raw line break and every quote in it is escaped */
  function EscapeJson(s: Option<string>): (r: string)
    ensures s.None? ==> r == ""
    ensures s.Some? ==> r == EscapeEach(s.value)
  {
    match s
    case None => ""
    case Some(t) => EscapeJsonIsPerChar(t); EscapePasses(t)
  }

  /** The escape of one character */
  function EscapeChar(c: char): (r: string)
    ensures SafeJsonText(r)
  {
    if c == '\\' then "\\\\"
    else if c == '"' then "\\\""
    else if c == '\n' then "\\n"
    else if c == '\r' then "\\r"
    else [c]
  }

  /** No raw line break, every quote after a backslash, and no quote first */
  predicate SafeJsonText(r: string) {
    && (forall i :: 0 <= i < |r| ==> r[i] != '\n' && r[i] != '\r')
    && (forall i :: 0 <= i < |r| && r[i] == '"' ==> i > 0 && r[i - 1] == '\\')
    && (r != [] ==> r[0] != '"')
  }

  /** Two such texts side by side are one */
  lemma SafeJsonConcat(a: string, b: string)
    requires SafeJsonText(a) && SafeJsonText(b)
    ensures SafeJsonText(a + b)
  {
    forall i | 0 <= i < |a + b| && (a + b)[i] == '"'
      ensures i > 0 && (a + b)[i - 1] == '\\'
    {
      if i > |a| {
        assert (a + b)[i] == b[i - |a|] && (a + b)[i - 1] == b[i - 1 - |a|];
      }
    }
  }

  /** Every character escaped on its own: no raw line break remains, and every
      quote follows a backslash */
  function EscapeEach(s: string): (r: string)
    ensures SafeJsonText(r)
  {
    if s == [] then []
    else
      SafeJsonConcat(EscapeChar(s[0]), EscapeEach(s[1..]));
      EscapeChar(s[0]) + EscapeEach(s[1..])
  }

  /** The reading of the four escapes back */
  function Unescape(t: string): string {
    if |t| >= 2 && t[0] == '\\' then
      [if t[1] == 'n' then '\n' else if t[1] == 'r' then '\r' else t[1]] + Unescape(t[2..])
    else if t == [] then []
    else [t[0]] + Unescape(t[1..])
  }

  lemma {:induction false} ReplaceAppend(a: string, b: string, c: char, rep: string)
    ensures ReplaceChar(a + b, c, rep) == ReplaceChar(a, c, rep) + ReplaceChar(b, c, rep)
    decreases |a|
  {
    if a == [] {
      assert a + b == b;
    } else {
      assert (a + b)[0] == a[0];
      assert (a + b)[1..] == a[1..] + b;
      ReplaceAppend(a[1..], b, c, rep);
    }
  }

  /** The four sequential replacements escape each character independently: the
      backslashes a later pass inserts are never escaped again */
  lemma {:induction false} EscapeJsonIsPerChar(s: string)
    ensures EscapePasses(s) == EscapeEach(s)
    decreases |s|
  {
    if s != [] {
      var c := s[0];
      assert s == [c] + s[1..];
      ReplaceAppend([c], s[1..], '\\', "\\\\");
      var a1 := ReplaceChar([c], '\\', "\\\\");
      var b1 := ReplaceChar(s[1..], '\\', "\\\\");
      ReplaceAppend(a1, b1, '"', "\\\"");
      var a2 := ReplaceChar(a1, '"', "\\\"");
      var b2 := ReplaceChar(b1, '"', "\\\"");
      ReplaceAppend(a2, b2, '\n', "\\n");
      var a3 := ReplaceChar(a2, '\n', "\\n");
      var b3 := ReplaceChar(b2, '\n', "\\n");
      ReplaceAppend(a3, b3, '\r', "\\r");
      OneCharEscape(c);
      EscapeJsonIsPerChar(s[1..]);
    }
  }

  lemma OneCharEscape(c: char)
    ensures EscapePasses([c]) == EscapeChar(c)
  {
    assert [c][1..] == [];
    if c == '\\' {
      var bs := "\\\\";
      assert ReplaceChar([c], '\\', "\\\\") == bs;
      assert bs[1..] == "\\" && "\\"[1..] == [];
      assert ReplaceChar(bs, '"', "\\\"") == bs;
      assert ReplaceChar(bs, '\n', "\\n") == bs;
      assert ReplaceChar(bs, '\r', "\\r") == bs;
    } else if c == '"' {
      var q := "\\\"";
      assert ReplaceChar([c], '\\', "\\\\") == [c];
      assert ReplaceChar([c], '"', "\\\"") == q;
      assert q[1..] == "\"" && "\""[1..] == [];
      assert ReplaceChar(q, '\n', "\\n") == q;
      assert ReplaceChar(q, '\r', "\\r") == q;
    } else if c == '\n' {
      var n := "\\n";
      assert ReplaceChar([c], '\n', "\\n") == n;
      assert n[1..] == "n" && "n"[1..] == [];
      assert ReplaceChar(n, '\r', "\\r") == n;
    } else if c == '\r' {
      assert "\\r"[1..] == "r";
    }
  }

  /** Reading the escaped text back gives the original string */
  lemma {:induction false} EscapeRoundTrip(s: string)
    ensures Unescape(EscapeJson(Some(s))) == s
  {
    UnescapeEach(s);
  }

  lemma {:induction false} UnescapeEach(s: string)
    ensures Unescape(EscapeEach(s)) == s
    decreases |s|
  {
    if s != [] {
      UnescapeOne(s[0], EscapeEach(s[1..]));
      UnescapeEach(s[1..]);
      assert s == [s[0]] + s[1..];
    }
  }

  /** One escaped character reads back as itself, whatever follows it */
  lemma UnescapeOne(c: char, rest: string)
    ensures Unescape(EscapeChar(c) + rest) == [c] + Unescape(rest)
  {
    var t := EscapeChar(c) + rest;
    if c == '\\' || c == '"' || c == '\n' || c == '\r' {
      assert t[2..] == rest;
    } else {
      assert t[1..] == rest;
    }
  }

  /** Replacing quotes before backslashes would double the backslash put in front of a quote */
  lemma EscapeOrderMatters()
    ensures EscapeJson(Some("\"")) == "\\\""
    ensures ReplaceChar(ReplaceChar("\"", '"', "\\\""), '\\', "\\\\") == "\\\\\""
    ensures EscapeJson(None) == ""
  {
    EscapeJsonIsPerChar("\"");
    assert "\""[1..] == [];
    assert ReplaceChar("\"", '"', "\\\"") == "\\\"";
    assert "\\\""[1..] == "\"";
  }

  /** A JSON body value as Gson's untyped decoding yields it; `JOther` carries
      the toString of a list or object */
  datatype JsonValue = JNull | JNumber(x: real) | JBool(b: bool) | JString(s: string) | JOther(text: string)

  /** Double.intValue: toward zero, saturated at the int range */
  function DoubleToInt(x: real): (r: Int32)
    ensures x >= 0.0 ==> 0 <= r && r as real <= x && (x < IntMax as real ==> x < r as real + 1.0)
    ensures x < 0.0 ==> r <= 0 && x <= r as real && (x > IntMin as real ==> r as real - 1.0 < x)
    ensures x == x.Floor as real && IntMin as real <= x <= IntMax as real ==> r == x.Floor
  {
    var t: int := if x >= 0.0 then x.Floor else -((-x).Floor);
    if t > IntMax then IntMax else if t < IntMin then IntMin else t
  }

  /** getInt: a number is converted, anything else goes through Integer.parseInt of its text */
  function GetInt(v: Option<JsonValue>): (r: Option<Int32>)
    ensures v.None? || v == Some(JNull) ==> r.None?
    ensures (v.Some? && v.value.JNumber?) ==> r == Some(DoubleToInt(v.value.x))
    ensures (v.Some? && v.value.JString?) ==> r == ParseInt(v.value.s)
    ensures (v.Some? && v.value.JBool?) ==> r.None?
  {
    match v
    case None => None
    case Some(j) =>
      match j
      case JNull => None
      case JNumber(x) => Some(DoubleToInt(x))
      case JBool(b) =>
        assert ParseInt(if b then "true" else "false").None? by {
          assert !('0' <= "true"[0] <= '9') && !('0' <= "false"[0] <= '9');
          assert "true"[0] != '-' && "false"[0] != '-' && "true"[0] != '+' && "false"[0] != '+';
        }
        ParseInt(if b then "true" else "false")
      case JString(s) => ParseInt(s)
      case JOther(text) => ParseInt(text)
  }

  /** getBool: a boolean as is, anything else true exactly when its text is "true" ignoring case */
  function GetBool(v: Option<JsonValue>): (r: Option<bool>)
    ensures v.None? || v == Some(JNull) ==> r.None?
    ensures (v.Some? && v.value.JBool?) ==> r == Some(v.value.b)
    ensures (v.Some? && v.value.JString?) ==> r == Some(EqualsIgnoreCase(v.value.s, "true"))
    ensures (v.Some? && v.value.JNumber?) ==> r == Some(false)
  {
    match v
    case None => None
    case Some(j) =>
      match j
      case JNull => None
      case JBool(b) => Some(b)
      case JNumber(_) => Some(false)
      case JString(s) => Some(EqualsIgnoreCase(s, "true"))
      case JOther(text) => Some(EqualsIgnoreCase(text, "true"))
  }

  /** A string body field "TRUE" enables, "yes" does not */
  lemma GetBoolExamples()
    ensures GetBool(Some(JString("TRUE"))) == Some(true)
    ensures GetBool(Some(JString("yes"))) == Some(false)
  {
    assert ToLower("TRUE") == "true";
    assert ToLower("yes") == "yes";
  }

  /** A JSON number 7.9 becomes 7, a huge one saturates */
  lemma GetIntExamples()
    ensures GetInt(Some(JNumber(7.9))) == Some(7)
    ensures GetInt(Some(JNumber(-7.9))) == Some(-7)
    ensures GetInt(Some(JNumber(1e12 as real))) == Some(IntMax)
  {
  }

  // ---- trigger overrides ----

  /** The trigger request uses its connection fields only when a host, a port or a user is given */
  predicate UseOverrides(host: Option<string>, port: Option<Int32>, user: Option<string>) {
    (host.Some? && host.value != []) || port.Some? || (user.Some? && user.value != [])
  }

  /** The overrides triggerPipeline passes on: all four, or none at all */
  function TriggerOverrides(host: Option<string>, port: Option<Int32>, user: Option<string>, password: Option<string>): (o: Overrides)
    ensures UseOverrides(host, port, user) ==> o == Overrides(host, port, user, password)
    ensures !UseOverrides(host, port, user) ==> o == NoOverrides
  {
    if UseOverrides(host, port, user) then Overrides(host, port, user, password) else NoOverrides
  }

  /** A password given without host, port or user is dropped and the run uses the
      configured connection; a given (trimmed) host is the one connected to */
  lemma TriggerOverrideEffect(settings: Settings, host: Option<string>, port: Option<Int32>, user: Option<string>,
                              password: Option<string>, env: Env)
    ensures !UseOverrides(host, port, user) ==>
      settings.Connect(TriggerOverrides(host, port, user, password), env) == settings.DefaultTarget(env)
    ensures host.Some? && host.value != [] && Trim(host.value) == host.value ==>
      settings.Connect(TriggerOverrides(host, port, user, password), env).host == host.value
    ensures UseOverrides(host, port, user) && password.Some? ==>
      settings.Connect(TriggerOverrides(host, port, user, password), env).password == password.value
  {
    settings.OverrideResolution(TriggerOverrides(host, port, user, password), env);
  }
}
