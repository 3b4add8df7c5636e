/** Connection settings and schema initialisation: the setter-then-environment-
    then-default precedence of each setting, the resolution of per-request
    overrides, the RunNumber backfill, and the batch loop that tolerates
    "already exists" and "duplicate key" errors. */
module Database {
  import opened Wrappers
  import opened JavaLang
  import opened Store

  const DefaultHost := "localhost"
  const DefaultPort := 1433
  const DefaultUser := "sa"
  const DefaultDatabase := "pipeline"
  const DefaultLandingDir := "data/landing"

  /** The process environment as a map from variable name to value */
  type Env = map<string, string>

  /** The value of a setting: the one set explicitly, else the environment's, else the default */
  function Setting(explicit: Option<string>, env: Env, name: string, default: string): (r: string)
    ensures explicit.Some? ==> r == explicit.value
    ensures explicit.None? && name in env ==> r == env[name]
    ensures explicit.None? && name !in env ==> r == default
  {
    match explicit
    case Some(v) => v
    case None => if name in env then env[name] else default
  }

  /** The static settings with their setters */
  class Settings {
    var host: Option<string>
    var port: Option<Int32>
    var user: Option<string>
    var password: Option<string>
    var databaseName: Option<string>
    var landingDir: Option<string>

    constructor()
      ensures host.None? && port.None? && user.None? && password.None? && databaseName.None? && landingDir.None?
    {
      host, port, user, password, databaseName, landingDir := None, None, None, None, None, None;
    }

    function Host(env: Env): string reads this { Setting(host, env, "DB_HOST", DefaultHost) }
    function User(env: Env): string reads this { Setting(user, env, "DB_USER", DefaultUser) }
    function Password(env: Env): string reads this { Setting(password, env, "DB_PASSWORD", "") }
    function DatabaseName(env: Env): string reads this { Setting(databaseName, env, "DB_NAME", DefaultDatabase) }
    function LandingDir(env: Env): string reads this { Setting(landingDir, env, "LANDING_DATA_DIR", DefaultLandingDir) }

    /** getPort: the set port, else the trimmed DB_PORT when it parses, else 1433 */
    function Port(env: Env): (r: Int32)
      reads this
      ensures port.Some? ==> r == port.value
      ensures port.None? && "DB_PORT" in env && ParseInt(Trim(env["DB_PORT"])).Some? ==> r == ParseInt(Trim(env["DB_PORT"])).value
      ensures port.None? && ("DB_PORT" !in env || ParseInt(Trim(env["DB_PORT"])).None?) ==> r == DefaultPort
    {
      if port.Some? then port.value
      else if "DB_PORT" in env then ParseInt(Trim(env["DB_PORT"])).GetOr(DefaultPort)
      else DefaultPort
    }

    /** The setters; passing null clears a setting back to the environment */
    method SetHost(h: Option<string>)
      modifies this
      ensures host == h && port == old(port) && user == old(user) && password == old(password)
      ensures databaseName == old(databaseName) && landingDir == old(landingDir)
    {
      host := h;
    }

    method SetPort(p: Int32)
      modifies this
      ensures port == Some(p) && host == old(host) && user == old(user) && password == old(password)
      ensures databaseName == old(databaseName) && landingDir == old(landingDir)
    {
      port := Some(p);
    }

    method SetUser(u: Option<string>)
      modifies this
      ensures user == u && host == old(host) && port == old(port) && password == old(password)
      ensures databaseName == old(databaseName) && landingDir == old(landingDir)
    {
      user := u;
    }

    method SetPassword(p: Option<string>)
      modifies this
      ensures password == p && host == old(host) && port == old(port) && user == old(user)
      ensures databaseName == old(databaseName) && landingDir == old(landingDir)
    {
      password := p;
    }

    method SetDatabaseName(d: Option<string>)
      modifies this
      ensures databaseName == d && host == old(host) && port == old(port) && user == old(user)
      ensures password == old(password) && landingDir == old(landingDir)
    {
      databaseName := d;
    }

    method SetLandingDir(d: Option<string>)
      modifies this
      ensures landingDir == d && host == old(host) && port == old(port) && user == old(user)
      ensures password == old(password) && databaseName == old(databaseName)
    {
      landingDir := d;
    }

    /** The server, credentials and database getConnection() uses */
    function DefaultTarget(env: Env): Target reads this {
      Target(Host(env), Port(env), User(env), Password(env), DatabaseName(env))
    }

    /** The target of getConnection(hostOverride, portOverride, userOverride, passwordOverride) */
    function Resolve(o: Overrides, env: Env): (t: Target)
      reads this
      ensures o.host.Some? && Trim(o.host.value) != [] ==> t.host == Trim(o.host.value)
      ensures (o.host.None? || Trim(o.host.value) == []) ==> t.host == Host(env)
      ensures o.port.Some? ==> t.port == o.port.value
      ensures o.port.None? ==> t.port == Port(env)
      ensures o.user.Some? && Trim(o.user.value) != [] ==> t.user == Trim(o.user.value)
      ensures (o.user.None? || Trim(o.user.value) == []) ==> t.user == User(env)
      ensures o.password.Some? ==> t.password == o.password.value
      ensures o.password.None? ==> t.password == Password(env)
      ensures t.database == DatabaseName(env)
    {
      Target(
        if o.host.Some? && Trim(o.host.value) != [] then Trim(o.host.value) else Host(env),
        if o.port.Some? then o.port.value else Port(env),
        if o.user.Some? && Trim(o.user.value) != [] then Trim(o.user.value) else User(env),
        if o.password.Some? then o.password.value else Password(env),
        DatabaseName(env))
    }

    /** The target of the connection a caller opens with these overrides: the
        default connection when all four are null, getConnection with the
        overrides otherwise */
    function Connect(o: Overrides, env: Env): Target reads this {
      if AnyOverride(o) then Resolve(o, env) else DefaultTarget(env)
    }

    /** With no override set, both kinds of connection reach the same target, so
        choosing the default connection then changes nothing; a blank host still
        falls back while an empty password is still used */
    lemma OverrideResolution(o: Overrides, env: Env)
      ensures !AnyOverride(o) ==> Resolve(o, env) == DefaultTarget(env)
      ensures Connect(o, env) == Resolve(o, env)
      ensures o == Overrides(Some("  "), None, None, Some("")) ==>
        Connect(o, env).host == Host(env) && Connect(o, env).password == ""
    {
      if o == Overrides(Some("  "), None, None, Some("")) {
        assert Trim("  ") == [] by {
          TrimEmptyIffBlank("  ");
        }
      }
    }
  }

  /** The four per-request overrides; None is Java's null */
  datatype Overrides = Overrides(host: Option<string>, port: Option<Int32>, user: Option<string>, password: Option<string>)

  const NoOverrides := Overrides(None, None, None, None)

  predicate AnyOverride(o: Overrides) {
    o.host.Some? || o.port.Some? || o.user.Some? || o.password.Some?
  }

  datatype Target = Target(host: string, port: int, user: string, password: string, database: string)

  // ---- RunNumber backfill ----

  /** The ids of all runs, each once, oldest CreatedAt first: the order of
      `SELECT RunId ... ORDER BY CreatedAt ASC` */
  predicate CreationOrder(runs: map<string, PipelineRun>, order: seq<string>) {
    DistinctRuns(runs, order)
    && (forall id :: id in runs ==> id in order)
    && (forall i, j :: 0 <= i < j < |order| ==> runs[order[i]].createdAt <= runs[order[j]].createdAt)
  }

  /** Every id of `order` is a run, and no id appears twice */
  predicate DistinctRuns(runs: map<string, PipelineRun>, order: seq<string>) {
    (forall i :: 0 <= i < |order| ==> order[i] in runs)
    && (forall i, j :: 0 <= i < j < |order| ==> order[i] != order[j])
  }

  /** The first n ids of `order` numbered 1..n, every other field and row kept */
  function BackfilledUpTo(db: Db, order: seq<string>, n: nat): (r: Db)
    requires n <= |order|
    requires DistinctRuns(db.runs, order)
    ensures r.steps == db.steps && r.logs == db.logs && r.runs.Keys == db.runs.Keys
    decreases n
  {
    if n == 0 then db
    else
      var prev := BackfilledUpTo(db, order, n - 1);
      prev.(runs := prev.runs[order[n - 1] := db.runs[order[n - 1]].(runNumber := n)])
  }

  /** The i-th id of `order` holds number i + 1 once the first n > i are numbered */
  lemma {:induction false} BackfilledAt(db: Db, order: seq<string>, n: nat, i: nat)
    requires i < n <= |order|
    requires DistinctRuns(db.runs, order)
    ensures BackfilledUpTo(db, order, n).runs[order[i]] == db.runs[order[i]].(runNumber := i + 1)
  {
    if i < n - 1 {
      BackfilledAt(db, order, n - 1, i);
      assert order[i] != order[n - 1];
    }
  }

  /** Numbering one more id of `order` updates only that run */
  lemma BackfillOneMore(db: Db, order: seq<string>, n: nat)
    requires 0 < n <= |order|
    requires DistinctRuns(db.runs, order)
    ensures var prev := BackfilledUpTo(db, order, n - 1);
      BackfilledUpTo(db, order, n) == prev.(runs := prev.runs[order[n - 1] := db.runs[order[n - 1]].(runNumber := n)])
  {
  }

  /** Numbers 1..|order| assigned along `order` */
  function Backfilled(db: Db, order: seq<string>): Db
    requires CreationOrder(db.runs, order)
  {
    BackfilledUpTo(db, order, |order|)
  }

  /** The backfill loop of initSchema */
  method BackfillRunNumbers(store: Store, order: seq<string>)
    requires DistinctRuns(store.runs, order)
    modifies store
    ensures store.State() == BackfilledUpTo(old(store.State()), order, |order|)
  {
    ghost var start := store.State();
    var rows := store.runs;
    var i := 1;
    while i <= |order|
      invariant 1 <= i <= |order| + 1
      invariant store.State() == BackfilledUpTo(start, order, i - 1)
      invariant rows == start.runs
    {
      store.InsertRun(order[i - 1], rows[order[i - 1]].(runNumber := i));
      BackfillOneMore(start, order, i);
      i := i + 1;
    }
  }

  /** After the backfill the run numbers are 1..n: the k-th oldest run holds k */
  lemma BackfillRange(db: Db, order: seq<string>)
    requires CreationOrder(db.runs, order)
    ensures forall id :: id in db.runs ==> 1 <= Backfilled(db, order).runs[id].runNumber <= |order|
    ensures forall i :: 0 <= i < |order| ==> Backfilled(db, order).runs[order[i]].runNumber == i + 1
  {
    var r := Backfilled(db, order);
    forall i | 0 <= i < |order|
      ensures r.runs[order[i]].runNumber == i + 1
    {
      BackfilledAt(db, order, |order|, i);
    }
    forall id | id in db.runs
      ensures 1 <= r.runs[id].runNumber <= |order|
    {
      var i :| 0 <= i < |order| && order[i] == id;
    }
  }

  /** No two runs share a number after the backfill */
  lemma BackfillDistinct(db: Db, order: seq<string>)
    requires CreationOrder(db.runs, order)
    ensures forall a, b :: a in db.runs && b in db.runs && a != b ==>
      Backfilled(db, order).runs[a].runNumber != Backfilled(db, order).runs[b].runNumber
  {
    var r := Backfilled(db, order);
    forall a, b | a in db.runs && b in db.runs && a != b
      ensures r.runs[a].runNumber != r.runs[b].runNumber
    {
      var i :| 0 <= i < |order| && order[i] == a;
      var j :| 0 <= j < |order| && order[j] == b;
      BackfilledAt(db, order, |order|, i);
      BackfilledAt(db, order, |order|, j);
    }
  }

  lemma EarlierIndex(runs: map<string, PipelineRun>, order: seq<string>, i: int, j: int)
    requires CreationOrder(runs, order)
    requires 0 <= i < |order| && 0 <= j < |order|
    requires runs[order[i]].createdAt < runs[order[j]].createdAt
    ensures i < j
  {
  }

  /** A run created earlier gets a smaller number */
  lemma BackfillFollowsCreation(db: Db, order: seq<string>)
    requires CreationOrder(db.runs, order)
    ensures forall a, b :: a in db.runs && b in db.runs && db.runs[a].createdAt < db.runs[b].createdAt ==>
      Backfilled(db, order).runs[a].runNumber < Backfilled(db, order).runs[b].runNumber
  {
    var r := Backfilled(db, order);
    forall a, b | a in db.runs && b in db.runs && db.runs[a].createdAt < db.runs[b].createdAt
      ensures r.runs[a].runNumber < r.runs[b].runNumber
    {
      var i :| 0 <= i < |order| && order[i] == a;
      var j :| 0 <= j < |order| && order[j] == b;
      EarlierIndex(db.runs, order, i, j);
      BackfilledAt(db, order, |order|, i);
      BackfilledAt(db, order, |order|, j);
    }
  }

  // ---- schema batches ----

  /** What the server answers to one batch; an error's message may be null */
  datatype BatchResult = Executed | BatchError(message: Option<string>)

  datatype SchemaOutcome =
    | SchemaOk
    | SchemaMissing                  // the SQLException thrown before any connection
    | SchemaRejected(message: string) // an error that is neither "already exists" nor "duplicate key"
    | SchemaCrashed                  // an error without message: `getMessage().contains` throws

  const SchemaMissingMessage := "sqlserver_schema.sql not found on classpath (tried /sqlserver_schema.sql and sqlserver_schema.sql)"

  /** An error a re-run of the schema is expected to raise */
  predicate Tolerated(message: string) {
    Contains(message, "already exists") || Contains(message, "duplicate key")
  }

  /** A batch that does not stop the loop: blank, run, or failed with a tolerated message */
  predicate BatchPasses(batch: string, result: BatchResult) {
    Trim(batch) == [] || result.Executed? || (result.message.Some? && Tolerated(result.message.value))
  }

  /** The outcome of running `batches` in order, where `results[i]` is the server's
      answer to batch i; blank batches are never sent and the first error that is
      not tolerated stops the loop */
  function BatchesOutcome(batches: seq<string>, results: seq<BatchResult>): (r: SchemaOutcome)
    requires |results| == |batches|
    ensures r != SchemaMissing
    decreases |batches|
  {
    if batches == [] then SchemaOk
    else if BatchPasses(batches[0], results[0]) then BatchesOutcome(batches[1..], results[1..])
    else if results[0].message.None? then SchemaCrashed
    else SchemaRejected(results[0].message.value)
  }

  /** The trimmed batches sent to the server, up to and including the one that stops the loop */
  function BatchesSent(batches: seq<string>, results: seq<BatchResult>): (r: seq<string>)
    requires |results| == |batches|
    ensures |r| <= |batches|
    decreases |batches|
  {
    if batches == [] then []
    else if Trim(batches[0]) == [] then BatchesSent(batches[1..], results[1..])
    else [Trim(batches[0])] + (if BatchPasses(batches[0], results[0]) then BatchesSent(batches[1..], results[1..]) else [])
  }

  /** Every batch sent is trimmed and not blank */
  lemma {:induction false} SentAreTrimmed(batches: seq<string>, results: seq<BatchResult>)
    requires |results| == |batches|
    ensures forall i :: 0 <= i < |BatchesSent(batches, results)| ==>
      Trim(BatchesSent(batches, results)[i]) == BatchesSent(batches, results)[i] && BatchesSent(batches, results)[i] != []
    decreases |batches|
  {
    if batches != [] {
      SentAreTrimmed(batches[1..], results[1..]);
      if Trim(batches[0]) != [] {
        TrimIdempotent(batches[0]);
      }
    }
  }

  /** One batch of the loop: the outcome and the sent batches of a suffix in terms of
      those of the next suffix */
  lemma BatchStep(batches: seq<string>, results: seq<BatchResult>, i: int)
    requires |results| == |batches| && 0 <= i < |batches|
    ensures BatchPasses(batches[i], results[i]) ==>
      BatchesOutcome(batches[i..], results[i..]) == BatchesOutcome(batches[i + 1..], results[i + 1..])
    ensures !BatchPasses(batches[i], results[i]) ==>
      BatchesOutcome(batches[i..], results[i..])
      == (if results[i].message.None? then SchemaCrashed else SchemaRejected(results[i].message.value))
    ensures Trim(batches[i]) == [] ==> BatchesSent(batches[i..], results[i..]) == BatchesSent(batches[i + 1..], results[i + 1..])
    ensures Trim(batches[i]) != [] && BatchPasses(batches[i], results[i]) ==>
      BatchesSent(batches[i..], results[i..]) == [Trim(batches[i])] + BatchesSent(batches[i + 1..], results[i + 1..])
    ensures !BatchPasses(batches[i], results[i]) ==> BatchesSent(batches[i..], results[i..]) == [Trim(batches[i])]
  {
    assert batches[i..][0] == batches[i] && results[i..][0] == results[i];
    assert batches[i..][1..] == batches[i + 1..] && results[i..][1..] == results[i + 1..];
  }

  lemma {:induction false} OkFrom(batches: seq<string>, results: seq<BatchResult>, i: int)
    requires |results| == |batches| && 0 <= i <= |batches|
    ensures BatchesOutcome(batches[i..], results[i..]) == SchemaOk <==>
      forall k :: i <= k < |batches| ==> BatchPasses(batches[k], results[k])
    decreases |batches| - i
  {
    if i < |batches| {
      BatchStep(batches, results, i);
      OkFrom(batches, results, i + 1);
    }
  }

  /** The schema is accepted exactly when every batch passes */
  lemma BatchesOkIff(batches: seq<string>, results: seq<BatchResult>)
    requires |results| == |batches|
    ensures BatchesOutcome(batches, results) == SchemaOk <==>
      forall i :: 0 <= i < |batches| ==> BatchPasses(batches[i], results[i])
  {
    OkFrom(batches, results, 0);
    assert batches[0..] == batches && results[0..] == results;
  }

  /** The schema loop of initSchema; `results` stands for the server's answers */
  method RunSchemaBatches(batches: seq<string>, results: seq<BatchResult>) returns (outcome: SchemaOutcome, sent: seq<string>)
    requires |results| == |batches|
    ensures outcome == BatchesOutcome(batches, results)
    ensures sent == BatchesSent(batches, results)
  {
    sent := [];
    var i := 0;
    while i < |batches|
      invariant 0 <= i <= |batches|
      invariant BatchesOutcome(batches, results) == BatchesOutcome(batches[i..], results[i..])
      invariant BatchesSent(batches, results) == sent + BatchesSent(batches[i..], results[i..])
    {
      BatchStep(batches, results, i);
      var s := Trim(batches[i]);
      if s != [] {
        sent := sent + [s];
        var r := results[i];
        if r.BatchError? && r.message.None? {
          assert !BatchPasses(batches[i], r);
          return SchemaCrashed, sent;
        }
        if r.BatchError? && !Tolerated(r.message.value) {
          assert !BatchPasses(batches[i], r);
          return SchemaRejected(r.message.value), sent;
        }
        assert BatchPasses(batches[i], r);
      }
      i := i + 1;
    }
    outcome := SchemaOk;
  }

  /** initSchema over the modelled tables: a missing schema fails before anything
      is touched; otherwise the RunNumber backfill runs when the column is
      missing, then the batches. The DDL itself is not modelled. */
  method InitSchema(store: Store, schema: Option<seq<string>>, runNumberMissing: bool, order: seq<string>,
                    results: seq<BatchResult>) returns (outcome: SchemaOutcome)
    requires CreationOrder(store.runs, order)
    requires schema.Some? ==> |results| == |schema.value|
    modifies store
    ensures schema.None? ==> outcome == SchemaMissing && store.State() == old(store.State())
    ensures schema.Some? ==> outcome == BatchesOutcome(schema.value, results)
    ensures schema.Some? && runNumberMissing ==> store.State() == Backfilled(old(store.State()), order)
    ensures schema.Some? && !runNumberMissing ==> store.State() == old(store.State())
  {
    if schema.None? {
      return SchemaMissing;
    }
    if runNumberMissing {
      BackfillRunNumbers(store, order);
    }
    var sent;
    outcome, sent := RunSchemaBatches(schema.value, results);
  }

  /** A re-run over an existing schema that only reports existing objects succeeds;
      any other message stops it */
  lemma SchemaExamples()
    ensures Tolerated("There is already an object named 'PipelineRuns' in the database. It already exists")
  {
    var m := "There is already an object named 'PipelineRuns' in the database. It already exists";
    TolerantSuffix(m, "already exists");
  }

  /** A blank batch is skipped; a batch error whose message is not tolerated stops the schema set-up */
  lemma SchemaRejectedExample()
    ensures BatchesOutcome(["  ", "CREATE TABLE t"], [BatchError(Some("boom")), BatchError(Some("boom"))]) == SchemaRejected("boom")
  {
    assert Trim("  ") == [] by { TrimEmptyIffBlank("  "); }
    assert Trim("CREATE TABLE t") == "CREATE TABLE t";
    assert !Tolerated("boom") by {
      assert !Contains("boom", "already exists") by { ShortNoContains("boom", "already exists"); }
      assert !Contains("boom", "duplicate key") by { ShortNoContains("boom", "duplicate key"); }
    }
    assert ["  ", "CREATE TABLE t"][1..] == ["CREATE TABLE t"];
  }

  /** A batch error without a message is not an SQL error the schema code handles */
  lemma SchemaCrashedExample()
    ensures BatchesOutcome(["CREATE TABLE t"], [BatchError(None)]) == SchemaCrashed
  {
    assert TrimStart("CREATE TABLE t") == "CREATE TABLE t";
    assert TrimEnd("CREATE TABLE t") == "CREATE TABLE t";
    assert !BatchPasses("CREATE TABLE t", BatchError(None));
  }

  lemma {:induction false} TolerantSuffix(s: string, t: string)
    requires |t| <= |s| && s[|s| - |t|..] == t
    ensures Contains(s, t)
    decreases |s|
  {
    if |s| == |t| {
      assert s == t;
    } else {
      assert s[1..][|s[1..]| - |t|..] == t;
      TolerantSuffix(s[1..], t);
    }
  }

  lemma {:induction false} ShortNoContains(s: string, t: string)
    requires |s| < |t|
    ensures !Contains(s, t)
    decreases |s|
  {
    if s != [] {
      ShortNoContains(s[1..], t);
    }
  }
}
