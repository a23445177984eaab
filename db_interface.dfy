/** The database facade (apps/server/src/dal/db-interface.ts): the rewrite of
    `?` placeholders into PostgreSQL's `$N` form, the choice of backend from
    the loaded configuration, the PostgreSQL pool settings, and the two
    wrappers' statement operations. SQL is never executed here: what a
    wrapper hands to its driver is recorded in a log, and the driver's replies
    are inputs. */
module DbInterface {
  import opened Wrappers
  import opened Decimal
  import opened Config

  // ---------------------------------------------------------------------
  // Placeholder rewrite

  /** Number of occurrences of `c` in `s`. */
  function Occurrences(s: string, c: char): nat
  {
    if s == [] then 0 else Occurrences(s[..|s| - 1], c) + (if s[|s| - 1] == c then 1 else 0)
  }

  /** Number of `?` markers in `s`. */
  function CountMarks(s: string): nat {
    Occurrences(s, '?')
  }

  /** The PostgreSQL positional marker for the `k`-th parameter. */
  function Marker(k: nat): string {
    "$" + Dec(k)
  }

  /** What a character `c` preceded by the text `before` turns into: a `?`
      becomes the marker numbered one more than the `?`s before it, anything
      else stays. */
  function Piece(before: string, c: char): string
  {
    if c == '?' then Marker(CountMarks(before) + 1) else [c]
  }

  /** The rewritten text, defined as the source computes it: every match of
      `?` is replaced by a marker numbered by recounting the prefix before it.
      Quoting is ignored, so a `?` inside a string literal is rewritten too. */
  function Rewritten(s: string): string
  {
    if s == [] then "" else Rewritten(s[..|s| - 1]) + Piece(s[..|s| - 1], s[|s| - 1])
  }

  /** The rewrite done once per `prepare`, as a single left-to-right scan with
      a running count instead of the source's recount of the prefix. */
  method RewritePlaceholders(sql: string) returns (pgSql: string)
    ensures pgSql == Rewritten(sql)
  {
    pgSql := "";
    var count := 0;
    var i := 0;
    while i < |sql|
      invariant 0 <= i <= |sql|
      invariant count == CountMarks(sql[..i])
      invariant pgSql == Rewritten(sql[..i])
    {
      assert sql[..i + 1][..i] == sql[..i];
      if sql[i] == '?' {
        count := count + 1;
        pgSql := pgSql + Marker(count);
      } else {
        pgSql := pgSql + [sql[i]];
      }
      i := i + 1;
    }
    assert sql[..|sql|] == sql;
  }

  lemma {:induction false} OccurrencesConcat(a: string, b: string, c: char)
    ensures Occurrences(a + b, c) == Occurrences(a, c) + Occurrences(b, c)
    decreases |b|
  {
    if b != [] {
      var b' := b[..|b| - 1];
      assert (a + b)[..|a + b| - 1] == a + b';
      assert (a + b)[|a + b| - 1] == b[|b| - 1];
      OccurrencesConcat(a, b', c);
    } else {
      assert a + b == a;
    }
  }

  lemma {:induction false} OccurrencesAbsent(s: string, c: char)
    requires c !in s
    ensures Occurrences(s, c) == 0
    decreases |s|
  {
    if s != [] {
      assert s[..|s| - 1] <= s;
      OccurrencesAbsent(s[..|s| - 1], c);
    }
  }

  lemma {:induction false} OccurrencesZero(s: string, c: char)
    requires Occurrences(s, c) == 0
    ensures c !in s
    decreases |s|
  {
    if s != [] {
      var t := s[..|s| - 1];
      OccurrencesZero(t, c);
      assert s == t + [s[|s| - 1]];
    }
  }

  lemma {:induction false} OccurrencesPrefix(s: string, j: nat, c: char)
    requires j <= |s|
    ensures Occurrences(s[..j], c) <= Occurrences(s, c)
    decreases |s|
  {
    if j < |s| {
      assert s[..|s| - 1][..j] == s[..j];
      OccurrencesPrefix(s[..|s| - 1], j, c);
    } else {
      assert s[..j] == s;
    }
  }

  /** A query without placeholders is sent as written. */
  lemma {:induction false} NoMarksUnchanged(s: string)
    requires CountMarks(s) == 0
    ensures Rewritten(s) == s
    decreases |s|
  {
    if s != [] {
      var t := s[..|s| - 1];
      NoMarksUnchanged(t);
      assert s == t + [s[|s| - 1]];
    }
  }

  /** A marker holds one `$`, then digits only. */
  lemma MarkerCounts(k: nat, c: char)
    ensures Occurrences(Marker(k), '$') == 1
    ensures c != '$' && !IsDigit(c) ==> Occurrences(Marker(k), c) == 0
  {
    var d := Dec(k);
    OccurrencesConcat("$", d, '$');
    OccurrencesConcat("$", d, c);
    assert '$' !in d;
    OccurrencesAbsent(d, '$');
    if c != '$' && !IsDigit(c) {
      assert c !in d;
      OccurrencesAbsent(d, c);
    }
  }

  /** The rewritten text veers from the input only at the markers: no `?`
      survives, each `?` contributes exactly one `$`, and every character that
      is neither a marker character nor a digit occurs as often as in the
      input. */
  lemma {:induction false} RewrittenCounts(s: string, c: char)
    ensures Occurrences(Rewritten(s), '?') == 0
    ensures Occurrences(Rewritten(s), '$') == Occurrences(s, '$') + CountMarks(s)
    ensures c != '?' && c != '$' && !IsDigit(c) ==> Occurrences(Rewritten(s), c) == Occurrences(s, c)
    decreases |s|
  {
    if s != [] {
      var t := s[..|s| - 1];
      var x := s[|s| - 1];
      var piece := Piece(t, x);
      assert Rewritten(s) == Rewritten(t) + piece;
      RewrittenCounts(t, c);
      OccurrencesConcat(Rewritten(t), piece, '?');
      OccurrencesConcat(Rewritten(t), piece, '$');
      OccurrencesConcat(Rewritten(t), piece, c);
      if x == '?' {
        MarkerCounts(CountMarks(t) + 1, '?');
        MarkerCounts(CountMarks(t) + 1, c);
      } else {
        assert piece == [x];
        assert [x][..0] == [];
      }
    }
  }

  /** The output holds no `?` at all. */
  lemma NoMarkInOutput(s: string)
    ensures '?' !in Rewritten(s)
  {
    RewrittenCounts(s, '?');
    OccurrencesZero(Rewritten(s), '?');
  }

  lemma {:induction false} RewrittenPrefix(s: string, j: nat)
    requires j <= |s|
    ensures Rewritten(s[..j]) <= Rewritten(s)
    decreases |s|
  {
    if j < |s| {
      var t := s[..|s| - 1];
      assert t[..j] == s[..j];
      RewrittenPrefix(t, j);
    } else {
      assert s[..j] == s;
    }
  }

  lemma RewrittenSnoc(s: string, i: nat)
    requires i < |s|
    ensures Rewritten(s[..i + 1]) == Rewritten(s[..i]) + Piece(s[..i], s[i])
  {
    assert s[..i + 1][..i] == s[..i];
  }

  /** Numbering left to right: the text for `s[..i]` is followed, in the
      output, by `$k` when `s[i]` is the k-th `?` (k being one more than the
      `?`s before `i`), and by `s[i]` itself otherwise. */
  lemma MarkerNumbering(s: string, i: nat)
    requires i < |s|
    ensures s[i] == '?' ==> Rewritten(s[..i]) + Marker(CountMarks(s[..i]) + 1) <= Rewritten(s)
    ensures s[i] != '?' ==> Rewritten(s[..i]) + [s[i]] <= Rewritten(s)
  {
    RewrittenPrefix(s, i + 1);
    RewrittenSnoc(s, i);
  }

  /** The numbers run from 1 up to the number of `?`s. */
  lemma MarkerRange(s: string, i: nat)
    requires i < |s| && s[i] == '?'
    ensures 1 <= CountMarks(s[..i]) + 1 <= CountMarks(s)
  {
    var t := s[..i + 1];
    assert t[..i] == s[..i];
    OccurrencesPrefix(s, i + 1, '?');
  }

  /** The length grows by the markers' digits: never shorter than the input
      plus one character per `?`. */
  lemma {:induction false} RewrittenLength(s: string)
    ensures |Rewritten(s)| >= |s| + CountMarks(s)
    ensures |Rewritten(s)| == |s| <==> CountMarks(s) == 0
    decreases |s|
  {
    if s != [] {
      RewrittenLength(s[..|s| - 1]);
    }
  }

  /** Text without `?` is appended as written, whatever precedes it. */
  lemma {:induction false} RewrittenAppendPlain(a: string, w: string)
    requires '?' !in w
    ensures Rewritten(a + w) == Rewritten(a) + w
    decreases |w|
  {
    if w == [] {
      assert a + w == a;
    } else {
      var w' := w[..|w| - 1];
      assert (a + w)[..|a + w| - 1] == a + w';
      assert (a + w)[|a + w| - 1] == w[|w| - 1];
      assert w' <= w;
      RewrittenAppendPlain(a, w');
      assert w == w' + [w[|w| - 1]];
    }
  }

  /** A `?` appended to `a` becomes the marker after those already in `a`. */
  lemma RewrittenAppendMark(a: string)
    ensures Rewritten(a + "?") == Rewritten(a) + Marker(CountMarks(a) + 1)
    ensures CountMarks(a + "?") == CountMarks(a) + 1
  {
    assert (a + "?")[..|a|] == a;
  }

  /** Two markers around plain words are numbered 1 and 2, left to right. */
  lemma TwoMarks(w1: string, w2: string)
    requires '?' !in w1 && '?' !in w2
    ensures Rewritten(w1 + "?" + w2 + "?") == w1 + Marker(1) + w2 + Marker(2)
  {
    var q1 := w1 + "?";
    var q2 := q1 + w2;
    assert Rewritten(q1) == w1 + Marker(1) && CountMarks(q1) == 1 by {
      OccurrencesAbsent(w1, '?');
      NoMarksUnchanged(w1);
      RewrittenAppendMark(w1);
    }
    assert Rewritten(q2) == w1 + Marker(1) + w2 && CountMarks(q2) == 1 by {
      RewrittenAppendPlain(q1, w2);
      OccurrencesConcat(q1, w2, '?');
      OccurrencesAbsent(w2, '?');
    }
    RewrittenAppendMark(q2);
  }

  /** The first two markers. */
  lemma FirstMarkers()
    ensures Marker(1) == "$1" && Marker(2) == "$2"
  {
    assert Dec(1) == "1" && Dec(2) == "2";
  }

  /** A worked example: two parameters numbered left to right. */
  lemma ExampleTwoParameters()
    ensures Rewritten("a = ? AND b = ?") == "a = $1 AND b = $2"
  {
    var w1, w2 := "a = ", " AND b = ";
    assert '?' !in w1 && '?' !in w2;
    TwoMarks(w1, w2);
    FirstMarkers();
    var input, output := w1 + "?" + w2 + "?", w1 + "$1" + w2 + "$2";
    assert input == "a = ? AND b = ?";
    assert output == "a = $1 AND b = $2";
  }

  /** A worked example: a `?` inside a quoted literal is numbered too. */
  lemma ExampleQuotedMark()
    ensures Rewritten("'?'") == "'$1'"
  {
    var q := "'";
    var q1 := q + "?";
    assert Rewritten(q1) == q + "$1" by {
      assert Marker(1) == "$1";
      OccurrencesAbsent(q, '?');
      NoMarksUnchanged(q);
      RewrittenAppendMark(q);
    }
    assert Rewritten(q1 + q) == q + "$1" + q by {
      RewrittenAppendPlain(q1, q);
    }
    assert q1 + q == "'?'";
    assert q + "$1" + q == "'$1'";
  }

  // ---------------------------------------------------------------------
  // Backend selection

  datatype Backend = SqliteBackend(path: string) | PostgresBackend(params: PostgresParams)

  /** `initializeDb`'s decision over the database section: PostgreSQL when
      the type is postgres and its block is present, SQLite when the type is
      sqlite and the path is non-empty, an error naming the type otherwise. */
  function SelectBackend(db: DatabaseSection): (r: Result<Backend, string>)
    ensures r.Ok? && r.value.PostgresBackend? <==>
      EffectiveType(db.dbType) == "postgres" && db.postgres.Some?
    ensures r.Ok? && r.value.PostgresBackend? ==> r.value.params == db.postgres.value
    ensures r.Ok? && r.value.SqliteBackend? <==>
      EffectiveType(db.dbType) == "sqlite" && Present(db.path)
    ensures r.Ok? && r.value.SqliteBackend? ==> r.value.path == db.path.value
    ensures r.Err? ==> r.error == "Invalid database configuration: type=" + EffectiveType(db.dbType)
  {
    var dbType := EffectiveType(db.dbType);
    if dbType == "postgres" && db.postgres.Some? then Ok(PostgresBackend(db.postgres.value))
    else if dbType == "sqlite" && Present(db.path) then Ok(SqliteBackend(db.path.value))
    else Err("Invalid database configuration: type=" + dbType)
  }

  /** A missing type and an empty one both select exactly as `sqlite` does. */
  lemma MissingTypeIsSqlite(db: DatabaseSection)
    ensures SelectBackend(db.(dbType := None)) == SelectBackend(db.(dbType := Some("sqlite")))
    ensures SelectBackend(db.(dbType := Some(""))) == SelectBackend(db.(dbType := Some("sqlite")))
  {
  }

  /** Every configuration the loader accepts from a file selects a backend,
      unless its type is neither `sqlite` nor `postgres`: that type passes the
      file check and is only refused here, by name. */
  lemma ValidatedConfigSelects(c: OpsimateConfig)
    requires HasRequiredFields(c)
    ensures c.database.Some?
    ensures TypeOf(c) == "sqlite" ==> SelectBackend(c.database.value) == Ok(SqliteBackend(c.database.value.path.value))
    ensures TypeOf(c) == "postgres" ==>
      SelectBackend(c.database.value) == Ok(PostgresBackend(c.database.value.postgres.value))
    ensures TypeOf(c) != "sqlite" && TypeOf(c) != "postgres" ==>
      SelectBackend(c.database.value) == Err("Invalid database configuration: type=" + TypeOf(c))
  {
  }

  /** The defaults select the backend named by `DATABASE_TYPE` (sqlite when
      unset), with the environment's parameters, and refuse any other name. */
  lemma DefaultConfigSelects(env: Env)
    ensures var t := EnvOr(env, "DATABASE_TYPE", "sqlite");
      SelectBackend(DefaultConfig(env).database.value) ==
        if t == "postgres" then Ok(PostgresBackend(DefaultPostgres(env)))
        else if t == "sqlite" then Ok(SqliteBackend(EnvOr(env, "DATABASE_PATH", DEFAULT_DATABASE_PATH)))
        else Err("Invalid database configuration: type=" + t)
  {
    var t := EnvOr(env, "DATABASE_TYPE", "sqlite");
    assert DEFAULT_DATABASE_PATH != "";
    assert t != "" by {
      assert "sqlite" != "";
    }
  }

  /** `initializeDb`: load the configuration (caching it) and select. */
  method InitializeDb(loader: ConfigLoader, env: Env, disk: map<string, OpsimateConfig>)
    returns (r: Result<Backend, string>)
    requires loader.Valid()
    modifies loader
    ensures loader.Valid()
    ensures loader.cached.None? ==>
      r.Err? && ConfigPath(env).Some? && r.error == "Invalid config file: " + ConfigPath(env).value
    ensures loader.cached.Some? ==> r == SelectBackend(loader.cached.value.database.value)
    ensures old(loader.cached).Some? ==> loader.cached == old(loader.cached)
    ensures old(loader.cached).None? ==>
      loader.cached == (if Resolve(env, disk).Ok? then Some(Resolve(env, disk).value) else None)
    ensures old(loader.cached).None? && Resolve(env, disk).Ok? ==>
      r == SelectBackend(Resolve(env, disk).value.database.value)
    ensures old(loader.cached).None? && Resolve(env, disk).Err? ==> r == Err(Resolve(env, disk).error)
  {
    var config := loader.LoadConfig(env, disk);
    if config.Err? {
      return Err(config.error);
    }
    r := SelectBackend(config.value.database.value);
  }

  // ---------------------------------------------------------------------
  // PostgreSQL pool and statements

  datatype PoolSettings = PoolSettings(
    host: string, port: int, database: string, user: string, password: string,
    max: nat, idleTimeoutMillis: nat, connectionTimeoutMillis: nat)

  /** The pool takes the connection fields from the configuration and fixes
      its capacity and timeouts. */
  function PoolFor(p: PostgresParams): (s: PoolSettings)
    ensures s.host == p.host && s.port == p.port && s.database == p.database
    ensures s.user == p.user && s.password == p.password
    ensures s.max == 10 && s.idleTimeoutMillis == 30000 && s.connectionTimeoutMillis == 2000
  {
    PoolSettings(p.host, p.port, p.database, p.user, p.password, 10, 30000, 2000)
  }

  datatype Value = IntValue(i: int) | TextValue(s: string) | NullValue

  type Row = map<string, Value>

  /** A query as handed to a driver client. */
  datatype Query = Query(text: string, params: seq<Value>)

  /** The driver's reply to one query (`rowCount` may be null). */
  datatype QueryReply = QueryReply(rowCount: Option<nat>, rows: seq<Row>)

  datatype RunInfo = RunInfo(changes: Option<nat>, lastInsertRowid: Option<Value>)

  /** A prepared statement: the text its `run`, `get` and `all` send. */
  datatype Statement = Statement(text: string)

  /** `run`'s result: `changes` is the row count, `lastInsertRowid` the
      first returned row's `id`, absent when there is no row or no `id`. */
  function RunInfoOf(reply: QueryReply): (info: RunInfo)
    ensures info.changes == reply.rowCount
    ensures info.lastInsertRowid.Some? <==> |reply.rows| > 0 && "id" in reply.rows[0]
    ensures info.lastInsertRowid.Some? ==> info.lastInsertRowid.value == reply.rows[0]["id"]
  {
    RunInfo(reply.rowCount,
      if |reply.rows| > 0 && "id" in reply.rows[0] then Some(reply.rows[0]["id"]) else None)
  }

  /** `get`'s result: the first row, absent when there are none. */
  function FirstRow(reply: QueryReply): (row: Option<Row>)
    ensures row.Some? <==> |reply.rows| > 0
    ensures row.Some? ==> row.value == reply.rows[0]
  {
    if |reply.rows| > 0 then Some(reply.rows[0]) else None
  }

  class PostgresWrapper {
    const pool: PoolSettings
    /** Queries handed to pooled clients, in order. */
    var sent: seq<Query>
    var open: bool

    constructor (params: PostgresParams)
      ensures pool == PoolFor(params) && sent == [] && open
    {
      pool := PoolFor(params);
      sent := [];
      open := true;
    }

    /** The text is rewritten once; the statement's three operations all
        send that text. */
    method Prepare(sql: string) returns (stmt: Statement)
      ensures stmt.text == Rewritten(sql)
    {
      var pgSql := RewritePlaceholders(sql);
      stmt := Statement(pgSql);
    }

    method Run(stmt: Statement, params: seq<Value>, reply: QueryReply) returns (info: RunInfo)
      modifies this`sent
      ensures sent == old(sent) + [Query(stmt.text, params)]
      ensures info == RunInfoOf(reply)
    {
      sent := sent + [Query(stmt.text, params)];
      info := RunInfoOf(reply);
    }

    method Get(stmt: Statement, params: seq<Value>, reply: QueryReply) returns (row: Option<Row>)
      modifies this`sent
      ensures sent == old(sent) + [Query(stmt.text, params)]
      ensures row == FirstRow(reply)
    {
      sent := sent + [Query(stmt.text, params)];
      row := FirstRow(reply);
    }

    method All(stmt: Statement, params: seq<Value>, reply: QueryReply) returns (rows: seq<Row>)
      modifies this`sent
      ensures sent == old(sent) + [Query(stmt.text, params)]
      ensures rows == reply.rows
    {
      sent := sent + [Query(stmt.text, params)];
      rows := reply.rows;
    }

    /** `exec` sends its text as written: no placeholder rewrite. */
    method Exec(sql: string)
      modifies this`sent
      ensures sent == old(sent) + [Query(sql, [])]
    {
      sent := sent + [Query(sql, [])];
    }

    method Close()
      modifies this`open
      ensures !open
    {
      open := false;
    }

    /** A pass-through: the callback runs once and its result is returned;
        nothing (no BEGIN, COMMIT or ROLLBACK) is sent around it. */
    method Transaction<T>(fn: () -> T) returns (r: T)
      ensures r == fn()
    {
      r := fn();
    }
  }

  class SqliteWrapper {
    const path: string
    /** Statements handed to the SQLite driver, in order. */
    var sent: seq<string>

    constructor (path: string)
      ensures this.path == path && sent == []
    {
      this.path := path;
      sent := [];
    }

    /** SQLite takes `?` natively: the text is prepared as written. */
    method Prepare(sql: string) returns (stmt: Statement)
      ensures stmt.text == sql
    {
      stmt := Statement(sql);
    }

    method Exec(sql: string)
      modifies this`sent
      ensures sent == old(sent) + [sql]
    {
      sent := sent + [sql];
    }
  }
}
