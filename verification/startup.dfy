/**
 start_railway.py: validate the environment, set up the database, then start
 the application. Process exit and the server start are returned as an
 outcome value rather than performed.
 */
module Startup {
  import opened Environment
  import Probe
  import Migrations

  /** Variables whose absence stops startup. */
  const RequiredVars: seq<string> := ["OPENAI_API_KEY"]

  /** Variables that are only reported on. */
  const OptionalVars: seq<string> := [
    "OPENAI_BASE_URL", "OPENAI_MODEL", "OPENAI_TEMPERATURE", "DATABASE_URL", "PORT", "ENABLE_WEB_UI", "DB_ECHO"
  ]

  /** `xs` is `ys` with some elements left out, the rest in their original order. */
  predicate IsSubsequence(xs: seq<string>, ys: seq<string>)
    decreases |ys|
  {
    if xs == [] then true
    else if ys == [] then false
    else (xs[0] == ys[0] && IsSubsequence(xs[1..], ys[1..])) || IsSubsequence(xs, ys[1..])
  }

  /** The `missing_vars` list: the required variables that are unset or empty, in list order. */
  function MissingVars(required: seq<string>, env: Env): (missing: seq<string>)
    ensures forall v :: v in missing <==> v in required && !Truthy(Getenv(env, v))
    ensures IsSubsequence(missing, required)
    ensures forall v {:trigger multiset(missing)[v]} :: multiset(missing)[v] == if Truthy(Getenv(env, v)) then 0 else multiset(required)[v]
    decreases |required|
  {
    if required == [] then []
    else
      var rest := MissingVars(required[1..], env);
      assert required == [required[0]] + required[1..];
      assert multiset(required) == multiset{required[0]} + multiset(required[1..]);
      if !Truthy(Getenv(env, required[0])) then [required[0]] + rest
      else
        assert rest == [] || IsSubsequence(rest, required[1..]);
        rest
  }

  /** `check_environment` */
  function CheckEnvironment(env: Env): (ok: bool)
    ensures ok <==> "OPENAI_API_KEY" in env && env["OPENAI_API_KEY"] != ""
  {
    var missing := MissingVars(RequiredVars, env);
    assert "OPENAI_API_KEY" in RequiredVars;
    missing == []
  }

  /** Whatever an optional variable — or any variable that is not required — is set to,
      the environment check comes out the same. */
  lemma {:induction false} OnlyRequiredVarsMatter(required: seq<string>, env: Env, key: string, value: string)
    requires key !in required
    ensures MissingVars(required, env[key := value]) == MissingVars(required, env)
    ensures MissingVars(required, env - {key}) == MissingVars(required, env)
    decreases |required|
  {
    if required != [] {
      assert Getenv(env[key := value], required[0]) == Getenv(env, required[0]);
      assert Getenv(env - {key}, required[0]) == Getenv(env, required[0]);
      OnlyRequiredVarsMatter(required[1..], env, key, value);
    }
  }

  /** No optional variable can make startup fail. */
  lemma OptionalVarsNeverFail(env: Env, key: string, value: string)
    requires key in OptionalVars
    ensures CheckEnvironment(env[key := value]) == CheckEnvironment(env)
    ensures CheckEnvironment(env - {key}) == CheckEnvironment(env)
  {
    OnlyRequiredVarsMatter(RequiredVars, env, key, value);
  }

  /** What `setup_database` did: its result, the migration run if one happened, and the history after it. */
  datatype Setup = Setup(ok: bool, migrated: bool, history: set<string>)

  /** `setup_database`: probe the store, and only if it answers, run the migrations. */
  function SetupDatabase(conn: Probe.Connection, history: set<string>, store: Migrations.Store): (s: Setup)
    ensures !Probe.CheckDatabaseConnection(conn) ==> !s.ok && !s.migrated && s.history == history
    ensures s.ok <==> Probe.CheckDatabaseConnection(conn)
                      && Migrations.RunMigrations(Migrations.MigrationFiles, history, store).ok
    ensures Probe.CheckDatabaseConnection(conn) ==>
              s.migrated && s.history == Migrations.RunMigrations(Migrations.MigrationFiles, history, store).history
    ensures s.ok ==> s.migrated && conn.connect.Returns? && conn.selectOne.Returns? && conn.release.Returns?
                     && store.setupOk && store.closeOk
    ensures s.ok ==> forall n :: n in Migrations.MigrationFiles ==> n in s.history || !store.fileExists(n)
    ensures history <= s.history
    ensures forall n :: n in s.history ==> n in history || n in Migrations.MigrationFiles
  {
    if !Probe.CheckDatabaseConnection(conn) then Setup(false, false, history)
    else
      var run := Migrations.RunMigrations(Migrations.MigrationFiles, history, store);
      Setup(run.ok, true, run.history)
  }

  /** `setup_database` returns `True` exactly when connecting, `SELECT 1` and releasing the
      connection return normally, the history table can be set up, none of the declared
      units without a history row fails to be read or executed, and the migration
      connection closes normally. */
  lemma {:induction false} SetupSucceedsIff(conn: Probe.Connection, history: set<string>, store: Migrations.Store)
    ensures SetupDatabase(conn, history, store).ok <==>
              && conn.connect.Returns? && conn.selectOne.Returns? && conn.release.Returns?
              && store.setupOk
              && (forall n :: n in Migrations.MigrationFiles && n !in history ==> !Migrations.UnitFails(store, n))
              && store.closeOk
  {
    Migrations.MigrationFilesDistinct();
    Migrations.RunSucceedsIffNoPendingUnitFails(Migrations.MigrationFiles, history, store);
  }

  /** How `main` ends: exiting with a status, or going on to start the application. */
  datatype Outcome = Exit(status: int) | Start(dbOk: bool, history: set<string>)

  /** `main` */
  function Main(env: Env, conn: Probe.Connection, history: set<string>, store: Migrations.Store): (o: Outcome)
    ensures o.Exit? <==> !("OPENAI_API_KEY" in env && env["OPENAI_API_KEY"] != "")
    ensures o.Exit? ==> o.status == 1
    ensures o.Start? ==> o.dbOk == SetupDatabase(conn, history, store).ok
                         && o.history == SetupDatabase(conn, history, store).history
  {
    if !CheckEnvironment(env) then Exit(1)
    else
      var setup := SetupDatabase(conn, history, store);
      Start(setup.ok, setup.history)
  }
}
