# Railway deployment bootstrap: configuration, migrations, startup

A Dafny model of the two pieces of sequential logic in the FastAgency Railway
deployment scripts:

- **database.py**:
  - How the store's connection URL is resolved from the environment. A provider
    `DATABASE_URL` wins, and its legacy `postgres://` scheme is rewritten once to
    `postgresql://`. Otherwise the URL is composed from `DB_USER`, `DB_PASSWORD`,
    `DB_HOST`, `DB_PORT` and `DB_NAME`, with defaults. A second one-shot rewrite to
    `postgresql+asyncpg://` gives the asynchronous URL.
  - The connectivity probe, which never raises.
  - The migration runner, which applies a fixed, ordered list of SQL units exactly
    once each. It tracks them in a `migration_history` table and stops at the first
    failure.
- **start_railway.py**: the startup sequence. It validates the environment, then
  probes the store and runs migrations, then starts the application. A missing
  required variable stops startup with status 1. A database failure is only reported.

The environment is a `map<string, string>`, so an unset variable and one set to
`""` stay distinct. The store is a history `set<string>` plus oracles:

- whether setting up the history table succeeds;
- whether a unit's file exists;
- what reading it yields;
- whether executing it succeeds;
- whether closing the migration connection after the loop succeeds.

A run is a fold over the declared list. It returns the flag, the new history and a
trace of what happened to each unit: already applied, file missing, applied, or
failed. Process exit and the server start are returned as an `Outcome` value.

Modules: `Wrappers` (Option), `Strings` (`startswith`, `replace(…, 1)`),
`Environment` (`os.getenv`), `DbConfig`, `Probe`, `Migrations`, `Startup`.

## Model

| member | source | states |
|---|---|---|
| `Strings.ReplaceFirst` | database.py:30 | `replace(old, new, 1)`: with no occurrence the string is unchanged; otherwise exactly the leftmost occurrence is replaced and everything around it is kept |
| `Strings.ReplaceFirstAtPrefix` | database.py:29-30 | when the string starts with the pattern, the single replacement happens at the front and the rest is kept verbatim |
| `DbConfig.DatabaseUrl` | database.py:22-40 | a set, non-empty `DATABASE_URL` starting with `postgres://` becomes `postgresql://` followed by the URL minus its first 11 characters; any other set, non-empty one is returned unchanged; an unset or empty one gives `postgresql://{user}:{password}@{host}:{port}/{name}`, where a default applies only to an unset variable; the result is never empty and never carries the legacy scheme |
| `DbConfig.DefaultUrl` | database.py:34-40 | with none of the five variables set, the URL is composed from the defaults `postgres`, empty password, `localhost`, `5432` and `fastagency`, giving `postgresql://postgres:@localhost:5432/fastagency` |
| `DbConfig.EmptyValuesOverrideDefaults` | database.py:34-38 | variables set to `""` are used as they are, giving `postgresql://:@:/` |
| `DbConfig.ResolutionIsIdempotent` | database.py:25-31 | feeding the resolved URL back in as `DATABASE_URL` resolves to the same URL |
| `DbConfig.ComposedUrlIsAmbiguous` | database.py:40 | an observation by example, not a general property: the parts are interpolated unescaped, so a password containing `@` yields the same URL as a host containing it |
| `DbConfig.AsyncDatabaseUrl` | database.py:42-47 | a URL starting with `postgresql://` gets `postgresql+asyncpg://` in its place with the rest kept; any other URL passes through unchanged |
| `DbConfig.NewConfig` | database.py:18-20 | the asynchronous URL is the one-shot rewrite of the resolved URL: every composed URL reaches the asynchronous driver with the asyncpg scheme; a legacy `postgres://` provider URL and a `postgresql://` provider URL become `postgresql+asyncpg://` followed by what comes after their scheme; a provider URL with any other scheme is passed through unchanged |
| `DbConfig.AsyncRewriteRoundTrip` | database.py:45-46 | the asynchronous rewrite is undone by putting `postgresql://` back in front of what follows the asyncpg scheme |
| `Probe.CheckDatabaseConnection` | database.py:89-98 | returns `true` exactly when connecting, `SELECT 1` and releasing the connection all return normally, `false` on any exception, and never raises |
| `Migrations.Visit` | database.py:137-166 | a unit is skipped as applied exactly when history records it; it is reported missing exactly when it is not recorded and its file does not exist; it is applied exactly when it is not recorded, its file exists, reading it returns text and executing that text succeeds; it fails exactly when it is not recorded, its file exists and reading or executing raises |
| `Migrations.ApplyAll` | database.py:135-166 | the new history is the old one plus exactly the names of the applied units; steps follow the declared order; success holds exactly when no step failed, and then every unit was visited; a failure is the last step, so no later unit is attempted |
| `Migrations.RunMigrations` | database.py:111-173 | a setup failure returns `false` and changes nothing; after a successful setup the run records exactly the applied units, visits the units in declared order, and returns `true` exactly when no unit failed and closing the connection afterwards succeeded; a failure ends the run, and a run with no failure visits every unit; history only grows, and only by listed names; on success every listed unit is recorded unless its file is missing |
| `Migrations.HistoryGrowsByListedNames` | database.py:150-157 | every name the history gains is one of the declared units |
| `Migrations.SuccessfulRunIsComplete` | database.py:142-169 | after a successful run every declared unit is in history or has no file |
| `Migrations.NothingPendingIsNoOp` | database.py:137-166 | when every unit is recorded or missing, a run applies nothing, keeps the history and succeeds |
| `Migrations.RerunChangesNothing` | database.py:111-173 | idempotence: a second run right after a successful one succeeds, applies nothing and leaves history unchanged |
| `Migrations.RecordedIffAppliedOrSkipped` | database.py:142-166 | a visited unit is in the final history exactly when it was skipped as applied or applied; a missing or failed unit leaves no row, because the failed unit is rolled back; only units whose file exists are applied |
| `Migrations.AppliedAtMostOnce` | database.py:126-157 | the `UNIQUE` history column is never violated: an applied unit was not already recorded, and no unit is applied twice in one run |
| `Migrations.SkippedIffInHistory` | database.py:137-166 | with distinct names, a unit is skipped as already applied exactly when the starting history records it |
| `Migrations.RetryAfterFailure` | database.py:137-166 | after a run that failed at a unit or passed a missing one, the next run does not skip that unit as applied if it gets that far, and skips every unit the first run recorded |
| `Migrations.StepsAgainstStartingHistory` | database.py:135-166 | with distinct names, each visited unit is treated as the loop body treats it against the starting history: applying earlier units never changes how a later one is handled |
| `Migrations.FailedIffUnitRaised` | database.py:143-164 | with distinct names, a visited unit fails exactly when it had no history row, its file exists and reading or executing it raises; it is applied exactly when it had no row, its file exists and reading and executing return normally |
| `Migrations.SucceedsIffNoPendingUnitFails` | database.py:135-169 | with distinct names, the loop finishes without raising exactly when no listed unit without a history row fails to be read or executed |
| `Migrations.RunSucceedsIffNoPendingUnitFails` | database.py:111-173 | with distinct names, `run_migrations` returns `True` exactly when the history table can be set up, no listed unit without a history row fails to be read or executed, and the connection's `with` exit returns normally |
| `Migrations.RecordedUnitsAreNotRead` | database.py:142-150 | the run does not depend on what the store says about recorded units' files or statements, so they are never read |
| `Migrations.MigrationFilesDistinct` | database.py:116-122 | the declared list names each unit once |
| `Startup.MissingVars` | start_railway.py:40-43 | the missing list holds exactly the required variables that are unset or empty, in the order of the required list, each as often as the required list names it |
| `Startup.CheckEnvironment` | start_railway.py:24-67 | `false` exactly when `OPENAI_API_KEY` is unset or set to the empty string |
| `Startup.OnlyRequiredVarsMatter` | start_railway.py:40-43 | setting or removing a variable outside the required list does not change the missing list |
| `Startup.OptionalVarsNeverFail` | start_railway.py:30-38 | no optional variable can change the outcome of the environment check |
| `Startup.SetupDatabase` | start_railway.py:69-84 | a failed probe returns `false` without running migrations or touching history; `true` exactly when the probe succeeds and `run_migrations` returns `True`; once the probe succeeds the migrations run and the history is theirs; on success connecting, `SELECT 1`, releasing, the table setup and closing the migration connection all returned normally and every listed unit is recorded or has no file; history only grows by listed names |
| `Startup.SetupSucceedsIff` | start_railway.py:69-84 | `setup_database` returns `True` exactly when connecting, `SELECT 1` and releasing return normally, the history table can be set up, no declared unit without a history row fails to be read or executed, and the migration connection closes normally |
| `Startup.Main` | start_railway.py:106-120 | exits with status 1 exactly when `OPENAI_API_KEY` is unset or empty, before any database work; otherwise starts the application, whether or not the database setup succeeded, carrying the setup's result and the history after it |

## Left out

- Importing database.py builds the global configuration and both engines (database.py:65-68) before `main` runs. A `DB_PORT` that is not a number, or a URL the driver rejects, would abort startup there, before `check_environment`. `Main` starts after a successful import, so it does not model this exit.
- Engines, `NullPool`, session factories, `get_db` and `get_async_db` (database.py:49-87) are driver plumbing. `DB_ECHO` only feeds the engines.
- `check_async_database_connection` (database.py:100-109) has the same contract as the synchronous probe, on an awaitable path.
- Actual SQL execution and file reading are oracles (`setupOk`, `fileExists`, `read`, `execute`, `closeOk`). `execute` stands for running the batch, inserting the history row and committing, as one step. `closeOk` stands for the `with` exit that closes the migration connection (database.py:124-166) and rolls back the transaction the last history lookup opened.
- `execute` is keyed by the statement text and is fixed for the whole run. Two units with the same text succeed or fail together, and a unit's outcome cannot depend on the schema that earlier units left behind. No proved property relies on this.
- The history lookup (`SELECT COUNT(*)`, database.py:137-142) is answered from the history set. A connection lost during that query, which would abort the run like a unit failure, is not modelled.
- Concurrent runs by several processes are not modelled. The model runs sequentially, so the `UNIQUE` insert cannot conflict.
- Logging everywhere, including the configuration report in `check_environment` (start_railway.py:52-65).
- `start_application` (start_railway.py:86-104): the `PORT` parsing, uvicorn, and the exit when the server fails to start. `Main` returns `Start` at the point where it would be called.
- The script entry points (the `__main__` blocks at database.py:175-188 and start_railway.py:122-123) are not modelled. The first runs the probe and the migrations and prints the outcome; the second calls `main`.
- railway_app.py, test_deployment.py and the tutorial and example modules are HTTP glue, a smoke-test client, or wrappers over foreign libraries.
