/**
 `run_migrations` in database.py over an abstract store. The store is a
 history set of applied unit names plus oracles for everything the runner
 asks of the outside world: whether the history table could be set up,
 whether a unit's file exists, what reading it yields, and whether executing
 its statements (together with the history insert and the commit) succeeds.
 */
module Migrations {
  import opened Wrappers

  /** The declared units, in the order they are applied. */
  const MigrationFiles: seq<string> := [
    "migrations/20240509080137_add_model_table/migration.sql",
    "migrations/20240625114706_rename_applications_to_deployments/migration.sql",
    "migrations/20240702085925_add_fly_io_name_and_repo_name_to_json_str_column/migration.sql",
    "migrations/20240712121422_add_auth_token_table/migration.sql",
    "migrations/20240910072037_make_json_str_name_unique_per_user/migration.sql"
  ]

  /** What the outside world answers.
      - `setupOk`: connecting, `CREATE TABLE IF NOT EXISTS migration_history` and its commit return normally;
      - `fileExists(name)`: `os.path.exists(name)`;
      - `read(name)`: the file's text, or `None` when opening or decoding raises;
      - `execute(sql)`: running the batch, inserting the history row and committing all return normally;
      - `closeOk`: the connection's `with` exit after the loop returns normally. Closing the connection
        rolls back the transaction the last history lookup opened, and that can raise. */
  datatype Store = Store(
    setupOk: bool,
    fileExists: string -> bool,
    read: string -> Option<string>,
    execute: string -> bool,
    closeOk: bool)

  /** What happened to one unit during a run. */
  datatype Step =
    | AlreadyApplied(name: string)  // a history row exists: skipped, file not read
    | FileMissing(name: string)     // no history row and no file: skipped with a warning
    | Applied(name: string)         // executed and recorded in one transaction
    | Failed(name: string)          // reading or executing raised: rolled back, run aborted

  /** The outcome of a run: the returned flag, the history afterwards, and the steps taken. */
  datatype Migration = Migration(ok: bool, history: set<string>, steps: seq<Step>)

  /** The names of the units a trace applied. */
  function AppliedNames(steps: seq<Step>): set<string> {
    set i | 0 <= i < |steps| && steps[i].Applied? :: steps[i].name
  }

  /** Reading the unit's file or executing its statements raises: the `except` branch
      that rolls back and re-raises. */
  predicate UnitFails(store: Store, name: string) {
    store.fileExists(name) && (store.read(name).None? || !store.execute(store.read(name).value))
  }

  /** The body of the loop for one unit, given the history as it stands. */
  function Visit(name: string, history: set<string>, store: Store): (s: Step)
    ensures s.name == name
    ensures s.AlreadyApplied? <==> name in history
    ensures s.FileMissing? <==> name !in history && !store.fileExists(name)
    ensures s.Applied? <==> name !in history && store.fileExists(name)
                            && store.read(name).Some? && store.execute(store.read(name).value)
    ensures s.Failed? <==> name !in history && UnitFails(store, name)
  {
    if name in history then AlreadyApplied(name)
    else if !store.fileExists(name) then FileMissing(name)
    else match store.read(name)
      case None => Failed(name)
      case Some(sql) => if store.execute(sql) then Applied(name) else Failed(name)
  }

  /** History afterwards is history before plus exactly the names the run applied. */
  ghost predicate RecordsApplied(history: set<string>, r: Migration) {
    forall n :: n in r.history <==> n in history || n in AppliedNames(r.steps)
  }

  /** The steps visit a prefix of the declared list, in the declared order. */
  predicate InDeclaredOrder(files: seq<string>, steps: seq<Step>) {
    |steps| <= |files| && forall i {:trigger steps[i]} :: 0 <= i < |steps| ==> steps[i].name == files[i]
  }

  /** The run succeeds exactly when no unit failed, then every unit was visited;
      otherwise the failed unit is the last one visited. */
  predicate StopsAtFirstFailure(files: seq<string>, r: Migration) {
    && (r.ok <==> forall i :: 0 <= i < |r.steps| ==> !r.steps[i].Failed?)
    && (r.ok ==> |r.steps| == |files|)
    && (!r.ok ==> |r.steps| > 0 && r.steps[|r.steps| - 1].Failed?)
  }

  /** No visited unit failed. */
  predicate NoStepFailed(steps: seq<Step>) {
    forall i :: 0 <= i < |steps| ==> !steps[i].Failed?
  }

  /** The `for` loop over the declared units, stopping at the first failure. */
  function ApplyAll(files: seq<string>, history: set<string>, store: Store): (r: Migration)
    ensures RecordsApplied(history, r)
    ensures InDeclaredOrder(files, r.steps)
    ensures StopsAtFirstFailure(files, r)
    decreases |files|
  {
    if files == [] then Migration(true, history, [])
    else
      var step := Visit(files[0], history, store);
      if step.Failed? then
        assert [step][0] == step;
        Migration(false, history, [step])
      else
        var history' := if step.Applied? then history + {files[0]} else history;
        var rest := ApplyAll(files[1..], history', store);
        var r := Migration(rest.ok, rest.history, [step] + rest.steps);
        ConsStep(files, history, step, history', rest, r);
        r
  }

  /** One unit visited without failure in front of the rest of the run keeps the three guarantees. */
  lemma ConsStep(files: seq<string>, history: set<string>, step: Step, history': set<string>,
                 rest: Migration, r: Migration)
    requires files != [] && step.name == files[0] && !step.Failed?
    requires history' == if step.Applied? then history + {files[0]} else history
    requires RecordsApplied(history', rest)
    requires InDeclaredOrder(files[1..], rest.steps)
    requires StopsAtFirstFailure(files[1..], rest)
    requires r == Migration(rest.ok, rest.history, [step] + rest.steps)
    ensures RecordsApplied(history, r)
    ensures InDeclaredOrder(files, r.steps)
    ensures StopsAtFirstFailure(files, r)
  {
    AppliedNamesSplit([step], rest.steps);
    AppliedNamesSingle(step);
    forall i | 0 < i < |r.steps| ensures r.steps[i] == rest.steps[i - 1] && files[i] == files[1..][i - 1] { }
    if !rest.ok {
      assert r.steps[|r.steps| - 1] == rest.steps[|rest.steps| - 1];
    }
  }

  /** One turn of the loop: the first unit's step, then the rest of the run. */
  lemma Unfold(files: seq<string>, history: set<string>, store: Store)
    requires files != []
    ensures var step := Visit(files[0], history, store);
            var history' := if step.Applied? then history + {files[0]} else history;
            var rest := ApplyAll(files[1..], history', store);
            ApplyAll(files, history, store)
              == if step.Failed? then Migration(false, history, [step])
                 else Migration(rest.ok, rest.history, [step] + rest.steps)
  {
  }

  /** `run_migrations`: set up the history table, apply the units, then leave the
      connection's `with` block. Any failure, including one raised while closing the
      connection, is caught and reported as `false`; the process carries on. */
  function RunMigrations(files: seq<string>, history: set<string>, store: Store): (r: Migration)
    ensures !store.setupOk ==> !r.ok && r.history == history && r.steps == []
    ensures history <= r.history
    ensures forall n :: n in r.history ==> n in history || n in files
    ensures r.ok ==> forall n :: n in files ==> n in r.history || !store.fileExists(n)
    ensures store.setupOk ==> RecordsApplied(history, r) && InDeclaredOrder(files, r.steps)
    ensures store.setupOk ==> (r.ok <==> NoStepFailed(r.steps) && store.closeOk)
    ensures store.setupOk && NoStepFailed(r.steps) ==> |r.steps| == |files|
    ensures store.setupOk && !NoStepFailed(r.steps) ==> |r.steps| > 0 && r.steps[|r.steps| - 1].Failed?
  {
    if !store.setupOk then Migration(false, history, [])
    else
      var r := ApplyAll(files, history, store);
      HistoryGrowsByListedNames(files, history, store);
      assert r.ok ==> forall n :: n in files ==> n in r.history || !store.fileExists(n) by {
        if r.ok { SuccessfulRunIsComplete(files, history, store); }
      }
      Migration(r.ok && store.closeOk, r.history, r.steps)
  }

  lemma AppliedNamesSingle(s: Step)
    ensures AppliedNames([s]) == if s.Applied? then {s.name} else {}
  {
    if s.Applied? { assert [s][0] == s; }
  }

  lemma AppliedNamesSplit(a: seq<Step>, b: seq<Step>)
    ensures AppliedNames(a + b) == AppliedNames(a) + AppliedNames(b)
  {
    var ab := a + b;
    forall n | n in AppliedNames(ab) ensures n in AppliedNames(a) + AppliedNames(b) {
      var i :| 0 <= i < |ab| && ab[i].Applied? && ab[i].name == n;
      if i >= |a| { assert b[i - |a|] == ab[i]; }
    }
    forall n | n in AppliedNames(a) ensures n in AppliedNames(ab) {
      var i :| 0 <= i < |a| && a[i].Applied? && a[i].name == n;
      assert ab[i] == a[i];
    }
    forall n | n in AppliedNames(b) ensures n in AppliedNames(ab) {
      var i :| 0 <= i < |b| && b[i].Applied? && b[i].name == n;
      assert ab[|a| + i] == b[i];
    }
  }

  /** History only ever gains names from the declared list. */
  lemma HistoryGrowsByListedNames(files: seq<string>, history: set<string>, store: Store)
    ensures forall n :: n in ApplyAll(files, history, store).history ==> n in history || n in files
  {
    var r := ApplyAll(files, history, store);
    forall n | n in r.history && n !in history ensures n in files {
      var i :| 0 <= i < |r.steps| && r.steps[i].Applied? && r.steps[i].name == n;
      assert files[i] == n;
    }
  }

  /** After a successful run every declared unit is recorded, unless its file is missing. */
  lemma {:induction false} SuccessfulRunIsComplete(files: seq<string>, history: set<string>, store: Store)
    requires ApplyAll(files, history, store).ok
    ensures forall n :: n in files ==> n in ApplyAll(files, history, store).history || !store.fileExists(n)
    decreases |files|
  {
    if files != [] {
      var step := Visit(files[0], history, store);
      var history' := if step.Applied? then history + {files[0]} else history;
      SuccessfulRunIsComplete(files[1..], history', store);
      forall n | n in files ensures n in ApplyAll(files, history, store).history || !store.fileExists(n) {
        if n != files[0] { assert n in files[1..]; }
      }
    }
  }

  /** No name is listed twice. */
  predicate Distinct(files: seq<string>) {
    files == [] || (files[0] !in files[1..] && Distinct(files[1..]))
  }

  /** The declared list names every unit once, as the `UNIQUE` history column needs. */
  lemma MigrationFilesDistinct()
    ensures Distinct(MigrationFiles)
  {
  }

  /** Once the units with a history row are taken out, nothing is left to do
      except the ones whose file is missing: then a run applies nothing, changes
      nothing and succeeds. */
  lemma {:induction false} NothingPendingIsNoOp(files: seq<string>, history: set<string>, store: Store)
    requires forall n :: n in files ==> n in history || !store.fileExists(n)
    ensures ApplyAll(files, history, store).ok
    ensures ApplyAll(files, history, store).history == history
    ensures forall i :: 0 <= i < |ApplyAll(files, history, store).steps| ==>
              !ApplyAll(files, history, store).steps[i].Applied?
    decreases |files|
  {
    if files != [] {
      assert files[0] in files;
      forall n | n in files[1..] ensures n in history || !store.fileExists(n) {
        assert n in files;
      }
      NothingPendingIsNoOp(files[1..], history, store);
      var r := ApplyAll(files, history, store);
      var rest := ApplyAll(files[1..], history, store);
      assert forall i :: 0 < i < |r.steps| ==> r.steps[i] == rest.steps[i - 1];
    }
  }

  /** Idempotence: a second run right after a successful one applies nothing,
      leaves the history as it was and succeeds again. */
  lemma RerunChangesNothing(files: seq<string>, history: set<string>, store: Store)
    requires RunMigrations(files, history, store).ok
    ensures var first := RunMigrations(files, history, store);
            var second := RunMigrations(files, first.history, store);
            && second.ok
            && second.history == first.history
            && forall i :: 0 <= i < |second.steps| ==> !second.steps[i].Applied?
  {
    var first := RunMigrations(files, history, store);
    NothingPendingIsNoOp(files, first.history, store);
  }

  /** A visited unit is in `final` exactly when it was skipped as applied or was applied. */
  predicate RecordedExactly(final: set<string>, steps: seq<Step>) {
    forall i :: 0 <= i < |steps| ==> (steps[i].name in final <==> steps[i].AlreadyApplied? || steps[i].Applied?)
  }

  /** Every applied unit had its file on disk. */
  predicate AppliedFilesExist(store: Store, steps: seq<Step>) {
    forall i :: 0 <= i < |steps| && steps[i].Applied? ==> store.fileExists(steps[i].name)
  }

  /** A unit ends up in the history exactly when the run skipped it as already applied
      or applied it: a missing file and a failed unit leave no row behind, so the next
      run tries them again. Only units whose file exists are applied. */
  lemma {:induction false} RecordedIffAppliedOrSkipped(files: seq<string>, history: set<string>, store: Store)
    ensures RecordedExactly(ApplyAll(files, history, store).history, ApplyAll(files, history, store).steps)
    ensures AppliedFilesExist(store, ApplyAll(files, history, store).steps)
    decreases |files|
  {
    if files != [] {
      Unfold(files, history, store);
      var step := Visit(files[0], history, store);
      if !step.Failed? {
        var history' := if step.Applied? then history + {files[0]} else history;
        var rest := ApplyAll(files[1..], history', store);
        RecordedIffAppliedOrSkipped(files[1..], history', store);
        ConsRecorded(store, step, history, history', rest);
      }
    }
  }

  lemma ConsRecorded(store: Store, step: Step, history: set<string>, history': set<string>, rest: Migration)
    requires !step.Failed?
    requires step.AlreadyApplied? <==> step.name in history
    requires step.Applied? ==> store.fileExists(step.name)
    requires step.FileMissing? ==> !store.fileExists(step.name)
    requires history' == if step.Applied? then history + {step.name} else history
    requires RecordsApplied(history', rest)
    requires RecordedExactly(rest.history, rest.steps)
    requires AppliedFilesExist(store, rest.steps)
    ensures RecordedExactly(rest.history, [step] + rest.steps)
    ensures AppliedFilesExist(store, [step] + rest.steps)
  {
    var s := [step] + rest.steps;
    forall i | 0 < i < |s| ensures s[i] == rest.steps[i - 1] { }
  }

  /** No applied unit was recorded before, and no two applied units share a name. */
  predicate AppliedFresh(history: set<string>, steps: seq<Step>) {
    && (forall i :: 0 <= i < |steps| && steps[i].Applied? ==> steps[i].name !in history)
    && (forall i, j :: 0 <= i < j < |steps| && steps[i].Applied? && steps[j].Applied? ==>
          steps[i].name != steps[j].name)
  }

  /** The `UNIQUE` history column is never violated: every applied unit was absent
      from the history it started from, and no unit is applied twice in one run. */
  lemma {:induction false} AppliedAtMostOnce(files: seq<string>, history: set<string>, store: Store)
    ensures AppliedFresh(history, ApplyAll(files, history, store).steps)
    decreases |files|
  {
    if files != [] {
      Unfold(files, history, store);
      var step := Visit(files[0], history, store);
      if !step.Failed? {
        var history' := if step.Applied? then history + {files[0]} else history;
        var rest := ApplyAll(files[1..], history', store);
        AppliedAtMostOnce(files[1..], history', store);
        ConsFresh(step, history, history', rest.steps);
      }
    }
  }

  lemma ConsFresh(step: Step, history: set<string>, history': set<string>, rest: seq<Step>)
    requires step.Applied? ==> step.name !in history
    requires history' == if step.Applied? then history + {step.name} else history
    requires AppliedFresh(history', rest)
    ensures AppliedFresh(history, [step] + rest)
  {
    var s := [step] + rest;
    forall i | 0 < i < |s| ensures s[i] == rest[i - 1] { }
  }

  /** The visited units are skipped as already applied exactly when `history` records them. */
  predicate SkipsExactly(files: seq<string>, history: set<string>, steps: seq<Step>) {
    |steps| <= |files| && forall i :: 0 <= i < |steps| ==> (steps[i].AlreadyApplied? <==> files[i] in history)
  }

  /** With a list that names every unit once, a unit is skipped as already applied
      exactly when the history the run started from records it. */
  lemma {:induction false} SkippedIffInHistory(files: seq<string>, history: set<string>, store: Store)
    requires Distinct(files)
    ensures SkipsExactly(files, history, ApplyAll(files, history, store).steps)
    decreases |files|
  {
    if files != [] {
      Unfold(files, history, store);
      var step := Visit(files[0], history, store);
      if !step.Failed? {
        var history' := if step.Applied? then history + {files[0]} else history;
        var rest := ApplyAll(files[1..], history', store);
        SkippedIffInHistory(files[1..], history', store);
        ConsSkipped(files, step, history, history', rest.steps);
      }
    }
  }

  lemma ConsSkipped(files: seq<string>, step: Step, history: set<string>, history': set<string>, rest: seq<Step>)
    requires files != [] && files[0] !in files[1..]
    requires step.AlreadyApplied? <==> files[0] in history
    requires history' == if step.Applied? then history + {files[0]} else history
    requires SkipsExactly(files[1..], history', rest)
    ensures SkipsExactly(files, history, [step] + rest)
  {
    var s := [step] + rest;
    forall i | 0 < i < |s| ensures s[i].AlreadyApplied? <==> files[i] in history {
      assert s[i] == rest[i - 1];
      assert files[i] == files[1..][i - 1];
    }
  }

  /** Each visited unit's step is what the loop body gives against the history the run
      started from. */
  predicate VisitedAgainst(files: seq<string>, history: set<string>, store: Store, steps: seq<Step>) {
    |steps| <= |files| && forall i {:trigger steps[i]} :: 0 <= i < |steps| ==> steps[i] == Visit(files[i], history, store)
  }

  /** With a list that names every unit once, what the run did to a unit depends only on
      the starting history and the store's answers for that unit: applying earlier units
      never changes how a later one is treated. */
  lemma {:induction false} StepsAgainstStartingHistory(files: seq<string>, history: set<string>, store: Store)
    requires Distinct(files)
    ensures VisitedAgainst(files, history, store, ApplyAll(files, history, store).steps)
    decreases |files|
  {
    if files != [] {
      Unfold(files, history, store);
      var step := Visit(files[0], history, store);
      if step.Failed? {
        assert [step][0] == step;
      } else {
        var history' := if step.Applied? then history + {files[0]} else history;
        var rest := ApplyAll(files[1..], history', store);
        StepsAgainstStartingHistory(files[1..], history', store);
        ConsAgainst(files, step, history, history', store, rest.steps);
      }
    }
  }

  lemma ConsAgainst(files: seq<string>, step: Step, history: set<string>, history': set<string>,
                    store: Store, rest: seq<Step>)
    requires files != [] && files[0] !in files[1..]
    requires step == Visit(files[0], history, store)
    requires history' == if step.Applied? then history + {files[0]} else history
    requires VisitedAgainst(files[1..], history', store, rest)
    ensures VisitedAgainst(files, history, store, [step] + rest)
  {
    var s := [step] + rest;
    forall i | 0 < i < |s| ensures s[i] == Visit(files[i], history, store) {
      assert s[i] == rest[i - 1];
      assert files[i] == files[1..][i - 1];
      assert files[i] in history' <==> files[i] in history;
    }
  }

  /** A unit fails the run exactly when it had no history row, its file exists, and reading
      it or executing its statements raises; it is applied exactly when it had no row, its
      file exists and reading and executing return normally. */
  lemma {:induction false} FailedIffUnitRaised(files: seq<string>, history: set<string>, store: Store)
    requires Distinct(files)
    ensures var r := ApplyAll(files, history, store);
            forall i {:trigger r.steps[i]} :: 0 <= i < |r.steps| ==>
              && (r.steps[i].Failed? <==> files[i] !in history && UnitFails(store, files[i]))
              && (r.steps[i].Applied? <==> files[i] !in history && store.fileExists(files[i]) && !UnitFails(store, files[i]))
  {
    StepsAgainstStartingHistory(files, history, store);
  }

  /** The loop finishes without raising exactly when no declared unit without a history
      row fails to be read or executed. */
  lemma {:induction false} SucceedsIffNoPendingUnitFails(files: seq<string>, history: set<string>, store: Store)
    requires Distinct(files)
    ensures ApplyAll(files, history, store).ok <==>
              forall n :: n in files && n !in history ==> !UnitFails(store, n)
  {
    var r := ApplyAll(files, history, store);
    StepsAgainstStartingHistory(files, history, store);
    if r.ok {
      forall n | n in files && n !in history ensures !UnitFails(store, n) {
        var i :| 0 <= i < |files| && files[i] == n;
        assert r.steps[i] == Visit(n, history, store);
      }
    } else {
      var k := |r.steps| - 1;
      assert r.steps[k] == Visit(files[k], history, store);
      assert files[k] in files;
    }
  }

  /** `run_migrations` returns `True` exactly when the history table could be set up,
      no pending unit fails to be read or executed, and closing the connection afterwards
      returns normally. */
  lemma {:induction false} RunSucceedsIffNoPendingUnitFails(files: seq<string>, history: set<string>, store: Store)
    requires Distinct(files)
    ensures RunMigrations(files, history, store).ok <==>
              && store.setupOk
              && (forall n :: n in files && n !in history ==> !UnitFails(store, n))
              && store.closeOk
  {
    if store.setupOk {
      SucceedsIffNoPendingUnitFails(files, history, store);
    }
  }

  /** Partial-failure recovery: after a run that stopped at a failed unit or passed a
      missing one, a later run against a repaired store skips every unit the first run
      recorded and attempts that unit again. */
  lemma {:induction false} RetryAfterFailure(files: seq<string>, history: set<string>, first: Store, second: Store, k: nat)
    requires Distinct(files)
    requires k < |RunMigrations(files, history, first).steps|
    requires !RunMigrations(files, history, first).steps[k].AlreadyApplied?
    requires !RunMigrations(files, history, first).steps[k].Applied?
    ensures var r1 := RunMigrations(files, history, first);
            var r2 := RunMigrations(files, r1.history, second);
            && (k < |r2.steps| ==> !r2.steps[k].AlreadyApplied?)
            && (forall i {:trigger r2.steps[i]} :: 0 <= i < |r2.steps| && i < |r1.steps| && (r1.steps[i].Applied? || r1.steps[i].AlreadyApplied?) ==>
                  r2.steps[i].AlreadyApplied?)
  {
    var r1 := RunMigrations(files, history, first);
    var r2 := RunMigrations(files, r1.history, second);
    assert r1.history == ApplyAll(files, history, first).history;
    assert r1.steps == ApplyAll(files, history, first).steps;
    RecordedIffAppliedOrSkipped(files, history, first);
    if second.setupOk {
      assert r2.steps == ApplyAll(files, r1.history, second).steps;
      SkippedIffInHistory(files, r1.history, second);
    }
  }

  /** Units already recorded are never looked at: the run does not depend on what the
      store would say about their files or their statements. */
  lemma {:induction false} RecordedUnitsAreNotRead(files: seq<string>, history: set<string>, s1: Store, s2: Store)
    requires forall n :: n in files && n !in history ==>
               s1.fileExists(n) == s2.fileExists(n) && s1.read(n) == s2.read(n)
    requires forall n :: n in files && n !in history && s1.read(n).Some? ==>
               s1.execute(s1.read(n).value) == s2.execute(s1.read(n).value)
    ensures ApplyAll(files, history, s1) == ApplyAll(files, history, s2)
    decreases |files|
  {
    if files != [] {
      assert files[0] in files;
      var step := Visit(files[0], history, s1);
      assert step == Visit(files[0], history, s2);
      var history' := if step.Applied? then history + {files[0]} else history;
      forall n | n in files[1..] ensures n in files { }
      RecordedUnitsAreNotRead(files[1..], history', s1, s2);
    }
  }
}
