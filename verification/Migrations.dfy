/**
 * Database migrations: the pending scripts run in the order of their sorted file names, each in a transaction that
 * also records its version, until one fails.
 */
module Migrations {
  import opened Options

  type Version = string

  /** The versions recorded as applied, and the scripts whose effects are in the database, in order. */
  datatype Database = Database(applied: set<Version>, log: seq<File>)

  /** A script with the version derived from its base name; scripts in different directories can share a version. */
  datatype File = File(path: string, version: Version)

  /**
   * What becomes of one migration: it fails and is rolled back, or the failure of its commit hides that it went
   * through.
   */
  datatype Attempt = Succeeds | Fails(committed: bool)

  /** The version is the primary key of the table of applied versions. */
  function ApplyMigration(db: Database, f: File, a: Attempt): (Database, bool) {
    if f.version in db.applied then (db, false)
    else
      (if a.Succeeds? || a.committed then Database(db.applied + {f.version}, db.log + [f]) else db, a.Succeeds?)
  }

  /** A script and its record take effect together or not at all: in particular a rolled-back attempt leaves nothing. */
  lemma ApplyMeaning(db: Database, f: File, a: Attempt)
    ensures var (db', ok) := ApplyMigration(db, f, a);
            && (ok <==> f.version !in db.applied && a == Succeeds)
            && (db' == db || (db'.applied == db.applied + {f.version} && db'.log == db.log + [f]))
            && (db' == db <==> f.version in db.applied || a == Fails(false))
  {
    assert |db.log + [f]| != |db.log|;
  }

  /** A run succeeds exactly if every attempt that it gets to does. */
  lemma {:induction false} RunStopsAtFailure(db: Database, known: set<Version>, files: seq<File>,
                                             attempts: seq<Attempt>)
    requires |attempts| == |files| && Fresh(Pending(files, known), db)
    ensures RunFrom(db, known, files, attempts).1 <==>
            forall i :: 0 <= i < |files| && files[i].version !in known ==> attempts[i] == Succeeds
    decreases |files|
  {
    if files != [] {
      var f, rest := files[0], Pending(files[1..], known);
      if f.version in known {
        assert Pending(files, known) == rest;
        RunStopsAtFailure(db, known, files[1..], attempts[1..]);
      } else {
        assert Pending(files, known) == [f] + rest;
        FreshStep(db, f, rest);
        var (db', ok) := ApplyMigration(db, f, attempts[0]);
        if ok {
          RunStopsAtFailure(db', known, files[1..], attempts[1..]);
        }
      }
      assert forall i :: 0 < i < |files| ==> files[i] == files[1..][i - 1] && attempts[i] == attempts[1..][i - 1];
    }
  }

  /**
   * RunMigrations over the sorted files. `known` are the versions that were recorded when the run began;
   * `attempts` has an answer for each file.
   */
  function RunFrom(db: Database, known: set<Version>, files: seq<File>, attempts: seq<Attempt>): (Database, bool)
    requires |attempts| == |files|
    decreases |files|
  {
    if files == [] then (db, true)
    else if files[0].version in known then RunFrom(db, known, files[1..], attempts[1..])
    else
      var (db', ok) := ApplyMigration(db, files[0], attempts[0]);
      if ok then RunFrom(db', known, files[1..], attempts[1..]) else (db', false)
  }

  function Run(db: Database, files: seq<File>, attempts: seq<Attempt>): (Database, bool)
    requires |attempts| == |files|
  {
    RunFrom(db, db.applied, files, attempts)
  }

  function NoFailures(n: nat): seq<Attempt> {
    seq(n, _ => Succeeds)
  }

  /** The scripts that are not recorded, in order. */
  function Pending(files: seq<File>, applied: set<Version>): seq<File> {
    if files == [] then []
    else (if files[0].version in applied then [] else [files[0]]) + Pending(files[1..], applied)
  }

  predicate DistinctVersions(files: seq<File>) {
    forall i, j :: 0 <= i < j < |files| ==> files[i].version != files[j].version
  }

  function Versions(files: seq<File>): set<Version> {
    set f | f in files :: f.version
  }

  // ----- The object -----

  class MigrationManager {
    var applied: set<Version>
    ghost var log: seq<File>

    ghost function View(): Database
      reads this
    {
      Database(applied, log)
    }

    constructor ()
      ensures View() == Database({}, [])
    {
      applied, log := {}, [];
    }

    method ApplyOne(f: File, a: Attempt) returns (ok: bool)
      modifies this
      ensures (View(), ok) == ApplyMigration(old(View()), f, a)
    {
      if f.version in applied {
        return false;
      }
      if a.Succeeds? || a.committed {
        applied := applied + {f.version};
        log := log + [f];
      }
      ok := a.Succeeds?;
    }

    method RunMigrations(files: seq<File>, attempts: seq<Attempt>) returns (ok: bool)
      requires |attempts| == |files|
      modifies this
      ensures (View(), ok) == Run(old(View()), files, attempts)
    {
      var known := applied;
      for i := 0 to |files|
        invariant RunFrom(View(), known, files[i..], attempts[i..]) == Run(old(View()), files, attempts)
      {
        assert files[i..][1..] == files[i + 1..] && attempts[i..][1..] == attempts[i + 1..];
        if files[i].version in known {
          continue;
        }
        var done := ApplyOne(files[i], attempts[i]);
        if !done {
          return false;
        }
      }
      ok := true;
    }
  }

  // ----- What a run does -----

  /** The scripts to run are new to the database and have different versions. */
  ghost predicate Fresh(todo: seq<File>, db: Database) {
    && (forall i :: 0 <= i < |todo| ==> todo[i].version !in db.applied)
    && DistinctVersions(todo)
  }

  /** The database after the first `k` of the scripts. */
  ghost function WithFirst(db: Database, todo: seq<File>, k: nat): Database
    requires k <= |todo|
  {
    Database(db.applied + Versions(todo[..k]), db.log + todo[..k])
  }

  predicate AllSucceed(attempts: seq<Attempt>) {
    forall i :: 0 <= i < |attempts| ==> attempts[i].Succeeds?
  }

  lemma WithFirstStep(db: Database, f: File, rest: seq<File>, k: nat)
    requires k <= |rest|
    ensures WithFirst(db, [f] + rest, k + 1) == WithFirst(Database(db.applied + {f.version}, db.log + [f]), rest, k)
  {
    assert ([f] + rest)[..k + 1] == [f] + rest[..k];
    assert db.log + [f] + rest[..k] == db.log + ([f] + rest[..k]);
    VersionsCons(f, rest[..k]);
  }

  lemma FreshStep(db: Database, f: File, rest: seq<File>)
    requires Fresh([f] + rest, db)
    ensures f.version !in db.applied
    ensures Fresh(rest, db) && Fresh(rest, Database(db.applied + {f.version}, db.log + [f]))
  {
    var todo := [f] + rest;
    assert todo[0] == f;
    assert forall i :: 0 <= i < |rest| ==> rest[i] == todo[i + 1];
  }

  /**
   * A run applies the first `k` pending scripts, each once and in order, and records exactly those. It stops early
   * only with an error, and never when every attempt succeeds.
   */
  lemma {:induction false} RunAppliesPrefix(db: Database, known: set<Version>, files: seq<File>, attempts: seq<Attempt>)
    returns (k: nat)
    requires |attempts| == |files| && Fresh(Pending(files, known), db)
    ensures k <= |Pending(files, known)|
    ensures RunFrom(db, known, files, attempts).0 == WithFirst(db, Pending(files, known), k)
    ensures RunFrom(db, known, files, attempts).1 ==> k == |Pending(files, known)|
    ensures AllSucceed(attempts) ==> RunFrom(db, known, files, attempts).1
    decreases |files|
  {
    if files == [] {
      k := 0;
    } else {
      var rest := Pending(files[1..], known);
      var f := files[0];
      if f.version in known {
        assert Pending(files, known) == rest;
        k := RunAppliesPrefix(db, known, files[1..], attempts[1..]);
      } else {
        assert Pending(files, known) == [f] + rest;
        FreshStep(db, f, rest);
        var (db', ok) := ApplyMigration(db, f, attempts[0]);
        WithFirstStep(db, f, rest, 0);
        if ok {
          k := RunAppliesPrefix(db', known, files[1..], attempts[1..]);
          WithFirstStep(db, f, rest, k);
          k := k + 1;
        } else {
          k := if attempts[0] == Fails(true) then 1 else 0;
        }
      }
    }
  }

  /** What is pending after the first `k` pending scripts were recorded is the rest. */
  lemma {:induction false} PendingAfterPrefix(files: seq<File>, applied: set<Version>, k: nat)
    requires k <= |Pending(files, applied)| && DistinctVersions(Pending(files, applied))
    ensures Pending(files, applied + Versions(Pending(files, applied)[..k])) == Pending(files, applied)[k..]
    decreases |files|
  {
    var todo := Pending(files, applied);
    var more := Versions(todo[..k]);
    if files != [] {
      var f, rest := files[0], Pending(files[1..], applied);
      if f.version in applied {
        assert todo == rest;
        PendingAfterPrefix(files[1..], applied, k);
      } else if k == 0 {
        assert todo[..0] == [] && applied + more == applied;
      } else {
        DistinctTail(f, rest);
        PendingAfterPrefix(files[1..], applied, k - 1);
        PendingIgnoresAdded(files, f, applied, rest, k);
      }
    }
  }

  lemma DistinctTail(f: File, rest: seq<File>)
    requires DistinctVersions([f] + rest)
    ensures DistinctVersions(rest) && forall i :: 0 <= i < |rest| ==> rest[i].version != f.version
  {
    var todo := [f] + rest;
    assert todo[0] == f && forall i :: 0 <= i < |rest| ==> rest[i] == todo[i + 1];
  }

  lemma VersionsCons(f: File, rest: seq<File>)
    ensures Versions([f] + rest) == {f.version} + Versions(rest)
  {
    assert f in [f] + rest;
    assert forall g :: g in [f] + rest <==> g == f || g in rest;
  }

  /** Recording the first `k` of the pending scripts, the first of which is the head of the files. */
  lemma PendingIgnoresAdded(files: seq<File>, f: File, applied: set<Version>, rest: seq<File>, k: nat)
    requires files != [] && f == files[0] && f.version !in applied
    requires rest == Pending(files[1..], applied) && 0 < k <= |rest| + 1
    requires Pending(files[1..], applied + Versions(rest[..k - 1])) == rest[k - 1..]
    requires forall i :: 0 <= i < |rest| ==> rest[i].version != f.version
    ensures Pending(files, applied + Versions(([f] + rest)[..k])) == ([f] + rest)[k..]
  {
    VersionsCons(f, rest[..k - 1]);
    assert ([f] + rest)[..k] == [f] + rest[..k - 1] && ([f] + rest)[k..] == rest[k - 1..];
    var recorded := applied + Versions(rest[..k - 1]);
    assert applied + Versions(([f] + rest)[..k]) == recorded + {f.version};
    PendingIgnores(files[1..], recorded, f.version);
  }

  /** A version that no pending script has can be recorded without effect. */
  lemma {:induction false} PendingIgnores(files: seq<File>, applied: set<Version>, v: Version)
    requires forall i :: 0 <= i < |Pending(files, applied)| ==> Pending(files, applied)[i].version != v
    ensures Pending(files, applied + {v}) == Pending(files, applied)
    decreases |files|
  {
    if files != [] {
      var todo, rest := Pending(files, applied), Pending(files[1..], applied);
      if files[0].version !in applied {
        assert todo == [files[0]] + rest && todo[0] == files[0];
        assert forall i :: 0 <= i < |rest| ==> rest[i] == todo[i + 1];
      } else {
        assert todo == rest;
      }
      PendingIgnores(files[1..], applied, v);
    }
  }

  // ----- Resuming -----

  /** A history of runs, each over the same files. */
  function RunMany(db: Database, files: seq<File>, runs: seq<seq<Attempt>>): Database
    requires forall i :: 0 <= i < |runs| ==> |runs[i]| == |files|
    decreases |runs|
  {
    if runs == [] then db else RunMany(Run(db, files, runs[0]).0, files, runs[1..])
  }

  lemma PendingIsFresh(files: seq<File>, db: Database)
    requires DistinctVersions(Pending(files, db.applied))
    ensures Fresh(Pending(files, db.applied), db)
  {
    NonePendingApplied(files, db.applied);
  }

  lemma {:induction false} NonePendingApplied(files: seq<File>, applied: set<Version>)
    ensures forall i :: 0 <= i < |Pending(files, applied)| ==> Pending(files, applied)[i].version !in applied
    decreases |files|
  {
    if files != [] {
      NonePendingApplied(files[1..], applied);
    }
  }

  /** One run, whatever fails in it, splits the pending scripts into those applied and those still pending. */
  lemma OneRun(db: Database, files: seq<File>, attempts: seq<Attempt>) returns (k: nat)
    requires |attempts| == |files| && DistinctVersions(Pending(files, db.applied))
    ensures var todo := Pending(files, db.applied);
            && k <= |todo| && Run(db, files, attempts).0 == WithFirst(db, todo, k)
            && Pending(files, Run(db, files, attempts).0.applied) == todo[k..]
            && (AllSucceed(attempts) ==> Run(db, files, attempts).1 && k == |todo|)
  {
    PendingIsFresh(files, db);
    k := RunAppliesPrefix(db, db.applied, files, attempts);
    PendingAfterPrefix(files, db.applied, k);
  }

  lemma WithRest(db: Database, todo: seq<File>, k: nat)
    requires k <= |todo|
    ensures WithFirst(WithFirst(db, todo, k), todo[k..], |todo| - k) == WithFirst(db, todo, |todo|)
  {
    assert todo[k..][..|todo| - k] == todo[k..] && todo[..|todo|] == todo == todo[..k] + todo[k..];
    assert db.log + todo[..k] + todo[k..] == db.log + todo;
    assert Versions(todo) == Versions(todo[..k]) + Versions(todo[k..]) by {
      assert forall f :: f in todo <==> f in todo[..k] || f in todo[k..];
    }
  }

  lemma {:induction false} RunsThenCleanRun(db: Database, files: seq<File>, runs: seq<seq<Attempt>>)
    requires DistinctVersions(Pending(files, db.applied))
    requires forall i :: 0 <= i < |runs| ==> |runs[i]| == |files|
    ensures var todo := Pending(files, db.applied);
            Run(RunMany(db, files, runs), files, NoFailures(|files|)) == (WithFirst(db, todo, |todo|), true)
    decreases |runs|
  {
    var todo := Pending(files, db.applied);
    hide Run, Pending;
    if runs == [] {
      var k := OneRun(db, files, NoFailures(|files|));
    } else {
      assert |runs[0]| == |files|;
      hide WithFirst;
      var k := OneRun(db, files, runs[0]);
      assert DistinctVersions(todo[k..]);
      RunsThenCleanRun(Run(db, files, runs[0]).0, files, runs[1..]);
      WithRest(db, todo, k);
    }
  }

  /**
   * Whatever failed, and however often, one clean run afterwards leaves the database as one clean run at the start
   * would have: every pending script applied exactly once, in order.
   */
  lemma ResumeEqualsCleanRun(db: Database, files: seq<File>, runs: seq<seq<Attempt>>)
    requires DistinctVersions(Pending(files, db.applied))
    requires forall i :: 0 <= i < |runs| ==> |runs[i]| == |files|
    ensures var todo := Pending(files, db.applied);
            var (end, ok) := Run(RunMany(db, files, runs), files, NoFailures(|files|));
            && (end, ok) == Run(db, files, NoFailures(|files|))
            && ok && end.log == db.log + todo && end.applied == db.applied + Versions(todo)
  {
    RunsThenCleanRun(db, files, runs);
    RunsThenCleanRun(db, files, []);
    var todo := Pending(files, db.applied);
    assert todo[..|todo|] == todo;
  }

  // ----- Duplicate versions -----

  /** Without failures of its own, a run succeeds if and only if no two pending scripts share a version. */
  lemma CleanRunNeedsDistinctVersions(db: Database, files: seq<File>)
    ensures Run(db, files, NoFailures(|files|)).1 <==> DistinctVersions(Pending(files, db.applied))
  {
    if DistinctVersions(Pending(files, db.applied)) {
      PendingIsFresh(files, db);
      var k := RunAppliesPrefix(db, db.applied, files, NoFailures(|files|));
    } else if Run(db, files, NoFailures(|files|)).1 {
      SuccessMeansDistinct(db, db.applied, files);
    }
  }

  lemma {:induction false} SuccessMeansDistinct(db: Database, known: set<Version>, files: seq<File>)
    requires RunFrom(db, known, files, NoFailures(|files|)).1
    ensures Fresh(Pending(files, known), db)
    decreases |files|
  {
    if files != [] {
      var f, rest := files[0], Pending(files[1..], known);
      assert NoFailures(|files|)[1..] == NoFailures(|files[1..]|);
      if f.version in known {
        assert Pending(files, known) == rest;
        SuccessMeansDistinct(db, known, files[1..]);
      } else {
        SuccessMeansDistinct(Database(db.applied + {f.version}, db.log + [f]), known, files[1..]);
        var todo := Pending(files, known);
        assert todo == [f] + rest;
        assert forall i :: 0 < i < |todo| ==> todo[i] == rest[i - 1];
      }
    }
  }

  /** The first script of that version. */
  function FirstOf(files: seq<File>, v: Version): Option<File> {
    if files == [] then None else if files[0].version == v then Some(files[0]) else FirstOf(files[1..], v)
  }

  lemma {:induction false} OnlyFirstIsRun(db: Database, known: set<Version>, files: seq<File>, attempts: seq<Attempt>,
                                          f: File)
    requires |attempts| == |files| && f !in db.log
    requires f.version in known || f.version in db.applied || FirstOf(files, f.version) != Some(f)
    ensures f !in RunFrom(db, known, files, attempts).0.log
    decreases |files|
  {
    if files != [] {
      if files[0].version in known {
        OnlyFirstIsRun(db, known, files[1..], attempts[1..], f);
      } else {
        var (db', ok) := ApplyMigration(db, files[0], attempts[0]);
        if ok {
          OnlyFirstIsRun(db', known, files[1..], attempts[1..], f);
        }
      }
    }
  }

  /**
   * Of the scripts with one version only the first is ever applied, whatever runs there are and whatever fails in them.
   */
  lemma {:induction false} SecondOfTwoIsLost(db: Database, files: seq<File>, runs: seq<seq<Attempt>>, f: File)
    requires forall i :: 0 <= i < |runs| ==> |runs[i]| == |files|
    requires FirstOf(files, f.version) != Some(f) && f !in db.log
    ensures f !in RunMany(db, files, runs).log
    decreases |runs|
  {
    if runs != [] {
      OnlyFirstIsRun(db, db.applied, files, runs[0], f);
      SecondOfTwoIsLost(Run(db, files, runs[0]).0, files, runs[1..], f);
    }
  }

  /** What FirstOf means: a script that another one of its version precedes is not the first. */
  lemma {:induction false} NotFirst(files: seq<File>, i: nat, j: nat)
    requires i < j < |files| && files[i].version == files[j].version && files[j] !in files[..j]
    ensures FirstOf(files, files[j].version) != Some(files[j])
  {
    if i > 0 && files[0].version != files[j].version {
      assert files[1..][..j - 1] == files[..j][1..];
      assert files[1..][j - 1] == files[j];
      NotFirst(files[1..], i - 1, j - 1);
    } else {
      assert files[0] in files[..j];
    }
  }

  /** With two such scripts the first run fails on the second one, and the next run skips it and reports success. */
  lemma RerunReportsSuccess(a: File, b: File, db: Database)
    requires a.version == b.version && a.version !in db.applied
    ensures var first := Run(db, [a, b], NoFailures(2));
            var second := Run(first.0, [a, b], NoFailures(2));
            !first.1 && second.1 && first.0 == second.0 && second.0.log == db.log + [a]
  {
    var files := [a, b];
    assert files[1..] == [b] && files[1..][1..] == [];
    var db1 := Database(db.applied + {a.version}, db.log + [a]);
    var two := NoFailures(2);
    assert RunFrom(db, db.applied, files, two) == RunFrom(db1, db.applied, files[1..], two[1..]);
    assert RunFrom(db1, db.applied, files[1..], two[1..]) == (db1, false);
    assert RunFrom(db1, db1.applied, files, two) == RunFrom(db1, db1.applied, files[1..], two[1..]);
    assert RunFrom(db1, db1.applied, files[1..], two[1..]) == RunFrom(db1, db1.applied, files[1..][1..], two[1..][1..])
           == (db1, true);
  }
}
