/** partner-sim/app/migrate.py: numbered SQL files, each applied in one transaction with its version number.
    A schema is a value of any type, and SQL any partial function on it. */
module Migrations {
  import opened Basics
  import Strings

  datatype Migration<Sql> = Migration(number: nat, name: string, statements: seq<Sql>)

  // What one SQL statement does to a schema; None is a SQLite error.
  type Engine<!Sql, !Schema> = (Sql, Schema) -> Option<Schema>

  function RunAll<Sql, Schema>(run: Engine<Sql, Schema>, statements: seq<Sql>, schema: Schema): Option<Schema> {
    if statements == [] then Some(schema)
    else
      var before := RunAll(run, statements[..|statements| - 1], schema);
      if before.None? then None else run(statements[|statements| - 1], before.value)
  }

  // Statements run one after the other, and the first error ends it.
  lemma {:induction false} StatementsRunInOrder<Sql, Schema>(
    run: Engine<Sql, Schema>, a: seq<Sql>, b: seq<Sql>, schema: Schema)
    ensures
      var between := RunAll(run, a, schema);
      RunAll(run, a + b, schema) == if between.None? then None else RunAll(run, b, between.value)
    ensures |a| == 1 ==> RunAll(run, a, schema) == run(a[0], schema)
  {
    if b == [] {
      assert a + b == a;
    } else {
      assert (a + b)[..|a + b| - 1] == a + b[..|b| - 1];
      StatementsRunInOrder(run, a, b[..|b| - 1], schema);
    }
    if |a| == 1 {
      assert RunAll(run, a[..0], schema) == Some(schema);
    }
  }

  // Files 1 to k in order, each once.
  function Upgraded<Sql, Schema>(
    run: Engine<Sql, Schema>, files: seq<Migration<Sql>>, k: nat, start: Schema): Option<Schema>
    requires k <= |files|
  {
    if k == 0 then Some(start)
    else
      var before := Upgraded(run, files, k - 1, start);
      if before.None? then None else RunAll(run, files[k - 1].statements, before.value)
  }

  // --- find_migrations -------------------------------------------------------------------------

  predicate IsNameChar(c: char) {
    'a' <= c <= 'z' || '0' <= c <= '9' || c == '_'
  }

  // NNNN_name.sql
  predicate IsFileName(name: string) {
    |name| >= 10 && Strings.AllDigits(name[..4]) && name[4] == '_' && name[|name| - 4..] == ".sql"
    && forall i :: 5 <= i < |name| - 4 ==> IsNameChar(name[i])
  }

  datatype File<Sql> = File(name: string, statements: seq<Sql>)

  function MigrationOf<Sql>(file: File<Sql>): Migration<Sql>
    requires IsFileName(file.name)
  {
    Migration(Strings.Value(file.name[..4]), file.name, file.statements)
  }

  // The numbers are 1, 2, 3, ... in this order.
  predicate IsNumbered<Sql>(files: seq<Migration<Sql>>) {
    forall i :: 0 <= i < |files| ==> files[i].number == i + 1
  }

  predicate IsSorted<Sql>(files: seq<Migration<Sql>>) {
    forall i, j :: 0 <= i < j < |files| ==> files[i].number <= files[j].number
  }

  // One step of `sort`: files with the same number are told apart by their names, which does not matter here, because
  // a repeated number is refused.
  function Inserted<Sql>(sorted: seq<Migration<Sql>>, m: Migration<Sql>): (r: seq<Migration<Sql>>)
    ensures |r| == |sorted| + 1
  {
    if sorted == [] || sorted[|sorted| - 1].number <= m.number then sorted + [m]
    else Inserted(sorted[..|sorted| - 1], m) + [sorted[|sorted| - 1]]
  }

  lemma {:induction false} InsertedHoldsTheSame<Sql>(sorted: seq<Migration<Sql>>, m: Migration<Sql>)
    ensures multiset(Inserted(sorted, m)) == multiset(sorted) + multiset{m}
    ensures forall x :: x in Inserted(sorted, m) ==> x in sorted || x == m
  {
    if sorted == [] || sorted[|sorted| - 1].number <= m.number {
    } else {
      var n := |sorted| - 1;
      InsertedHoldsTheSame(sorted[..n], m);
      assert sorted == sorted[..n] + [sorted[n]];
    }
  }

  lemma {:induction false} InsertedIsSorted<Sql>(sorted: seq<Migration<Sql>>, m: Migration<Sql>)
    requires IsSorted(sorted)
    ensures IsSorted(Inserted(sorted, m))
  {
    if sorted == [] || sorted[|sorted| - 1].number <= m.number {
    } else {
      var n := |sorted| - 1;
      var front := Inserted(sorted[..n], m);
      InsertedIsSorted(sorted[..n], m);
      InsertedHoldsTheSame(sorted[..n], m);
      assert forall i :: 0 <= i < |front| ==> front[i] in sorted[..n] || front[i] == m;
      assert forall i :: 0 <= i < |front| ==> front[i].number <= sorted[n].number;
    }
  }

  lemma WithoutTheLast<T>(a: seq<T>)
    requires |a| > 0
    ensures multiset(a[..|a| - 1]) == multiset(a) - multiset{a[|a| - 1]} && a == a[..|a| - 1] + [a[|a| - 1]]
  {
    var front, last := a[..|a| - 1], a[|a| - 1];
    assert a == front + [last];
    assert multiset(a) == multiset(front) + multiset{last};
  }

  lemma FrontsHoldTheSame<T>(a: seq<T>, b: seq<T>)
    requires multiset(a) == multiset(b) && |a| == |b| > 0 && a[|a| - 1] == b[|a| - 1]
    ensures multiset(a[..|a| - 1]) == multiset(b[..|a| - 1])
    ensures a[..|a| - 1] == b[..|a| - 1] ==> a == b
  {
    WithoutTheLast(a);
    WithoutTheLast(b);
  }

  lemma TheLastIsTheLast<Sql>(sorted: seq<Migration<Sql>>, numbered: seq<Migration<Sql>>)
    requires IsSorted(sorted) && IsNumbered(numbered) && |sorted| == |numbered| > 0
    requires multiset(sorted) == multiset(numbered)
    ensures sorted[|sorted| - 1] == numbered[|sorted| - 1]
  {
    var n := |sorted| - 1;
    assert sorted[n] in multiset(numbered) && numbered[n] in multiset(sorted);
    assert sorted[n] in numbered && numbered[n] in sorted;
    var i: nat :| i <= n && numbered[i] == sorted[n];
    var j: nat :| j <= n && sorted[j] == numbered[n];
  }

  lemma FrontsKeepOrder<Sql>(sorted: seq<Migration<Sql>>, numbered: seq<Migration<Sql>>)
    requires IsSorted(sorted) && IsNumbered(numbered) && |sorted| == |numbered| > 0
    ensures IsSorted(sorted[..|sorted| - 1]) && IsNumbered(numbered[..|sorted| - 1])
  {
  }

  // The same files, numbered 1, 2, 3, ... in one of the two lists and sorted in the other: the same list.
  lemma {:induction false} SortedIsNumbered<Sql>(sorted: seq<Migration<Sql>>, numbered: seq<Migration<Sql>>)
    requires IsSorted(sorted) && IsNumbered(numbered) && multiset(sorted) == multiset(numbered)
    ensures sorted == numbered
    decreases |sorted|
  {
    hide *;
    SameLength(sorted, numbered);
    if sorted != [] {
      FrontsKeepOrder(sorted, numbered);
      TheLastIsTheLast(sorted, numbered);
      FrontsHoldTheSame(sorted, numbered);
      SortedIsNumbered(sorted[..|sorted| - 1], numbered[..|sorted| - 1]);
    }
  }

  function Migrations<Sql>(directory: seq<File<Sql>>): seq<Migration<Sql>>
    requires forall i :: 0 <= i < |directory| ==> IsFileName(directory[i].name)
  {
    seq(|directory|, i requires 0 <= i < |directory| => MigrationOf(directory[i]))
  }

  ghost predicate CanBeNumbered<Sql(!new)>(directory: seq<File<Sql>>) {
    && (forall i :: 0 <= i < |directory| ==> IsFileName(directory[i].name))
    && exists files :: IsNumbered(files) && multiset(files) == multiset(Migrations(directory))
  }

  // The files of the folder in order, or an error exactly when there are none, one is misnamed, or their numbers are
  // not 1, 2, 3, ... each once.
  method FindMigrations<Sql(!new)>(directory: seq<File<Sql>>) returns (r: Result<seq<Migration<Sql>>>)
    ensures r.Ok? <==> directory != [] && CanBeNumbered(directory)
    ensures r.Ok? ==> IsNumbered(r.value) && multiset(r.value) == multiset(Migrations(directory))
  {
    var found: seq<Migration<Sql>> := [];
    var i := 0;
    while i < |directory|
      invariant 0 <= i <= |directory| && IsSorted(found) && |found| == i
      invariant forall k :: 0 <= k < i ==> IsFileName(directory[k].name)
      invariant multiset(found) == multiset(Migrations(directory[..i]))
    {
      if !IsFileName(directory[i].name) {
        return Thrown;
      }
      assert directory[..i + 1] == directory[..i] + [directory[i]];
      assert Migrations(directory[..i + 1]) == Migrations(directory[..i]) + [MigrationOf(directory[i])];
      InsertedHoldsTheSame(found, MigrationOf(directory[i]));
      InsertedIsSorted(found, MigrationOf(directory[i]));
      found := Inserted(found, MigrationOf(directory[i]));
      i := i + 1;
    }
    assert directory[..i] == directory;
    if found == [] {
      return Thrown;
    }
    var k := 0;
    while k < |found|
      invariant 0 <= k <= |found|
      invariant forall j :: 0 <= j < k ==> found[j].number == j + 1
    {
      if found[k].number != k + 1 {
        assert !IsNumbered(found);
        assert !CanBeNumbered(directory) by {
          if CanBeNumbered(directory) {
            var files :| IsNumbered(files) && multiset(files) == multiset(Migrations(directory));
            SortedIsNumbered(found, files);
          }
        }
        return Thrown;
      }
      k := k + 1;
    }
    assert IsNumbered(found) && CanBeNumbered(directory);
    return Ok(found);
  }

  // --- migrate ---------------------------------------------------------------------------------

  /** A SQLite file: its schema and its `user_version`. The application knows the files in `all`; one build of
      it knows the first few of them. */
  class Database<Sql, Schema> {
    const run: Engine<Sql, Schema>
    const all: seq<Migration<Sql>>
    const base: Schema // what the file held before its first migration
    var schema: Schema
    var userVersion: nat
    // The numbers of the files whose transaction was committed, in order.
    ghost var committed: seq<nat>

    ghost predicate Valid()
      reads this
    {
      && IsNumbered(all) && userVersion <= |all|
      && Upgraded(run, all, userVersion, base) == Some(schema)
      && committed == seq(userVersion, i => i + 1)
    }

    // A file that no migration has touched: a new one, or one from before there were migrations.
    constructor (run: Engine<Sql, Schema>, all: seq<Migration<Sql>>, base: Schema)
      requires IsNumbered(all)
      ensures Valid() && userVersion == 0 && schema == base
      ensures this.run == run && this.all == all && this.base == base
    {
      this.run, this.all, this.base := run, all, base;
      schema, userVersion, committed := base, 0, [];
    }

    // `_apply`: one script, statement by statement, in a transaction. The environment may make any statement fail
    // (`failsAt`), or the commit; a statement may fail on its own.
    method Apply(file: Migration<Sql>, failsAt: nat) returns (ok: bool)
      modifies this`schema, this`userVersion, this`committed
      ensures ok <==> failsAt > |file.statements| && RunAll(run, file.statements, old(schema)).Some?
      ensures ok ==> Some(schema) == RunAll(run, file.statements, old(schema))
      ensures ok ==> userVersion == file.number && committed == old(committed) + [file.number]
      ensures !ok ==> schema == old(schema) && userVersion == old(userVersion) && committed == old(committed)
    {
      var before := schema; // BEGIN IMMEDIATE
      var i := 0;
      while i < |file.statements|
        invariant 0 <= i <= |file.statements| && i <= failsAt
        invariant userVersion == old(userVersion) && committed == old(committed) && before == old(schema)
        invariant Some(schema) == RunAll(run, file.statements[..i], before)
      {
        var next := run(file.statements[i], schema);
        assert file.statements[..i + 1][..i] == file.statements[..i];
        if i == failsAt || next.None? {
          if next.None? {
            RunAllStops(run, file.statements, i + 1, before);
          }
          schema := before; // ROLLBACK
          return false;
        }
        schema := next.value;
        i := i + 1;
      }
      assert file.statements[..i] == file.statements;
      if failsAt == i {
        schema := before;
        return false;
      }
      userVersion := file.number;
      committed := committed + [file.number]; // COMMIT
      return true;
    }

    // `migrate`, by a build that knows the first `known` files. `failsAt` says where this start is interrupted.
    method Migrate(known: nat, failsAt: nat -> nat) returns (ok: bool)
      requires Valid() && known <= |all|
      modifies this`schema, this`userVersion, this`committed
      ensures Valid()
      // A database that is newer than the build is refused and left alone.
      ensures old(userVersion) > known ==>
        !ok && schema == old(schema) && userVersion == old(userVersion) && committed == old(committed)
      // Otherwise the version goes up, to the newest known file exactly when the start succeeds.
      ensures old(userVersion) <= known ==> old(userVersion) <= userVersion <= known && (ok <==> userVersion == known)
      // It fails only because a file was interrupted, or cannot be applied to this schema.
      ensures !ok && old(userVersion) <= known ==>
        var file := all[userVersion];
        failsAt(file.number) <= |file.statements| || RunAll(run, file.statements, schema).None?
    {
      if userVersion > known {
        return false;
      }
      var k := userVersion;
      while k < known
        invariant Valid() && k == userVersion && old(userVersion) <= k <= known
      {
        ghost var was := committed;
        var applied := Apply(all[k], failsAt(all[k].number));
        if !applied {
          return false;
        }
        assert committed == was + [k + 1] == seq(k + 1, i => i + 1);
        k := k + 1;
      }
      return true;
    }
  }

  lemma {:induction false} RunAllStops<Sql, Schema>(
    run: Engine<Sql, Schema>, statements: seq<Sql>, i: nat, schema: Schema)
    requires i <= |statements| && RunAll(run, statements[..i], schema).None?
    ensures RunAll(run, statements, schema).None?
    decreases |statements| - i
  {
    if i < |statements| {
      assert statements[..i + 1][..i] == statements[..i];
      RunAllStops(run, statements, i + 1, schema);
    } else {
      assert statements[..i] == statements;
    }
  }

  // A database from before there were migrations has the tables of file 1 and version 0. If file 1 changes nothing on
  // it, every later version has the same schema as on a new database.
  lemma {:induction false} OldDatabasesCatchUp<Sql, Schema>(
      run: Engine<Sql, Schema>, files: seq<Migration<Sql>>, k: nat, empty: Schema, unversioned: Schema)
    requires 1 <= k <= |files|
    requires RunAll(run, files[0].statements, empty) == Some(unversioned)
    requires RunAll(run, files[0].statements, unversioned) == Some(unversioned)
    ensures Upgraded(run, files, k, unversioned) == Upgraded(run, files, k, empty)
  {
    if k == 1 {
      assert Upgraded(run, files, 0, empty) == Some(empty);
      assert Upgraded(run, files, 0, unversioned) == Some(unversioned);
    } else {
      OldDatabasesCatchUp(run, files, k - 1, empty, unversioned);
    }
  }

  // The files a build knows are the first of those a later build knows, so both mean the same schema by a version.
  lemma {:induction false} BuildsAgree<Sql, Schema>(
      run: Engine<Sql, Schema>, files: seq<Migration<Sql>>, known: nat, k: nat, start: Schema)
    requires k <= known <= |files|
    ensures Upgraded(run, files[..known], k, start) == Upgraded(run, files, k, start)
  {
    if k > 0 {
      BuildsAgree(run, files, known, k - 1, start);
    }
  }
}
