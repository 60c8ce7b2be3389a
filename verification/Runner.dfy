/** runner.go: the runner, one transaction at a time against the stored history, and the loading of its migrations. */
module RunnerClass {
  import opened Basics
  import opened Migrations

  /** The product database. A transaction works on copies that replace the stored values when it commits. */
  class Database<S> {
    const exec: Exec<S>
    var schema: S
    var rows: map<int, Row>
    ghost var ran: seq<Ran>

    constructor (exec: Exec<S>, schema: S)
      ensures State() == Fresh(schema) && this.exec == exec
    {
      this.exec, this.schema, this.rows, this.ran := exec, schema, map[], [];
    }

    ghost function State(): Db<S>
      reads this
    {
      Db(schema, rows, ran)
    }

    method ApplyMigration(migration: Migration, fault: Fault) returns (error: Option<Error>)
      modifies this
      ensures Outcome(State(), error) == Apply(exec, old(State()), migration, fault)
    {
      ran := ran + [Applied(migration.version)];
      var tx := exec(migration.up, schema);
      if tx.None? { return Some(Failed); }
      if migration.version in rows { return Some(Failed); }
      var history := rows[migration.version := Row(migration.name, migration.checksum)];
      if fault.Refused? { return Some(Failed); }
      schema, rows := tx.value, history;
      error := if fault.Lost? then Some(Failed) else None;
    }

    method RollbackMigration(migration: Migration, fault: Fault) returns (error: Option<Error>)
      modifies this
      ensures Outcome(State(), error) == Rollback(exec, old(State()), migration, fault)
    {
      ran := ran + [RolledBack(migration.version)];
      var tx := exec(migration.down, schema);
      if tx.None? { return Some(Failed); }
      var history := rows - {migration.version};
      if fault.Refused? { return Some(Failed); }
      schema, rows := tx.value, history;
      error := if fault.Lost? then Some(Failed) else None;
    }
  }

  class Runner<S> {
    const db: Database<S>
    const migrations: seq<Migration>

    constructor (db: Database<S>, migrations: seq<Migration>)
      ensures this.db == db && this.migrations == migrations
    {
      this.db, this.migrations := db, migrations;
    }

    /** `ready` is false when the connection, the lock, the bootstrap or the reading of the history fails. */
    method Up(ready: bool, faults: seq<Fault>) returns (error: Option<Error>)
      modifies db
      ensures Outcome(db.State(), error)
           == if ready then Migrations.Up(db.exec, migrations, old(db.State()), faults)
              else Outcome(old(db.State()), Some(Unavailable))
    {
      if !ready { return Some(Unavailable); }
      var applied := db.rows;
      for i := 0 to |migrations|
        invariant Migrations.Up(db.exec, migrations, old(db.State()), faults)
               == UpFrom(db.exec, migrations, i, applied, db.State(), faults)
      {
        var migration := migrations[i];
        if migration.version in applied {
          var previous := applied[migration.version];
          if previous.checksum != migration.checksum || previous.name != migration.name { return Some(Changed); }
        } else {
          var failed := db.ApplyMigration(migration, FaultAt(faults, i));
          if failed.Some? { return failed; }
        }
      }
      error := None;
    }

    method Down(ready: bool, steps: int, faults: seq<Fault>) returns (error: Option<Error>)
      modifies db
      ensures Outcome(db.State(), error)
           == if steps > 0 && !ready then Outcome(old(db.State()), Some(Unavailable))
              else Migrations.Down(db.exec, migrations, steps, old(db.State()), faults)
    {
      if steps <= 0 { return Some(BadSteps); }
      if !ready { return Some(Unavailable); }
      var applied := Newest(db.rows.Keys);
      var count := Steps(steps, db.rows);
      var byVersion := ByVersion();
      var due := applied[..count];
      for i := 0 to count
        invariant Migrations.Down(db.exec, migrations, steps, old(db.State()), faults)
               == DownFrom(db.exec, migrations, due, i, db.State(), faults)
      {
        if applied[i] !in byVersion { return Some(Unknown); }
        var failed := db.RollbackMigration(byVersion[applied[i]], FaultAt(faults, i));
        if failed.Some? { return failed; }
      }
      error := None;
    }

    method ByVersion() returns (byVersion: map<int, Migration>)
      ensures forall v :: Find(migrations, v) == if v in byVersion then Some(byVersion[v]) else None
    {
      byVersion := map[];
      for i := 0 to |migrations|
        invariant forall v :: Find(migrations[..i], v) == if v in byVersion then Some(byVersion[v]) else None
      {
        assert migrations[..i + 1][..i] == migrations[..i];
        byVersion := byVersion[migrations[i].version := migrations[i]];
      }
      assert migrations[..|migrations|] == migrations;
    }
  }

  // ---- Loading ----

  datatype LoadError = Invalid | Duplicate | Empty

  predicate Ascending(ms: seq<Migration>) {
    forall i, j :: 0 <= i < j < |ms| ==> ms[i].version <= ms[j].version
  }

  function Insert(ms: seq<Migration>, m: Migration): (r: seq<Migration>)
    ensures multiset(r) == multiset(ms) + multiset{m}
  {
    if ms == [] || ms[|ms| - 1].version <= m.version then ms + [m]
    else
      assert ms == ms[..|ms| - 1] + [ms[|ms| - 1]];
      Insert(ms[..|ms| - 1], m) + [ms[|ms| - 1]]
  }

  lemma {:induction false} InsertAscends(ms: seq<Migration>, m: Migration)
    requires Ascending(ms)
    ensures Ascending(Insert(ms, m))
    decreases |ms|
  {
    if ms != [] && ms[|ms| - 1].version > m.version {
      var front, last := ms[..|ms| - 1], ms[|ms| - 1];
      InsertAscends(front, m);
      InsertBelow(front, m, Insert(front, m), last.version);
    }
  }

  lemma InsertBelow(front: seq<Migration>, m: Migration, r: seq<Migration>, bound: int)
    requires multiset(r) == multiset(front) + multiset{m}
    requires m.version <= bound && forall i :: 0 <= i < |front| ==> front[i].version <= bound
    ensures forall i :: 0 <= i < |r| ==> r[i].version <= bound
  {
    forall i | 0 <= i < |r|
      ensures r[i].version <= bound
    {
      assert r[i] in multiset(r);
      assert r[i] in multiset(front) || r[i] == m;
    }
  }

  /** Two entries of a list have one version. */
  ghost predicate Clash(ms: seq<Migration>) {
    exists i, j :: 0 <= i < j < |ms| && ms[i].version == ms[j].version
  }

  /** Reordering a list neither makes nor removes a clash. */
  lemma ClashStays(a: seq<Migration>, b: seq<Migration>, i: nat, j: nat)
    requires multiset(a) == multiset(b) && i < j < |a| && a[i].version == a[j].version
    ensures Clash(b)
  {
    var x, y := a[i], a[j];
    assert x in multiset(a) && y in multiset(a);
    if x == y {
      assert a == a[..j] + [x] + a[j + 1..];
      assert a[..j][i] == x;
      assert multiset(a)[x] >= 2;
      TwoPlaces(b, x);
    } else {
      var k :| 0 <= k < |b| && b[k] == x;
      var l :| 0 <= l < |b| && b[l] == y;
      assert k != l && b[if k < l then k else l].version == b[if k < l then l else k].version;
    }
  }

  lemma {:induction false} TwoPlaces(b: seq<Migration>, x: Migration)
    requires multiset(b)[x] >= 2
    ensures exists k, l :: 0 <= k < l < |b| && b[k] == x && b[l] == x
    decreases |b|
  {
    var n := |b| - 1;
    assert b == b[..n] + [b[n]];
    if b[n] == x {
      assert x in multiset(b[..n]);
      var k :| 0 <= k < n && b[..n][k] == x;
      assert b[k] == x && b[n] == x;
    } else {
      TwoPlaces(b[..n], x);
      var k, l :| 0 <= k < l < n && b[..n][k] == x && b[..n][l] == x;
      assert b[k] == x && b[l] == x;
    }
  }

  function Values(entries: seq<Option<Migration>>): (ms: seq<Migration>)
    requires forall i :: 0 <= i < |entries| ==> entries[i].Some?
    ensures |ms| == |entries|
  {
    seq(|entries|, i requires 0 <= i < |entries| => entries[i].value)
  }

  /** Neighbours of one version in an ascending list; when there are none, no two entries clash. */
  method HasDuplicate(migrations: seq<Migration>) returns (found: bool)
    requires Ascending(migrations)
    ensures found <==> Clash(migrations)
    ensures !found ==> Sorted(migrations)
  {
    var index := 1;
    while index < |migrations|
      invariant index >= 1
      invariant forall i, j :: 0 <= i < j < index && j < |migrations| ==> migrations[i].version < migrations[j].version
    {
      if migrations[index - 1].version == migrations[index].version { return true; }
      index := index + 1;
    }
    found := false;
  }

  lemma SameClash(a: seq<Migration>, b: seq<Migration>)
    requires multiset(a) == multiset(b)
    ensures Clash(a) <==> Clash(b)
  {
    if i, j :| 0 <= i < j < |a| && a[i].version == a[j].version { ClashStays(a, b, i, j); }
    if i, j :| 0 <= i < j < |b| && b[i].version == b[j].version { ClashStays(b, a, i, j); }
  }

  method ReadAll(entries: seq<Option<Migration>>) returns (r: Option<seq<Migration>>)
    ensures r.None? <==> exists i :: 0 <= i < |entries| && entries[i].None?
    ensures r.Some? ==> Ascending(r.value) && |r.value| == |entries| && multiset(r.value) == multiset(Values(entries))
  {
    var migrations: seq<Migration> := [];
    for i := 0 to |entries|
      invariant forall j :: 0 <= j < i ==> entries[j].Some?
      invariant Ascending(migrations) && multiset(migrations) == multiset(Values(entries[..i])) && |migrations| == i
    {
      if entries[i].None? { return None; }
      assert Values(entries[..i + 1]) == Values(entries[..i]) + [entries[i].value];
      InsertAscends(migrations, entries[i].value);
      migrations := Insert(migrations, entries[i].value);
      assert |migrations| == |multiset(migrations)|;
    }
    assert entries[..|entries|] == entries;
    r := Some(migrations);
  }

  /** Migrations from the files as read; `None` is a file whose name, version or down file is not usable. */
  method Load(entries: seq<Option<Migration>>) returns (r: Result<seq<Migration>, LoadError>)
    ensures r == Err(Invalid) <==> exists i :: 0 <= i < |entries| && entries[i].None?
    ensures r != Err(Invalid) ==> (r == Err(Duplicate) <==> Clash(Values(entries)))
    ensures r == Err(Empty) <==> entries == []
    ensures r.Ok? ==> Sorted(r.value) && r.value != [] && multiset(r.value) == multiset(Values(entries))
  {
    var all := ReadAll(entries);
    if all.None? { return Err(Invalid); }
    var duplicate := HasDuplicate(all.value);
    SameClash(all.value, Values(entries));
    if duplicate { return Err(Duplicate); }
    r := if |all.value| == 0 then Err(Empty) else Ok(all.value);
  }
}
