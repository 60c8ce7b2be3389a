/** runner.go: what a migration run does to the schema and to the recorded history, as functions, and what stays true
    over every run of Up and Down. */
module Migrations {
  import opened Basics

  datatype Migration = Migration(version: int, name: string, up: string, down: string, checksum: string)

  datatype Row = Row(name: string, checksum: string)

  datatype Ran = Applied(version: int) | RolledBack(version: int)

  /** The database: its schema, the history table by version, and, for the proofs, the transactions tried. */
  datatype Db<S> = Db(schema: S, rows: map<int, Row>, ran: seq<Ran>)

  /** How a transaction ends: committed; not committed; committed although the caller sees an error. */
  datatype Fault = Fine | Refused | Lost

  datatype Error = Changed | Failed | Unknown | BadSteps | Unavailable

  /** What a script makes of a schema; `None` when it fails. */
  type Exec<!S> = (string, S) -> Option<S>

  datatype Outcome<S> = Outcome(db: Db<S>, error: Option<Error>)

  function FaultAt(faults: seq<Fault>, i: nat): Fault {
    if i < |faults| then faults[i] else Fine
  }

  function RowOf(m: Migration): Row {
    Row(m.name, m.checksum)
  }

  /** applyMigration: the up script and its row, or neither. */
  function Apply<S>(exec: Exec<S>, db: Db<S>, m: Migration, fault: Fault): Outcome<S> {
    var tried := db.(ran := db.ran + [Applied(m.version)]);
    var s := exec(m.up, db.schema);
    if fault.Refused? || s.None? || m.version in db.rows then Outcome(tried, Some(Failed))
    else Outcome(Db(s.value, db.rows[m.version := RowOf(m)], tried.ran), if fault.Lost? then Some(Failed) else None)
  }

  /** rollbackMigration: the down script and the end of its row, or neither. */
  function Rollback<S>(exec: Exec<S>, db: Db<S>, m: Migration, fault: Fault): Outcome<S> {
    var tried := db.(ran := db.ran + [RolledBack(m.version)]);
    var s := exec(m.down, db.schema);
    if fault.Refused? || s.None? then Outcome(tried, Some(Failed))
    else Outcome(Db(s.value, db.rows - {m.version}, tried.ran), if fault.Lost? then Some(Failed) else None)
  }

  /** Up from the `i`th migration on, `applied` being the history read at the start. */
  function UpFrom<S>(exec: Exec<S>, ms: seq<Migration>, i: nat, applied: map<int, Row>, db: Db<S>,
                     faults: seq<Fault>): Outcome<S>
    requires i <= |ms|
    decreases |ms| - i
  {
    if i == |ms| then Outcome(db, None)
    else if ms[i].version in applied then
      if applied[ms[i].version] != RowOf(ms[i]) then Outcome(db, Some(Changed))
      else UpFrom(exec, ms, i + 1, applied, db, faults)
    else
      var next := Apply(exec, db, ms[i], FaultAt(faults, i));
      if next.error.Some? then next else UpFrom(exec, ms, i + 1, applied, next.db, faults)
  }

  /** The migration of a version; the last one when several have it. */
  function Find(ms: seq<Migration>, version: int): (m: Option<Migration>)
    ensures m.Some? ==> m.value in ms && m.value.version == version
    ensures m.None? ==> forall i :: 0 <= i < |ms| ==> ms[i].version != version
  {
    if ms == [] then None
    else if ms[|ms| - 1].version == version then Some(ms[|ms| - 1])
    else Find(ms[..|ms| - 1], version)
  }

  /** Down from the `i`th of the recorded versions on. */
  function DownFrom<S>(exec: Exec<S>, ms: seq<Migration>, versions: seq<int>, i: nat, db: Db<S>,
                       faults: seq<Fault>): Outcome<S>
    requires i <= |versions|
    decreases |versions| - i
  {
    if i == |versions| then Outcome(db, None)
    else
      var m := Find(ms, versions[i]);
      if m.None? then Outcome(db, Some(Unknown))
      else
        var next := Rollback(exec, db, m.value, FaultAt(faults, i));
        if next.error.Some? then next else DownFrom(exec, ms, versions, i + 1, next.db, faults)
  }

  // ---- The history, newest first ----

  lemma {:induction false} HasMax(s: set<int>)
    ensures s == {} || exists m :: m in s && forall x :: x in s ==> x <= m
    decreases s
  {
    if exists y :: y in s {
      var y :| y in s;
      var rest := s - {y};
      HasMax(rest);
      if m :| m in rest && forall x :: x in rest ==> x <= m {
        var top := if y <= m then m else y;
        assert top in s && forall x :: x in s ==> x == y || x in rest;
      } else {
        assert s == {y};
      }
    } else {
      assert s == {};
    }
  }

  function Max(s: set<int>): (m: int)
    requires s != {}
    ensures m in s && forall x :: x in s ==> x <= m
  {
    HasMax(s);
    var m :| m in s && forall x :: x in s ==> x <= m;
    m
  }

  /** The versions of a history in descending order. */
  function Newest(versions: set<int>): (list: seq<int>)
    ensures |list| == |versions|
    decreases |versions|
  {
    if versions == {} then [] else [Max(versions)] + Newest(versions - {Max(versions)})
  }

  lemma {:induction false} NewestMembers(versions: set<int>, v: int)
    ensures v in Newest(versions) <==> v in versions
    decreases |versions|
  {
    if versions != {} {
      var max := Max(versions);
      NewestMembers(versions - {max}, v);
      assert Newest(versions) == [max] + Newest(versions - {max});
    }
  }

  lemma {:induction false} NewestDescends(versions: set<int>, i: nat, j: nat)
    requires i < j < |versions|
    ensures Newest(versions)[i] > Newest(versions)[j]
    decreases |versions|
  {
    var rest := versions - {Max(versions)};
    assert Newest(versions) == [Max(versions)] + Newest(rest);
    if i == 0 {
      NewestMembers(rest, Newest(rest)[j - 1]);
    } else {
      NewestDescends(rest, i - 1, j - 1);
    }
  }

  function Steps(steps: int, rows: map<int, Row>): nat {
    if steps > |rows| then |rows| else if steps < 0 then 0 else steps
  }

  function Up<S>(exec: Exec<S>, ms: seq<Migration>, db: Db<S>, faults: seq<Fault>): Outcome<S> {
    UpFrom(exec, ms, 0, db.rows, db, faults)
  }

  function Down<S>(exec: Exec<S>, ms: seq<Migration>, steps: int, db: Db<S>, faults: seq<Fault>): Outcome<S> {
    if steps <= 0 then Outcome(db, Some(BadSteps))
    else DownFrom(exec, ms, Newest(db.rows.Keys)[..Steps(steps, db.rows)], 0, db, faults)
  }

  // ---- Histories that are a prefix of the migrations ----

  predicate Sorted(ms: seq<Migration>) {
    forall i, j :: 0 <= i < j < |ms| ==> ms[i].version < ms[j].version
  }

  /** The history of a list of migrations. */
  function Recorded(ms: seq<Migration>): map<int, Row> {
    if ms == [] then map[] else Recorded(ms[..|ms| - 1])[ms[|ms| - 1].version := RowOf(ms[|ms| - 1])]
  }

  /** The schema after a list of migrations. */
  function Fold<S>(exec: Exec<S>, ms: seq<Migration>, initial: S): Option<S> {
    if ms == [] then Some(initial)
    else
      var before := Fold(exec, ms[..|ms| - 1], initial);
      if before.None? then None else exec(ms[|ms| - 1].up, before.value)
  }

  lemma {:induction false} RecordedHas(ms: seq<Migration>, k: nat, j: nat)
    requires j < k <= |ms| && Sorted(ms)
    ensures ms[j].version in Recorded(ms[..k]) && Recorded(ms[..k])[ms[j].version] == RowOf(ms[j])
    decreases k
  {
    assert ms[..k][..k - 1] == ms[..k - 1];
    if j < k - 1 { RecordedHas(ms, k - 1, j); }
  }

  lemma {:induction false} RecordedOnly(ms: seq<Migration>, k: nat, v: int)
    requires k <= |ms| && v in Recorded(ms[..k])
    ensures exists j :: 0 <= j < k && ms[j].version == v
    decreases k
  {
    assert ms[..k][..k - 1] == ms[..k - 1];
    if v != ms[k - 1].version { RecordedOnly(ms, k - 1, v); }
  }

  lemma {:induction false} RecordedSize(ms: seq<Migration>, k: nat)
    requires k <= |ms| && Sorted(ms)
    ensures |Recorded(ms[..k])| == k
    decreases k
  {
    if k > 0 {
      RecordedSize(ms, k - 1);
      assert ms[..k][..k - 1] == ms[..k - 1];
      var before, v := Recorded(ms[..k - 1]), ms[k - 1].version;
      if v in before { RecordedOnly(ms, k - 1, v); }
      assert Recorded(ms[..k]).Keys == before.Keys + {v};
    }
  }

  /** The history of the first `k` migrations holds exactly them. */
  lemma RecordedIs(ms: seq<Migration>, k: nat)
    requires k <= |ms| && Sorted(ms)
    ensures forall v :: v in Recorded(ms[..k]) ==> exists j :: 0 <= j < k && ms[j].version == v
    ensures forall j :: 0 <= j < k ==>
              ms[j].version in Recorded(ms[..k]) && Recorded(ms[..k])[ms[j].version] == RowOf(ms[j])
    ensures |Recorded(ms[..k])| == k
  {
    RecordedSize(ms, k);
    forall j | 0 <= j < k
      ensures ms[j].version in Recorded(ms[..k]) && Recorded(ms[..k])[ms[j].version] == RowOf(ms[j])
    {
      RecordedHas(ms, k, j);
    }
    forall v | v in Recorded(ms[..k])
      ensures exists j :: 0 <= j < k && ms[j].version == v
    {
      RecordedOnly(ms, k, v);
    }
  }

  lemma RecordedNot(ms: seq<Migration>, k: nat, i: nat)
    requires k <= i < |ms| && Sorted(ms)
    ensures ms[i].version !in Recorded(ms[..k])
  {
    RecordedIs(ms, k);
  }

  lemma RecordedNext(ms: seq<Migration>, k: nat)
    requires k < |ms|
    ensures Recorded(ms[..k + 1]) == Recorded(ms[..k])[ms[k].version := RowOf(ms[k])]
  {
    assert ms[..k + 1][..k] == ms[..k];
  }

  lemma RecordedBack(ms: seq<Migration>, k: nat)
    requires k < |ms| && Sorted(ms)
    ensures Recorded(ms[..k + 1]) - {ms[k].version} == Recorded(ms[..k])
  {
    RecordedNext(ms, k);
    RecordedNot(ms, k, k);
  }

  lemma MaxIs(ms: seq<Migration>, k: nat)
    requires 0 < k <= |ms| && Sorted(ms)
    ensures Recorded(ms[..k]).Keys != {} && Max(Recorded(ms[..k]).Keys) == ms[k - 1].version
  {
    RecordedIs(ms, k);
    assert ms[k - 1].version in Recorded(ms[..k]).Keys;
  }

  lemma NewestNext(ms: seq<Migration>, k: nat)
    requires k < |ms| && Sorted(ms)
    ensures Newest(Recorded(ms[..k + 1]).Keys) == [ms[k].version] + Newest(Recorded(ms[..k]).Keys)
  {
    MaxIs(ms, k + 1);
    RecordedBack(ms, k);
    assert Recorded(ms[..k + 1]).Keys - {ms[k].version} == Recorded(ms[..k]).Keys;
  }

  /** The newest of the first `k` migrations is the `k`th, and so on down. */
  lemma {:induction false} NewestAt(ms: seq<Migration>, k: nat, i: nat)
    requires i < k <= |ms| && Sorted(ms)
    ensures |Newest(Recorded(ms[..k]).Keys)| == k && Newest(Recorded(ms[..k]).Keys)[i] == ms[k - 1 - i].version
    decreases k
  {
    NewestNext(ms, k - 1);
    RecordedSize(ms, k);
    assert |Recorded(ms[..k]).Keys| == k;
    if i > 0 { NewestAt(ms, k - 1, i - 1); }
  }

  lemma NewestIs(ms: seq<Migration>, k: nat)
    requires k <= |ms| && Sorted(ms)
    ensures |Newest(Recorded(ms[..k]).Keys)| == k
    ensures forall i :: 0 <= i < k ==> Newest(Recorded(ms[..k]).Keys)[i] == ms[k - 1 - i].version
  {
    RecordedSize(ms, k);
    assert |Recorded(ms[..k]).Keys| == k;
    forall i | 0 <= i < k
      ensures Newest(Recorded(ms[..k]).Keys)[i] == ms[k - 1 - i].version
    {
      NewestAt(ms, k, i);
    }
  }

  lemma {:induction false} FindIs(ms: seq<Migration>, n: nat, j: nat)
    requires n <= |ms| && j < |ms| && Sorted(ms)
    ensures Find(ms[..n], ms[j].version) == if j < n then Some(ms[j]) else None
    decreases n
  {
    if n > 0 {
      assert ms[..n][..n - 1] == ms[..n - 1];
      if j != n - 1 { FindIs(ms, n - 1, j); }
    }
  }

  lemma FindOwn(ms: seq<Migration>, own: seq<Migration>, j: nat)
    requires own <= ms && j < |ms| && Sorted(ms)
    ensures Find(own, ms[j].version) == if j < |own| then Some(ms[j]) else None
  {
    FindIs(ms, |own|, j);
    assert ms[..|own|] == own;
  }

  // ---- Schema and history ----

  /** What is recorded is the first so many migrations. */
  predicate Prefix<S>(ms: seq<Migration>, db: Db<S>) {
    |db.rows| <= |ms| && db.rows == Recorded(ms[..|db.rows|])
  }

  /** And the schema is what they make of `initial`. */
  predicate InStep<S(==)>(exec: Exec<S>, initial: S, ms: seq<Migration>, db: Db<S>) {
    Prefix(ms, db) && Fold(exec, ms[..|db.rows|], initial) == Some(db.schema)
  }

  /** Each down script, run right after its up script, fails or undoes it. */
  predicate Undoes<S(==)>(exec: Exec<S>, initial: S, ms: seq<Migration>) {
    forall j :: 0 <= j < |ms| ==> UndoesAt(exec, initial, ms, j)
  }

  predicate UndoesAt<S(==)>(exec: Exec<S>, initial: S, ms: seq<Migration>, j: nat)
    requires j < |ms|
  {
    var before, after := Fold(exec, ms[..j], initial), Fold(exec, ms[..j + 1], initial);
    before.Some? && after.Some? ==> exec(ms[j].down, after.value) in {None, before}
  }

  lemma FoldNext<S>(exec: Exec<S>, initial: S, ms: seq<Migration>, k: nat)
    requires k < |ms|
    ensures Fold(exec, ms[..k + 1], initial)
         == var before := Fold(exec, ms[..k], initial); if before.None? then None else exec(ms[k].up, before.value)
  {
    assert ms[..k + 1][..k] == ms[..k];
  }

  /** One migration applied to a prefix of `i`. */
  lemma ApplyKeeps<S>(exec: Exec<S>, initial: S, ms: seq<Migration>, db: Db<S>, fault: Fault)
    requires Sorted(ms) && Prefix(ms, db) && |db.rows| < |ms|
    ensures var i, r := |db.rows|, Apply(exec, db, ms[|db.rows|], fault);
            && Prefix(ms, r.db) && i <= |r.db.rows| <= i + 1
            && (r.error.None? ==> |r.db.rows| == i + 1) && r.error in {None, Some(Failed)}
            && (InStep(exec, initial, ms, db) ==> InStep(exec, initial, ms, r.db))
  {
    ApplyPrefix(exec, ms, db, fault);
    if InStep(exec, initial, ms, db) { ApplyInStep(exec, initial, ms, db, fault); }
  }

  lemma ApplyPrefix<S>(exec: Exec<S>, ms: seq<Migration>, db: Db<S>, fault: Fault)
    requires Sorted(ms) && Prefix(ms, db) && |db.rows| < |ms|
    ensures var i, r := |db.rows|, Apply(exec, db, ms[|db.rows|], fault);
            && Prefix(ms, r.db) && i <= |r.db.rows| <= i + 1
            && (r.error.None? ==> |r.db.rows| == i + 1) && r.error in {None, Some(Failed)}
  {
    RecordedNext(ms, |db.rows|);
    RecordedSize(ms, |db.rows| + 1);
  }

  lemma ApplyInStep<S>(exec: Exec<S>, initial: S, ms: seq<Migration>, db: Db<S>, fault: Fault)
    requires Sorted(ms) && InStep(exec, initial, ms, db) && |db.rows| < |ms|
    ensures InStep(exec, initial, ms, Apply(exec, db, ms[|db.rows|], fault).db)
  {
    ApplyPrefix(exec, ms, db, fault);
    FoldNext(exec, initial, ms, |db.rows|);
    RecordedNot(ms, |db.rows|, |db.rows|);
  }

  /** Up from where the history ends. */
  lemma {:induction false} UpFromKeeps<S>(exec: Exec<S>, initial: S, ms: seq<Migration>, n: nat, k: nat, db: Db<S>,
                                          faults: seq<Fault>)
    requires Sorted(ms) && k <= |db.rows| <= n <= |ms| && Prefix(ms, db)
    ensures var r := UpFrom(exec, ms[..n], |db.rows|, Recorded(ms[..k]), db, faults);
            && Prefix(ms, r.db) && |db.rows| <= |r.db.rows| <= n
            && (r.error.None? ==> |r.db.rows| == n) && r.error in {None, Some(Failed)}
            && (InStep(exec, initial, ms, db) ==> InStep(exec, initial, ms, r.db))
    decreases n - |db.rows|
  {
    var i := |db.rows|;
    if i < n {
      RecordedNot(ms, k, i);
      ApplyKeeps(exec, initial, ms, db, FaultAt(faults, i));
      var next := Apply(exec, db, ms[i], FaultAt(faults, i));
      assert ms[..n][i] == ms[i];
      if next.error.None? { UpFromKeeps(exec, initial, ms, n, k, next.db, faults); }
    }
  }

  /** Up passes over what is recorded as it is. */
  lemma {:induction false} UpFromSkips<S>(exec: Exec<S>, ms: seq<Migration>, n: nat, i: nat, k: nat, db: Db<S>,
                                          faults: seq<Fault>)
    requires Sorted(ms) && n <= |ms| && i <= n && i <= k <= |ms|
    ensures UpFrom(exec, ms[..n], i, Recorded(ms[..k]), db, faults)
         == UpFrom(exec, ms[..n], if k < n then k else n, Recorded(ms[..k]), db, faults)
    decreases n - i
  {
    RecordedIs(ms, k);
    if i < n && i < k {
      assert ms[..n][i] == ms[i];
      UpFromSkips(exec, ms, n, i + 1, k, db, faults);
    }
  }

  /** Up from a prefix: a longer prefix or the same, all of the program's migrations unless an error is reported,
      and never the complaint that a migration changed. */
  lemma UpKeeps<S>(exec: Exec<S>, initial: S, ms: seq<Migration>, n: nat, db: Db<S>, faults: seq<Fault>)
    requires Sorted(ms) && n <= |ms| && Prefix(ms, db)
    ensures var r := Up(exec, ms[..n], db, faults);
            && Prefix(ms, r.db) && |db.rows| <= |r.db.rows|
            && (|r.db.rows| > |db.rows| ==> |r.db.rows| <= n)
            && (r.error.None? ==> |r.db.rows| >= n) && r.error in {None, Some(Failed)}
            && (InStep(exec, initial, ms, db) ==> InStep(exec, initial, ms, r.db))
  {
    UpFromSkips(exec, ms, n, 0, |db.rows|, db, faults);
    if |db.rows| <= n { UpFromKeeps(exec, initial, ms, n, |db.rows|, db, faults); }
  }

  /** The newest migration rolled back. */
  lemma RollbackKeeps<S>(exec: Exec<S>, initial: S, ms: seq<Migration>, db: Db<S>, fault: Fault)
    requires Sorted(ms) && Prefix(ms, db) && |db.rows| > 0
    ensures var i, r := |db.rows| - 1, Rollback(exec, db, ms[|db.rows| - 1], fault);
            && Prefix(ms, r.db) && i <= |r.db.rows| <= i + 1
            && (r.error.None? ==> |r.db.rows| == i)
            && (InStep(exec, initial, ms, db) && UndoesAt(exec, initial, ms, i) ==> InStep(exec, initial, ms, r.db))
  {
    var i := |db.rows| - 1;
    RecordedBack(ms, i);
    RecordedIs(ms, i);
    FoldNext(exec, initial, ms, i);
  }

  lemma RollbackPrefix<S>(exec: Exec<S>, ms: seq<Migration>, db: Db<S>, fault: Fault, j: nat)
    requires Sorted(ms) && Prefix(ms, db) && |db.rows| == j + 1
    ensures var r := Rollback(exec, db, ms[j], fault);
            Prefix(ms, r.db) && |r.db.rows| <= j + 1 && (r.error.None? ==> |r.db.rows| == j)
  {
    RollbackKeeps(exec, db.schema, ms, db, fault);
  }

  lemma RollbackInStep<S>(exec: Exec<S>, initial: S, ms: seq<Migration>, db: Db<S>, fault: Fault, j: nat)
    requires Sorted(ms) && InStep(exec, initial, ms, db) && |db.rows| == j + 1 && UndoesAt(exec, initial, ms, j)
    ensures var r := Rollback(exec, db, ms[j], fault);
            InStep(exec, initial, ms, r.db) && |r.db.rows| <= j + 1 && (r.error.None? ==> |r.db.rows| == j)
  {
    RollbackKeeps(exec, initial, ms, db, fault);
  }

  /** `versions` from the `i`th on are the newest ones recorded. */
  predicate Due<S>(ms: seq<Migration>, versions: seq<int>, i: nat, db: Db<S>) {
    && i <= |versions| <= i + |db.rows| && |db.rows| <= |ms|
    && forall j :: i <= j < |versions| ==> versions[j] == ms[i + |db.rows| - 1 - j].version
  }

  lemma DueNext<S>(ms: seq<Migration>, versions: seq<int>, i: nat, db: Db<S>, next: Db<S>)
    requires Due(ms, versions, i, db) && i < |versions| && |next.rows| == |db.rows| - 1
    ensures versions[i] == ms[|db.rows| - 1].version && Due(ms, versions, i + 1, next)
  {
  }

  lemma DownFromNext<S>(exec: Exec<S>, ms: seq<Migration>, versions: seq<int>, i: nat, db: Db<S>, faults: seq<Fault>,
                        m: Migration)
    requires i < |versions| && Find(ms, versions[i]) == Some(m)
    ensures var next := Rollback(exec, db, m, FaultAt(faults, i));
            DownFrom(exec, ms, versions, i, db, faults)
            == if next.error.Some? then next else DownFrom(exec, ms, versions, i + 1, next.db, faults)
  {
  }

  /** Down over `versions`, of which `i` are done. */
  lemma {:induction false} DownFromKeeps<S>(exec: Exec<S>, ms: seq<Migration>, own: seq<Migration>, versions: seq<int>,
                                            i: nat, db: Db<S>, faults: seq<Fault>)
    requires Sorted(ms) && own <= ms && Prefix(ms, db) && Due(ms, versions, i, db)
    ensures var r := DownFrom(exec, own, versions, i, db, faults);
            && Prefix(ms, r.db) && |r.db.rows| <= |db.rows|
            && (r.error.None? ==> |r.db.rows| == |db.rows| + i - |versions|)
    decreases |versions| - i
  {
    if i < |versions| {
      var j := |db.rows| - 1;
      FindOwn(ms, own, j);
      if j < |own| {
        DownFromNext(exec, own, versions, i, db, faults, ms[j]);
        RollbackPrefix(exec, ms, db, FaultAt(faults, i), j);
        var next := Rollback(exec, db, ms[j], FaultAt(faults, i));
        if next.error.None? {
          DueNext(ms, versions, i, db, next.db);
          DownFromKeeps(exec, ms, own, versions, i + 1, next.db, faults);
        }
      }
    }
  }

  /** A program's own down scripts are those of the list it is a part of. */
  lemma OwnUndoes<S>(exec: Exec<S>, initial: S, ms: seq<Migration>, own: seq<Migration>, j: nat)
    requires own <= ms && j < |own| && Undoes(exec, initial, own)
    ensures UndoesAt(exec, initial, ms, j)
  {
    assert UndoesAt(exec, initial, own, j);
    assert own[..j] == ms[..j] && own[..j + 1] == ms[..j + 1];
  }

  lemma {:induction false} DownFromInStep<S>(exec: Exec<S>, initial: S, ms: seq<Migration>, own: seq<Migration>,
                                             versions: seq<int>, i: nat, db: Db<S>, faults: seq<Fault>)
    requires Sorted(ms) && own <= ms && Due(ms, versions, i, db) && InStep(exec, initial, ms, db)
    requires Undoes(exec, initial, own)
    ensures InStep(exec, initial, ms, DownFrom(exec, own, versions, i, db, faults).db)
    decreases |versions| - i
  {
    if i < |versions| {
      var j := |db.rows| - 1;
      FindOwn(ms, own, j);
      if j < |own| {
        OwnUndoes(exec, initial, ms, own, j);
        RollbackInStep(exec, initial, ms, db, FaultAt(faults, i), j);
        DownFromNext(exec, own, versions, i, db, faults, ms[j]);
        var next := Rollback(exec, db, ms[j], FaultAt(faults, i));
        if next.error.None? {
          DueNext(ms, versions, i, db, next.db);
          DownFromInStep(exec, initial, ms, own, versions, i + 1, next.db, faults);
        }
      }
    }
  }

  lemma AllDue<S>(ms: seq<Migration>, db: Db<S>, count: nat)
    requires Sorted(ms) && Prefix(ms, db) && count <= |db.rows|
    ensures |Newest(db.rows.Keys)| == |db.rows| && Due(ms, Newest(db.rows.Keys)[..count], 0, db)
  {
    NewestIs(ms, |db.rows|);
  }

  lemma DownKeeps<S>(exec: Exec<S>, initial: S, ms: seq<Migration>, n: nat, steps: int, db: Db<S>, faults: seq<Fault>)
    requires Sorted(ms) && n <= |ms| && Prefix(ms, db)
    ensures var r := Down(exec, ms[..n], steps, db, faults);
            && Prefix(ms, r.db) && |r.db.rows| <= |db.rows|
            && (r.error.None? ==> steps > 0 && |r.db.rows| == if steps < |db.rows| then |db.rows| - steps else 0)
            && (InStep(exec, initial, ms, db) && Undoes(exec, initial, ms[..n]) ==> InStep(exec, initial, ms, r.db))
  {
    AllDue(ms, db, Steps(steps, db.rows));
    if steps > 0 {
      var versions := Newest(db.rows.Keys)[..Steps(steps, db.rows)];
      DownFromKeeps(exec, ms, ms[..n], versions, 0, db, faults);
      if InStep(exec, initial, ms, db) && Undoes(exec, initial, ms[..n]) {
        DownFromInStep(exec, initial, ms, ms[..n], versions, 0, db, faults);
      }
    }
  }

  // ---- What can be reached ----

  function Fresh<S>(initial: S): Db<S> {
    Db(initial, map[], [])
  }

  lemma ApplyReaches<S>(exec: Exec<S>, initial: S, ms: seq<Migration>, db: Db<S>)
    requires Sorted(ms) && |db.rows| < |ms| && InStep(exec, initial, ms, db)
    requires Fold(exec, ms[..|db.rows| + 1], initial).Some?
    ensures var r := Apply(exec, db, ms[|db.rows|], Fine);
            r.error.None? && InStep(exec, initial, ms, r.db) && |r.db.rows| == |db.rows| + 1
  {
    FoldNext(exec, initial, ms, |db.rows|);
    RecordedNot(ms, |db.rows|, |db.rows|);
    ApplyKeeps(exec, initial, ms, db, Fine);
  }

  /** Up without a fault, from a prefix: everything that can run runs. */
  lemma {:induction false} UpReaches<S>(exec: Exec<S>, initial: S, ms: seq<Migration>, n: nat, k: nat, db: Db<S>)
    requires Sorted(ms) && k <= |db.rows| <= n <= |ms| && InStep(exec, initial, ms, db)
    requires Fold(exec, ms[..n], initial).Some?
    ensures var r := UpFrom(exec, ms[..n], |db.rows|, Recorded(ms[..k]), db, []);
            r.error.None? && InStep(exec, initial, ms, r.db) && |r.db.rows| == n
    decreases n - |db.rows|
  {
    var i := |db.rows|;
    if i < n {
      FoldShorter(exec, initial, ms, i + 1, n);
      RecordedNot(ms, k, i);
      ApplyReaches(exec, initial, ms, db);
      var next := Apply(exec, db, ms[i], Fine);
      assert ms[..n][i] == ms[i];
      UpReaches(exec, initial, ms, n, k, next.db);
    }
  }

  lemma {:induction false} FoldShorter<S>(exec: Exec<S>, initial: S, ms: seq<Migration>, k: nat, n: nat)
    requires k <= n <= |ms| && Fold(exec, ms[..n], initial).Some?
    ensures Fold(exec, ms[..k], initial).Some?
    decreases n - k
  {
    if k < n {
      FoldNext(exec, initial, ms, n - 1);
      FoldShorter(exec, initial, ms, k, n - 1);
    }
  }

  lemma FreshInStep<S>(exec: Exec<S>, initial: S, ms: seq<Migration>)
    ensures InStep(exec, initial, ms, Fresh(initial))
  {
    assert ms[..0] == [];
  }

  // ---- Idle, refused and repeated calls ----

  /** A migration that is not recorded as it is now stops Up before it changes anything, if no earlier one is
      pending. */
  lemma {:induction false} ChangedStops<S>(exec: Exec<S>, ms: seq<Migration>, i: nat, j: nat, applied: map<int, Row>,
                                           db: Db<S>, faults: seq<Fault>)
    requires i <= j < |ms| && forall l :: i <= l < j ==> ms[l].version in applied
    requires ms[j].version in applied && applied[ms[j].version] != RowOf(ms[j])
    ensures UpFrom(exec, ms, i, applied, db, faults) == Outcome(db, Some(Changed))
    decreases j - i
  {
    if i < j { ChangedStops(exec, ms, i + 1, j, applied, db, faults); }
  }

  /** With a prefix recorded, Up by a program whose `j`th migration differs from the recorded one in its name or its
      checksum changes nothing and says so, however many migrations it has, if its earlier versions are the recorded
      ones. */
  lemma ChangedIsRefused<S>(exec: Exec<S>, ms: seq<Migration>, changed: seq<Migration>, j: nat, db: Db<S>,
                            faults: seq<Fault>)
    requires Sorted(ms) && Prefix(ms, db) && j < |db.rows| && j < |changed|
    requires forall i :: 0 <= i <= j ==> changed[i].version == ms[i].version
    requires RowOf(changed[j]) != RowOf(ms[j])
    ensures Up(exec, changed, db, faults) == Outcome(db, Some(Changed))
  {
    RecordedIs(ms, |db.rows|);
    ChangedStops(exec, changed, 0, j, db.rows, db, faults);
  }

  /** Up after an Up that succeeded tries nothing. */
  lemma SecondUp<S>(exec: Exec<S>, ms: seq<Migration>, n: nat, db: Db<S>, faults: seq<Fault>, again: seq<Fault>)
    requires Sorted(ms) && n <= |ms| && Prefix(ms, db) && Up(exec, ms[..n], db, faults).error.None?
    ensures var once := Up(exec, ms[..n], db, faults).db;
            Up(exec, ms[..n], once, again) == Outcome(once, None)
  {
    UpKeeps(exec, db.schema, ms, n, db, faults);
    var once := Up(exec, ms[..n], db, faults).db;
    UpFromSkips(exec, ms, n, 0, |once.rows|, once, again);
  }

  /** A Down that succeeded, then an Up without a fault, give the history and the schema back. */
  lemma UpAfterDown<S>(exec: Exec<S>, initial: S, ms: seq<Migration>, steps: int, db: Db<S>, faults: seq<Fault>)
    requires Sorted(ms) && InStep(exec, initial, ms, db) && Undoes(exec, initial, ms[..|db.rows|])
    requires Down(exec, ms[..|db.rows|], steps, db, faults).error.None?
    ensures var r := Up(exec, ms[..|db.rows|], Down(exec, ms[..|db.rows|], steps, db, faults).db, []);
            r.error.None? && r.db.rows == db.rows && r.db.schema == db.schema
  {
    var n := |db.rows|;
    DownKeeps(exec, initial, ms, n, steps, db, faults);
    var back := Down(exec, ms[..n], steps, db, faults).db;
    UpFromSkips(exec, ms, n, 0, |back.rows|, back, []);
    UpReaches(exec, initial, ms, n, |back.rows|, back);
  }

  /** A program that does not know the newest recorded migration rolls nothing back. */
  lemma UnknownIsRefused<S>(exec: Exec<S>, ms: seq<Migration>, n: nat, steps: int, db: Db<S>, faults: seq<Fault>)
    requires Sorted(ms) && n < |db.rows| && Prefix(ms, db) && steps > 0
    ensures Down(exec, ms[..n], steps, db, faults) == Outcome(db, Some(Unknown))
  {
    NewestIs(ms, |db.rows|);
    FindIs(ms, n, |db.rows| - 1);
  }
}
