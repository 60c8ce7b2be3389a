/** runner.go over every run: programs that embed different down scripts, and fewer or more of the migrations, call Up
    and Down in any order, and any step can fail. */
module MigrationRuns {
  import opened Basics
  import opened Migrations

  /** A program's migrations: the first of all, each with the recorded name and checksum and so with the same up script;
      the checksum says nothing of the down script. */
  predicate CopyOf(ms: seq<Migration>, own: seq<Migration>) {
    |own| <= |ms| && forall i :: 0 <= i < |own| ==> own[i] == ms[i].(down := own[i].down)
  }

  /** One locked call by a program with the migrations `own`; `ready` is false when the connection, the lock, the
      bootstrap or reading the history fails. */
  datatype Call =
    | CallUp(own: seq<Migration>, ready: bool, faults: seq<Fault>)
    | CallDown(own: seq<Migration>, ready: bool, steps: int, faults: seq<Fault>)

  function Do<S>(exec: Exec<S>, call: Call, db: Db<S>): Db<S> {
    if !call.ready then db
    else if call.CallUp? then Up(exec, call.own, db, call.faults).db
    else Down(exec, call.own, call.steps, db, call.faults).db
  }

  function Run<S>(exec: Exec<S>, calls: seq<Call>, db: Db<S>): Db<S> {
    if calls == [] then db else Do(exec, calls[|calls| - 1], Run(exec, calls[..|calls| - 1], db))
  }

  /** Only these programs call. */
  predicate Callers(programs: set<seq<Migration>>, calls: seq<Call>) {
    forall i :: 0 <= i < |calls| ==> calls[i].own in programs
  }

  predicate Copies(ms: seq<Migration>, programs: set<seq<Migration>>) {
    forall own :: own in programs ==> CopyOf(ms, own)
  }

  // ---- A program and the list it is a copy of ----

  /** All migrations, with a program's own down scripts as far as they go. */
  function Whole(ms: seq<Migration>, own: seq<Migration>): (all: seq<Migration>)
    requires |own| <= |ms|
    ensures |all| == |ms| && own <= all && all[..|own|] == own
  {
    own + ms[|own|..]
  }

  lemma {:induction false} SameRecorded(ms: seq<Migration>, own: seq<Migration>, k: nat)
    requires CopyOf(ms, own) && k <= |own|
    ensures Recorded(own[..k]) == Recorded(ms[..k])
    decreases k
  {
    if k > 0 {
      SameRecorded(ms, own, k - 1);
      assert own[..k][..k - 1] == own[..k - 1] && ms[..k][..k - 1] == ms[..k - 1];
    }
  }

  lemma {:induction false} SameFold<S>(exec: Exec<S>, initial: S, ms: seq<Migration>, own: seq<Migration>, k: nat)
    requires CopyOf(ms, own) && k <= |own|
    ensures Fold(exec, own[..k], initial) == Fold(exec, ms[..k], initial)
    decreases k
  {
    if k > 0 {
      SameFold(exec, initial, ms, own, k - 1);
      FoldNext(exec, initial, ms, k - 1);
      FoldNext(exec, initial, own, k - 1);
    }
  }

  lemma WholeIsCopy(ms: seq<Migration>, own: seq<Migration>)
    requires CopyOf(ms, own) && Sorted(ms)
    ensures CopyOf(ms, Whole(ms, own)) && Sorted(Whole(ms, own))
  {
    var all := Whole(ms, own);
    forall i | 0 <= i < |all|
      ensures all[i] == ms[i].(down := all[i].down)
    {
    }
    assert forall i :: 0 <= i < |all| ==> all[i].version == ms[i].version;
  }

  /** What is recorded, and what the schema should be, does not depend on down scripts. */
  lemma SameState<S>(exec: Exec<S>, initial: S, ms: seq<Migration>, all: seq<Migration>, db: Db<S>)
    requires CopyOf(ms, all) && |all| == |ms|
    ensures Prefix(all, db) <==> Prefix(ms, db)
    ensures InStep(exec, initial, all, db) <==> InStep(exec, initial, ms, db)
  {
    if |db.rows| <= |ms| {
      SameRecorded(ms, all, |db.rows|);
      SameFold(exec, initial, ms, all, |db.rows|);
    }
  }

  // ---- Every run ----

  /** One call. */
  lemma DoKeeps<S>(exec: Exec<S>, initial: S, ms: seq<Migration>, call: Call, db: Db<S>)
    requires Sorted(ms) && CopyOf(ms, call.own) && Prefix(ms, db)
    ensures Prefix(ms, Do(exec, call, db))
    ensures InStep(exec, initial, ms, db) && Undoes(exec, initial, call.own) ==>
              InStep(exec, initial, ms, Do(exec, call, db))
  {
    var all, n := Whole(ms, call.own), |call.own|;
    WholeIsCopy(ms, call.own);
    SameState(exec, initial, ms, all, db);
    SameState(exec, initial, ms, all, Do(exec, call, db));
    if call.ready {
      if call.CallUp? {
        UpKeeps(exec, initial, all, n, db, call.faults);
      } else {
        DownKeeps(exec, initial, all, n, call.steps, db, call.faults);
      }
    }
  }

  /** Whatever is called, by whichever programs, and whatever fails, the history stays a prefix of the migrations; and
      when each caller's down scripts undo or fail, the schema stays what the recorded migrations make. */
  lemma {:induction false} RunKeeps<S>(exec: Exec<S>, initial: S, ms: seq<Migration>, calls: seq<Call>, db: Db<S>)
    requires Sorted(ms) && Prefix(ms, db) && forall i :: 0 <= i < |calls| ==> CopyOf(ms, calls[i].own)
    ensures Prefix(ms, Run(exec, calls, db))
    ensures InStep(exec, initial, ms, db) && (forall i :: 0 <= i < |calls| ==> Undoes(exec, initial, calls[i].own))
            ==> InStep(exec, initial, ms, Run(exec, calls, db))
    decreases |calls|
  {
    if calls != [] {
      var front := calls[..|calls| - 1];
      RunKeeps(exec, initial, ms, front, db);
      DoKeeps(exec, initial, ms, calls[|calls| - 1], Run(exec, front, db));
    }
  }

  // ---- Exactly when the schema stays in step ----

  ghost predicate AlwaysInStep<S(!new)>(exec: Exec<S>, initial: S, ms: seq<Migration>, programs: set<seq<Migration>>) {
    forall calls :: Callers(programs, calls) ==> InStep(exec, initial, ms, Run(exec, calls, Fresh(initial)))
  }

  /** The schema is what the recorded migrations make in every run of calls by these programs exactly when every down
      script of every one of them undoes its up script or fails. */
  lemma InStepExactly<S(!new)>(exec: Exec<S>, initial: S, ms: seq<Migration>, programs: set<seq<Migration>>)
    requires Sorted(ms) && Copies(ms, programs)
    ensures AlwaysInStep(exec, initial, ms, programs) <==> forall own :: own in programs ==> Undoes(exec, initial, own)
  {
    if AlwaysInStep(exec, initial, ms, programs) {
      forall own | own in programs
        ensures Undoes(exec, initial, own)
      {
        forall j | 0 <= j < |own|
          ensures UndoesAt(exec, initial, own, j)
        {
          var calls := Breaking(own, j);
          assert Callers(programs, calls);
          if !UndoesAt(exec, initial, own, j) { OutOfStep(exec, initial, ms, own, j); }
        }
      }
    }
    if forall own :: own in programs ==> Undoes(exec, initial, own) {
      FreshInStep(exec, initial, ms);
      forall calls | Callers(programs, calls)
        ensures InStep(exec, initial, ms, Run(exec, calls, Fresh(initial)))
      {
        RunKeeps(exec, initial, ms, calls, Fresh(initial));
      }
    }
  }

  /** Up by a program, which the database stops after its first `k` migrations. */
  function StoppedAfter(k: nat): seq<Fault> {
    seq(k, i => Fine) + [Fault.Refused]
  }

  /** Up to the `j`th migration, then Down by one. */
  function Breaking(own: seq<Migration>, j: nat): seq<Call> {
    [CallUp(own, true, StoppedAfter(j + 1)), CallDown(own, true, 1, [])]
  }

  /** Up with such a stop gets exactly that far when the scripts run. */
  lemma {:induction false} UpStops<S>(exec: Exec<S>, initial: S, own: seq<Migration>, k: nat, db: Db<S>)
    requires Sorted(own) && |db.rows| <= k <= |own| && InStep(exec, initial, own, db)
    requires Fold(exec, own[..k], initial).Some?
    ensures var r := UpFrom(exec, own, |db.rows|, map[], db, StoppedAfter(k));
            InStep(exec, initial, own, r.db) && |r.db.rows| == k
    decreases k - |db.rows|
  {
    var i := |db.rows|;
    if i < k {
      FoldShorter(exec, initial, own, i + 1, k);
      ApplyReaches(exec, initial, own, db);
      var next := Apply(exec, db, own[i], Fine);
      assert FaultAt(StoppedAfter(k), i) == Fine;
      UpStops(exec, initial, own, k, next.db);
    }
  }

  /** A down script that does not undo its up script puts the schema out of step. */
  lemma OutOfStep<S>(exec: Exec<S>, initial: S, ms: seq<Migration>, own: seq<Migration>, j: nat)
    requires Sorted(ms) && CopyOf(ms, own) && j < |own| && !UndoesAt(exec, initial, own, j)
    ensures !InStep(exec, initial, ms, Run(exec, Breaking(own, j), Fresh(initial)))
  {
    var up, down := CallUp(own, true, StoppedAfter(j + 1)), CallDown(own, true, 1, []);
    var db := Fresh(initial);
    SortedCopy(ms, own);
    FreshInStep(exec, initial, own);
    UpStops(exec, initial, own, j + 1, db);
    var db1 := Do(exec, up, db);
    DownOnce(exec, initial, own, j, db1);
    RunTwo(exec, up, down, db);
    DownShrinks(exec, own, db1);
    OwnState(exec, initial, ms, own, Do(exec, down, db1));
  }

  lemma SortedCopy(ms: seq<Migration>, own: seq<Migration>)
    requires Sorted(ms) && CopyOf(ms, own)
    ensures Sorted(own)
  {
    assert forall i :: 0 <= i < |own| ==> own[i].version == ms[i].version;
  }

  lemma OwnState<S>(exec: Exec<S>, initial: S, ms: seq<Migration>, own: seq<Migration>, db: Db<S>)
    requires CopyOf(ms, own) && |db.rows| <= |own|
    ensures InStep(exec, initial, own, db) <==> InStep(exec, initial, ms, db)
  {
    SameRecorded(ms, own, |db.rows|);
    SameFold(exec, initial, ms, own, |db.rows|);
  }

  lemma DownShrinks<S>(exec: Exec<S>, own: seq<Migration>, db: Db<S>)
    requires Sorted(own) && Prefix(own, db)
    ensures |Down(exec, own, 1, db, []).db.rows| <= |own|
  {
    assert own[..|own|] == own;
    DownKeeps(exec, db.schema, own, |own|, 1, db, []);
  }

  lemma DownOnce<S>(exec: Exec<S>, initial: S, own: seq<Migration>, j: nat, db: Db<S>)
    requires Sorted(own) && j < |own| && InStep(exec, initial, own, db) && |db.rows| == j + 1
    ensures Down(exec, own, 1, db, []) == Rollback(exec, db, own[j], Fine)
    ensures !UndoesAt(exec, initial, own, j) ==> !InStep(exec, initial, own, Down(exec, own, 1, db, []).db)
  {
    OneDue(exec, own, j, db);
    if !UndoesAt(exec, initial, own, j) {
      RollbackPrefix(exec, own, db, Fine, j);
      FoldNext(exec, initial, own, j);
    }
  }

  lemma OneDue<S>(exec: Exec<S>, own: seq<Migration>, j: nat, db: Db<S>)
    requires Sorted(own) && j < |own| && Prefix(own, db) && |db.rows| == j + 1
    ensures Down(exec, own, 1, db, []) == Rollback(exec, db, own[j], Fine)
  {
    NewestAt(own, j + 1, 0);
    FindOwn(own, own, j);
    var versions := Newest(db.rows.Keys)[..1];
    DownFromNext(exec, own, versions, 0, db, [], own[j]);
  }

  lemma RunTwo<S>(exec: Exec<S>, a: Call, b: Call, db: Db<S>)
    ensures Run(exec, [a, b], db) == Do(exec, b, Do(exec, a, db))
  {
    var one, two := [a], [a, b];
    assert two[..1] == one && one[..0] == [];
    assert Run(exec, one, db) == Do(exec, a, Run(exec, [], db));
    assert Run(exec, two, db) == Do(exec, b, Run(exec, one, db));
  }

  /** A program released with an edited down script for the newest migration passes every check: after Up by the
      original program, Down by the edited one reports no error, the history says that the migration is gone, and the
      schema is whatever the edited script made of it, in step only if that is what the other migrations make. */
  lemma EditedDown<S>(exec: Exec<S>, initial: S, ms: seq<Migration>, own: seq<Migration>, n: nat, left: S)
    requires Sorted(ms) && |ms| == |own| == n + 1 && own == ms[n := ms[n].(down := own[n].down)]
    requires Fold(exec, ms, initial).Some? && exec(own[n].down, Fold(exec, ms, initial).value) == Some(left)
    ensures var up := Up(exec, ms, Fresh(initial), []);
            var down := Down(exec, own, 1, up.db, []);
            && CopyOf(ms, own) && up.error.None? && InStep(exec, initial, ms, up.db)
            && down.error.None? && down.db.rows == Recorded(ms[..n]) && down.db.schema == left
            && (InStep(exec, initial, ms, down.db) <==> Fold(exec, ms[..n], initial) == Some(left))
  {
    assert ms[..n + 1] == ms;
    FreshInStep(exec, initial, ms);
    UpReaches(exec, initial, ms, n + 1, 0, Fresh(initial));
    var db := Up(exec, ms, Fresh(initial), []).db;
    EditedOnce(exec, initial, ms, own, n, db, left);
  }

  lemma EditedOnce<S>(exec: Exec<S>, initial: S, ms: seq<Migration>, own: seq<Migration>, n: nat, db: Db<S>, left: S)
    requires Sorted(ms) && |ms| == |own| == n + 1 && CopyOf(ms, own) && InStep(exec, initial, ms, db)
    requires |db.rows| == n + 1
    requires exec(own[n].down, db.schema) == Some(left)
    ensures var down := Down(exec, own, 1, db, []);
            && down.error.None? && down.db.rows == Recorded(ms[..n]) && down.db.schema == left
            && (InStep(exec, initial, ms, down.db) <==> Fold(exec, ms[..n], initial) == Some(left))
  {
    SameState(exec, initial, ms, own, db);
    SortedCopy(ms, own);
    DownOnce(exec, initial, own, n, db);
    assert own[n].version == ms[n].version;
    RecordedBack(ms, n);
    RecordedSize(ms, n);
  }
}
