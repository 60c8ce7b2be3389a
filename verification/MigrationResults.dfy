/** runner.go: exactly when Up and Down report no error, whatever fails. */
module MigrationResults {
  import opened Basics
  import opened Migrations

  /** The transactions from the `i`th to the `j`th end well. */
  predicate AllFine(faults: seq<Fault>, i: nat, j: nat) {
    forall k: nat :: i <= k < j ==> FaultAt(faults, k).Fine?
  }

  lemma ApplySucceeds<S>(exec: Exec<S>, initial: S, ms: seq<Migration>, db: Db<S>, fault: Fault)
    requires Sorted(ms) && |db.rows| < |ms| && InStep(exec, initial, ms, db)
    ensures var r := Apply(exec, db, ms[|db.rows|], fault);
            && (r.error.None? <==> fault.Fine? && Fold(exec, ms[..|db.rows| + 1], initial).Some?)
            && (r.error.None? ==> InStep(exec, initial, ms, r.db) && |r.db.rows| == |db.rows| + 1)
  {
    FoldNext(exec, initial, ms, |db.rows|);
    RecordedNot(ms, |db.rows|, |db.rows|);
    ApplyKeeps(exec, initial, ms, db, fault);
  }

  lemma {:induction false} UpFromSucceeds<S>(exec: Exec<S>, initial: S, ms: seq<Migration>, n: nat, k: nat, db: Db<S>,
                                             faults: seq<Fault>)
    requires Sorted(ms) && k <= |db.rows| <= n <= |ms| && InStep(exec, initial, ms, db)
    ensures UpFrom(exec, ms[..n], |db.rows|, Recorded(ms[..k]), db, faults).error.None?
       <==> Fold(exec, ms[..n], initial).Some? && AllFine(faults, |db.rows|, n)
    decreases n - |db.rows|
  {
    var i := |db.rows|;
    if i < n {
      var next := Apply(exec, db, ms[i], FaultAt(faults, i));
      UpFromFirst(exec, ms, n, k, db, faults);
      ApplySucceeds(exec, initial, ms, db, FaultAt(faults, i));
      if next.error.None? {
        UpFromSucceeds(exec, initial, ms, n, k, next.db, faults);
        assert AllFine(faults, i, n) <==> AllFine(faults, i + 1, n);
      } else if Fold(exec, ms[..n], initial).Some? {
        FoldShorter(exec, initial, ms, i + 1, n);
      }
    }
  }

  lemma UpFromFirst<S>(exec: Exec<S>, ms: seq<Migration>, n: nat, k: nat, db: Db<S>, faults: seq<Fault>)
    requires Sorted(ms) && k <= |db.rows| < n <= |ms|
    ensures var next := Apply(exec, db, ms[|db.rows|], FaultAt(faults, |db.rows|));
            UpFrom(exec, ms[..n], |db.rows|, Recorded(ms[..k]), db, faults)
            == if next.error.Some? then next
               else UpFrom(exec, ms[..n], |db.rows| + 1, Recorded(ms[..k]), next.db, faults)
  {
    RecordedNot(ms, k, |db.rows|);
    assert ms[..n][|db.rows|] == ms[|db.rows|];
  }

  /** From a prefix in step, Up reports no error exactly when every pending up script runs on what the ones before it
      make and every transaction it takes ends well; a program with fewer migrations than are recorded has none to
      run. */
  lemma UpSucceedsExactly<S>(exec: Exec<S>, initial: S, ms: seq<Migration>, n: nat, db: Db<S>, faults: seq<Fault>)
    requires Sorted(ms) && n <= |ms| && InStep(exec, initial, ms, db)
    ensures Up(exec, ms[..n], db, faults).error.None?
       <==> n <= |db.rows| || (Fold(exec, ms[..n], initial).Some? && AllFine(faults, |db.rows|, n))
  {
    UpFromSkips(exec, ms, n, 0, |db.rows|, db, faults);
    if |db.rows| <= n { UpFromSucceeds(exec, initial, ms, n, |db.rows|, db, faults); }
  }

  /** The down script of the `j`th migration runs on the schema that the first `j + 1` make. */
  predicate RunsDown<S>(exec: Exec<S>, initial: S, ms: seq<Migration>, j: nat)
    requires j < |ms|
  {
    var after := Fold(exec, ms[..j + 1], initial);
    after.Some? && exec(ms[j].down, after.value).Some?
  }

  /** So do those of the newest recorded ones, from the `i`th on. */
  predicate RunDown<S>(exec: Exec<S>, initial: S, ms: seq<Migration>, rows: nat, count: nat)
    requires rows <= |ms|
  {
    forall j: nat :: j < rows <= j + count ==> RunsDown(exec, initial, ms, j)
  }

  lemma RollbackSucceeds<S>(exec: Exec<S>, initial: S, ms: seq<Migration>, db: Db<S>, fault: Fault, j: nat)
    requires Sorted(ms) && InStep(exec, initial, ms, db) && |db.rows| == j + 1 && UndoesAt(exec, initial, ms, j)
    ensures var r := Rollback(exec, db, ms[j], fault);
            && (r.error.None? <==> fault.Fine? && RunsDown(exec, initial, ms, j))
            && (r.error.None? ==> InStep(exec, initial, ms, r.db) && |r.db.rows| == j)
  {
    RollbackInStep(exec, initial, ms, db, fault, j);
  }

  /** `count` more migrations are rolled back without an error, by a program that has `n`, from the `i`th on. */
  predicate Succeeds<S>(exec: Exec<S>, initial: S, ms: seq<Migration>, n: nat, rows: nat, count: nat,
                        faults: seq<Fault>, i: nat)
    requires rows <= |ms|
  {
    (count > 0 ==> rows <= n) && AllFine(faults, i, i + count) && RunDown(exec, initial, ms, rows, count)
  }

  lemma SucceedsNext<S>(exec: Exec<S>, initial: S, ms: seq<Migration>, n: nat, j: nat, count: nat, faults: seq<Fault>,
                        i: nat)
    requires j < n <= |ms| && count > 0
    ensures Succeeds(exec, initial, ms, n, j + 1, count, faults, i)
       <==> FaultAt(faults, i).Fine? && RunsDown(exec, initial, ms, j)
            && Succeeds(exec, initial, ms, n, j, count - 1, faults, i + 1)
  {
    if RunDown(exec, initial, ms, j + 1, count) { assert RunsDown(exec, initial, ms, j); }
    if RunDown(exec, initial, ms, j, count - 1) && RunsDown(exec, initial, ms, j) {
      forall l: nat | l < j + 1 <= l + count
        ensures RunsDown(exec, initial, ms, l)
      {
        if l < j { assert l < j <= l + (count - 1); }
      }
    }
  }

  lemma {:induction false} DownFromSucceeds<S>(exec: Exec<S>, initial: S, ms: seq<Migration>, n: nat,
                                               versions: seq<int>, i: nat, db: Db<S>, faults: seq<Fault>)
    requires Sorted(ms) && n <= |ms| && Due(ms, versions, i, db) && InStep(exec, initial, ms, db)
    requires Undoes(exec, initial, ms[..n])
    ensures DownFrom(exec, ms[..n], versions, i, db, faults).error.None?
       <==> Succeeds(exec, initial, ms, n, |db.rows|, |versions| - i, faults, i)
    decreases |versions| - i
  {
    if i < |versions| {
      var j := |db.rows| - 1;
      FindOwn(ms, ms[..n], j);
      if j < n {
        OwnUndoes(exec, initial, ms, ms[..n], j);
        RollbackSucceeds(exec, initial, ms, db, FaultAt(faults, i), j);
        DownFromNext(exec, ms[..n], versions, i, db, faults, ms[j]);
        SucceedsNext(exec, initial, ms, n, j, |versions| - i, faults, i);
        var next := Rollback(exec, db, ms[j], FaultAt(faults, i));
        if next.error.None? {
          DueNext(ms, versions, i, db, next.db);
          DownFromSucceeds(exec, initial, ms, n, versions, i + 1, next.db, faults);
        }
      }
    }
  }

  /** From a prefix in step, Down by a program whose down scripts undo or fail reports no error exactly when it is asked
      for at least one step, knows the newest recorded migration if there is one, every down script it takes runs, and
      every transaction ends well. */
  lemma DownSucceedsExactly<S>(exec: Exec<S>, initial: S, ms: seq<Migration>, n: nat, steps: int, db: Db<S>,
                               faults: seq<Fault>)
    requires Sorted(ms) && n <= |ms| && InStep(exec, initial, ms, db) && Undoes(exec, initial, ms[..n])
    ensures var count := if steps < |db.rows| then steps else |db.rows|;
            Down(exec, ms[..n], steps, db, faults).error.None?
            <==> && steps > 0 && |db.rows| <= (if count == 0 then |ms| else n)
                 && AllFine(faults, 0, count) && RunDown(exec, initial, ms, |db.rows|, count)
  {
    AllDue(ms, db, Migrations.Steps(steps, db.rows));
    if steps > 0 {
      var versions := Newest(db.rows.Keys)[..Migrations.Steps(steps, db.rows)];
      DownFromSucceeds(exec, initial, ms, n, versions, 0, db, faults);
    }
  }
}
