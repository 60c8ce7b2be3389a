/** workspace.py, class Workspace: prepare as it runs. */
module WorkspaceClass {
  import opened Basics
  import opened Prepare
  import PrepareResults

  /** What a save writes: the articles, whether a preparation is under way, and its last counts. */
  datatype Snapshot = Snapshot(entries: map<string, Entry>, incomplete: bool, last: Counts)

  /** The article says again what has been seen. */
  predicate Repeated(s: Progress, a: Article) {
    a.key != "" && a.valid && a.key in s.seen && s.seen[a.key] == a.digest
  }

  /** Item `n` is a valid article that says again what the first one of its id did. */
  predicate Repeats(batch: seq<Article>, n: nat)
    requires n < |batch|
  {
    var first := PrepareResults.FirstRevision(batch[..n], batch[n].key);
    batch[n].key != "" && batch[n].valid && first.Some? && batch[first.value].digest == batch[n].digest
  }

  /** A state.json written while a batch is being prepared: that after its first `n` items. */
  ghost predicate IsOf(shot: Snapshot, refresh: bool, before: map<string, Entry>, batch: seq<Article>,
                       answers: seq<Answer>, n: nat)
    requires |answers| == |batch| && n <= |batch|
  {
    shot.incomplete && shot.entries == Fold(refresh, before, batch[..n], answers[..n]).entries
  }

  ghost predicate Partial(shot: Snapshot, refresh: bool, before: map<string, Entry>, batch: seq<Article>,
                          answers: seq<Answer>)
    requires |answers| == |batch|
  {
    exists n: nat :: n <= |batch| && IsOf(shot, refresh, before, batch, answers, n)
  }

  /** One of these saves is of the first `n` items. */
  ghost predicate Has(saves: seq<Snapshot>, refresh: bool, before: map<string, Entry>, batch: seq<Article>,
                      answers: seq<Answer>, n: nat)
    requires |answers| == |batch| && n <= |batch|
  {
    exists shot :: shot in saves && IsOf(shot, refresh, before, batch, answers, n)
  }

  /** The saves while the first `n` items were prepared: each of some prefix, and one after every item that says
      something new. */
  ghost predicate Kept(saves: seq<Snapshot>, refresh: bool, before: map<string, Entry>, batch: seq<Article>,
                       answers: seq<Answer>, n: nat)
    requires |answers| == |batch| && n <= |batch|
  {
    && (forall shot :: shot in saves ==> Partial(shot, refresh, before, batch, answers))
    && forall k: nat :: k < n && !Repeats(batch, k) ==> Has(saves, refresh, before, batch, answers, k + 1)
  }

  lemma KeptNone(saves: seq<Snapshot>, refresh: bool, before: map<string, Entry>, batch: seq<Article>,
                 answers: seq<Answer>)
    requires |answers| == |batch| && |saves| == 1 && saves[0].incomplete && saves[0].entries == before
    ensures Kept(saves, refresh, before, batch, answers, 0)
  {
    assert batch[..0] == [] && answers[..0] == [];
    assert IsOf(saves[0], refresh, before, batch, answers, 0);
  }

  lemma KeptDuplicate(saves: seq<Snapshot>, refresh: bool, before: map<string, Entry>, batch: seq<Article>,
                      answers: seq<Answer>, n: nat)
    requires |answers| == |batch| && n < |batch| && Kept(saves, refresh, before, batch, answers, n) && Repeats(batch, n)
    ensures Kept(saves, refresh, before, batch, answers, n + 1)
  {
  }

  lemma KeptNext(saves: seq<Snapshot>, shot: Snapshot, refresh: bool, before: map<string, Entry>, batch: seq<Article>,
                 answers: seq<Answer>, n: nat)
    requires |answers| == |batch| && n < |batch| && Kept(saves, refresh, before, batch, answers, n)
    requires IsOf(shot, refresh, before, batch, answers, n + 1)
    ensures Kept(saves + [shot], refresh, before, batch, answers, n + 1)
  {
    assert shot in saves + [shot];
    forall k: nat | k < n && !Repeats(batch, k)
      ensures Has(saves + [shot], refresh, before, batch, answers, k + 1)
    {
      var other :| other in saves && IsOf(other, refresh, before, batch, answers, k + 1);
      assert other in saves + [shot];
    }
  }

  class Workspace {
    var entries: map<string, Entry>         // state["articles"]
    var incomplete: bool                    // state["prepare_incomplete"]
    var last: Counts                        // state["last_prepare"]
    ghost var saves: seq<Snapshot>          // every state.json written so far

    constructor ()
      ensures entries == map[] && !incomplete && last == ZERO
    {
      entries, incomplete, last, saves := map[], false, ZERO, [];
    }

    method Save()
      modifies `saves
      ensures saves == old(saves) + [Snapshot(entries, incomplete, last)]
    {
      saves := saves + [Snapshot(entries, incomplete, last)];
    }

    /** The state after the batch is that of the one-item-at-a-time specification; every earlier save was of a prefix
        of the batch and still marked incomplete, so that a process that dies leaves such a state; and each item's
        state was saved, unless it said nothing new. */
    method Prepare(batch: seq<Article>, answers: seq<Answer>, refresh: bool) returns (counts: Counts)
      requires |answers| == |batch|
      modifies this
      ensures entries == Fold(refresh, old(entries), batch, answers).entries
      ensures counts == Fold(refresh, old(entries), batch, answers).counts
      ensures !incomplete && last == counts
      ensures |saves| > |old(saves)| && saves[..|old(saves)|] == old(saves)
      ensures saves[|saves| - 1] == Snapshot(entries, false, counts)
      ensures Kept(saves[|old(saves)|..|saves| - 1], refresh, old(entries), batch, answers, |batch|)
    {
      counts := ZERO;
      incomplete := true;
      Save();
      var seen: map<string, string>, previous: map<string, Entry>, accepted: map<string, (Outcome, nat)>
        := map[], map[], map[];
      assert batch[..0] == [] && answers[..0] == [];
      ghost var n := |old(saves)|;
      KeptNone(saves[n..], refresh, entries, batch, answers);
      for i := 0 to |batch|
        invariant incomplete && |saves| > n && saves[..n] == old(saves)
        invariant AtStep(Fold(refresh, old(entries), batch[..i], answers[..i]), seen, previous, accepted, counts)
        invariant Kept(saves[n..], refresh, old(entries), batch, answers, i)
      {
        seen, previous, accepted, counts :=
          Handle(batch, answers, refresh, i, seen, previous, accepted, counts, n, old(entries));
      }
      assert batch[..|batch|] == batch && answers[..|batch|] == answers;
      ghost var kept := saves[n..];
      last := counts;
      incomplete := false;
      Save();
      assert saves[n..|saves| - 1] == kept;
    }

    /** Lines 61-103, for the `i`th item. */
    method Handle(batch: seq<Article>, answers: seq<Answer>, refresh: bool, i: nat, seen0: map<string, string>,
                  previous0: map<string, Entry>, accepted0: map<string, (Outcome, nat)>, counts0: Counts, ghost n: nat,
                  ghost before: map<string, Entry>)
      returns (seen: map<string, string>, previous: map<string, Entry>, accepted: map<string, (Outcome, nat)>,
               counts: Counts)
      requires |answers| == |batch| && i < |batch| && n < |saves| && incomplete
      requires AtStep(Fold(refresh, before, batch[..i], answers[..i]), seen0, previous0, accepted0, counts0)
      requires Kept(saves[n..], refresh, before, batch, answers, i)
      modifies `entries, `saves
      ensures AtStep(Fold(refresh, before, batch[..i + 1], answers[..i + 1]), seen, previous, accepted, counts)
      ensures old(saves) <= saves && Kept(saves[n..], refresh, before, batch, answers, i + 1)
    {
      assert batch[..i + 1][..i] == batch[..i] && answers[..i + 1][..i] == answers[..i];
      var duplicate;
      duplicate, seen, previous, accepted, counts :=
        One(batch[i], answers[i], refresh, seen0, previous0, accepted0, counts0,
            Fold(refresh, before, batch[..i], answers[..i]));
      SaveUnless(duplicate, n, refresh, before, batch, answers, i);
    }

    method SaveUnless(duplicate: bool, ghost n: nat, ghost refresh: bool, ghost before: map<string, Entry>,
                      ghost batch: seq<Article>, ghost answers: seq<Answer>, ghost i: nat)
      requires |answers| == |batch| && i < |batch| && n < |saves| && incomplete
      requires Kept(saves[n..], refresh, before, batch, answers, i)
      requires entries == Fold(refresh, before, batch[..i + 1], answers[..i + 1]).entries
      requires duplicate ==> Repeated(Fold(refresh, before, batch[..i], answers[..i]), batch[i])
      modifies `saves
      ensures old(saves) <= saves && Kept(saves[n..], refresh, before, batch, answers, i + 1)
    {
      ghost var done := saves[n..];
      if duplicate {
        RepeatsIs(refresh, before, batch, answers, i);
        KeptDuplicate(done, refresh, before, batch, answers, i);
        return;
      }
      Save();
      KeptNext(done, Snapshot(entries, incomplete, last), refresh, before, batch, answers, i);
      assert saves[n..] == done + [Snapshot(entries, incomplete, last)];
    }

    static lemma RepeatsIs(refresh: bool, before: map<string, Entry>, batch: seq<Article>, answers: seq<Answer>, n: nat)
      requires |answers| == |batch| && n < |batch|
      requires Repeated(Fold(refresh, before, batch[..n], answers[..n]), batch[n])
      ensures Repeats(batch, n)
    {
      PrepareResults.AllSettled(refresh, before, batch[..n], answers[..n], batch[n].key);
    }

    ghost predicate AtStep(s: Progress, seen: map<string, string>, previous: map<string, Entry>,
                           accepted: map<string, (Outcome, nat)>, counts: Counts)
      reads this
    {
      s.entries == entries && s.seen == seen && s.previous == previous && s.accepted == accepted && s.counts == counts
    }

    /** Lines 64-102, for one item. */
    method One(a: Article, x: Answer, refresh: bool, seen0: map<string, string>, previous0: map<string, Entry>,
               accepted0: map<string, (Outcome, nat)>, counts0: Counts, ghost s: Progress)
      returns (duplicate: bool, seen: map<string, string>, previous: map<string, Entry>,
               accepted: map<string, (Outcome, nat)>, counts: Counts)
      requires AtStep(s, seen0, previous0, accepted0, counts0)
      modifies `entries
      ensures AtStep(Step(refresh, s, a, x), seen, previous, accepted, counts)
      ensures duplicate <==> Repeated(s, a)
    {
      duplicate, seen, previous, accepted, counts := false, seen0, previous0, accepted0, counts0;
      if a.key == "" {
        counts := counts.(failed := counts.failed + 1);
        return;
      }
      var entry := if a.key in entries then entries[a.key] else EMPTY;
      entries := entries[a.key := entry];
      if a.key !in previous { previous := previous[a.key := entry]; }
      if !a.valid {
        entries := entries[a.key := entry.(error := Some(FAILURE))];
        counts := counts.(failed := counts.failed + 1);
        return;
      }
      ghost var t := Enter(s, a.key);
      if a.key in seen {
        if seen[a.key] == a.digest {
          duplicate := true;
          return;
        }
        accepted, counts := Rollback(a.key, seen, previous, accepted, counts, t);
        return;
      }
      seen := seen[a.key := a.digest];
      accepted, counts := Revise(a, x, refresh, seen, previous, accepted, counts, t.(seen := seen));
    }

    /** Lines 75-83 and 101-102. */
    method Rollback(key: string, seen: map<string, string>, previous: map<string, Entry>,
                    accepted0: map<string, (Outcome, nat)>, counts0: Counts, ghost t: Progress)
      returns (accepted: map<string, (Outcome, nat)>, counts: Counts)
      requires AtStep(t, seen, previous, accepted0, counts0) && key in previous
      modifies `entries
      ensures AtStep(Conflict(t, key), seen, previous, accepted, counts)
    {
      accepted, counts := accepted0, counts0;
      var entry := previous[key];
      if key in accepted {
        var (outcome, warnings) := accepted[key];
        accepted := accepted - {key};
        counts := Counted(counts.(warnings := counts.warnings - warnings), outcome, -1);
      }
      entries := entries[key := entry.(error := Some(CONFLICT))];
      counts := counts.(failed := counts.failed + 1);
    }

    /** Lines 86-102, for the first valid article of a key. */
    method Revise(a: Article, x: Answer, refresh: bool, seen: map<string, string>, previous: map<string, Entry>,
                  accepted0: map<string, (Outcome, nat)>, counts0: Counts, ghost t: Progress)
      returns (accepted: map<string, (Outcome, nat)>, counts: Counts)
      requires AtStep(t, seen, previous, accepted0, counts0) && a.key in entries
      modifies `entries
      ensures AtStep(First(refresh, t, a, x), seen, previous, accepted, counts)
    {
      accepted, counts := accepted0, counts0;
      var entry := entries[a.key];
      var outcome;
      if !refresh && entry.fingerprint == Some(a.digest) && entry.manifest.Some? {
        if !x.verifies {
          entries := entries[a.key := entry.(error := Some(FAILURE))];
          counts := counts.(failed := counts.failed + 1);
          return;
        }
        entry := entry.(error := None);
        outcome := Unchanged;
      } else {
        if x.built.None? {
          entries := entries[a.key := entry.(error := Some(FAILURE))];
          counts := counts.(failed := counts.failed + 1);
          return;
        }
        entry := Entry(x.built, Some(a.digest), None);
        outcome := Prepared;
      }
      counts := Counted(counts, outcome, 1);
      entries := entries[a.key := entry];
      if x.warnings.None? {
        entries := entries[a.key := entry.(error := Some(FAILURE))];
        counts := counts.(failed := counts.failed + 1);
        return;
      }
      counts := counts.(warnings := counts.warnings + x.warnings.value);
      accepted := accepted[a.key := (outcome, x.warnings.value)];
    }
  }
}
