/** workspace.py Workspace.prepare: one pass over a batch of articles, with rollback of conflicting revisions. */
module Prepare {
  import opened Basics

  /** state["articles"][key]; every field may be missing. */
  datatype Entry = Entry(manifest: Option<string>, fingerprint: Option<string>, error: Option<string>)

  /** An item of the batch: its article key ("" when the code is unusable), whether it validates, and the digest of
      the validated article. */
  datatype Article = Article(key: string, valid: bool, digest: string)

  /** What the files and the network answer while one item is handled: the pointer built for it, whether its stored
      files still verify, and the warnings of its manifest when that can be read. */
  datatype Answer = Answer(built: Option<string>, verifies: bool, warnings: Option<nat>)

  datatype Outcome = Prepared | Unchanged

  datatype Counts = Counts(prepared: int, same: int, failed: int, warnings: int)

  const CONFLICT := "article.duplicate_id_conflict"
  const FAILURE := "import failure"
  const EMPTY := Entry(None, None, None)
  const ZERO := Counts(0, 0, 0, 0)

  /** The variables of the loop, and tallies: keys built, exact duplicates skipped, acceptances retracted, and
      just built or just verified manifests that could not be read back. */
  datatype Progress = Progress(
    entries: map<string, Entry>, seen: map<string, string>, previous: map<string, Entry>,
    accepted: map<string, (Outcome, nat)>, counts: Counts,
    builds: set<string>, skipped: nat, retracted: nat, unreadBuilt: nat, unreadSame: nat)

  function Start(entries: map<string, Entry>): Progress {
    Progress(entries, map[], map[], map[], ZERO, {}, 0, 0, 0, 0)
  }

  function EntryOf(entries: map<string, Entry>, key: string): Entry {
    if key in entries then entries[key] else EMPTY
  }

  function Counted(c: Counts, outcome: Outcome, n: int): Counts {
    match outcome
    case Prepared => c.(prepared := c.prepared + n)
    case Unchanged => c.(same := c.same + n)
  }

  function Fail(s: Progress, key: string, entry: Entry, error: string): Progress {
    s.(entries := s.entries[key := entry.(error := Some(error))], counts := s.counts.(failed := s.counts.failed + 1))
  }

  /** Lines 64-70: the entry exists and its first version in this batch is kept. */
  function Enter(s: Progress, key: string): Progress {
    var entry := EntryOf(s.entries, key);
    s.(entries := s.entries[key := entry],
       previous := if key in s.previous then s.previous else s.previous[key := entry])
  }

  function Step(refresh: bool, s: Progress, a: Article, x: Answer): Progress {
    if a.key == "" then s.(counts := s.counts.(failed := s.counts.failed + 1))
    else
      var t := Enter(s, a.key);
      if !a.valid then Fail(t, a.key, t.entries[a.key], FAILURE)
      else if a.key in t.seen then
        if t.seen[a.key] == a.digest then t.(skipped := t.skipped + 1) else Conflict(t, a.key)
      else First(refresh, t.(seen := t.seen[a.key := a.digest]), a, x)
  }

  /** Lines 75-83. */
  function Conflict(t: Progress, key: string): Progress
    requires key in t.previous
  {
    var u := if key !in t.accepted then t
             else
               var (outcome, warnings) := t.accepted[key];
               t.(accepted := t.accepted - {key}, retracted := t.retracted + 1,
                  counts := Counted(t.counts.(warnings := t.counts.warnings - warnings), outcome, -1));
    Fail(u, key, t.previous[key], CONFLICT)
  }

  /** Lines 86-99, for the first valid article of a key. */
  function First(refresh: bool, t: Progress, a: Article, x: Answer): Progress
    requires a.key in t.entries
  {
    var entry := t.entries[a.key];
    if !refresh && entry.fingerprint == Some(a.digest) && entry.manifest.Some? then
      if !x.verifies then Fail(t, a.key, entry, FAILURE)
      else Accept(t, a.key, entry.(error := None), Unchanged, x)
    else if x.built.None? then Fail(t, a.key, entry, FAILURE)
    else Accept(t.(builds := t.builds + {a.key}), a.key, Entry(x.built, Some(a.digest), None), Prepared, x)
  }

  function Accept(t: Progress, key: string, entry: Entry, outcome: Outcome, x: Answer): Progress {
    var u := t.(entries := t.entries[key := entry], counts := Counted(t.counts, outcome, 1));
    if x.warnings.None? then Fail(Unread(u, outcome), key, entry, FAILURE)
    else u.(accepted := u.accepted[key := (outcome, x.warnings.value)],
            counts := u.counts.(warnings := u.counts.warnings + x.warnings.value))
  }

  function Unread(t: Progress, outcome: Outcome): Progress {
    match outcome
    case Prepared => t.(unreadBuilt := t.unreadBuilt + 1)
    case Unchanged => t.(unreadSame := t.unreadSame + 1)
  }

  function Fold(refresh: bool, entries: map<string, Entry>, batch: seq<Article>, answers: seq<Answer>): Progress
    requires |answers| == |batch|
    decreases |batch|
  {
    if batch == [] then Start(entries)
    else
      var n := |batch| - 1;
      Step(refresh, Fold(refresh, entries, batch[..n], answers[..n]), batch[n], answers[n])
  }

  // ---- What holds after any batch ----

  ghost predicate SamePointer(a: Entry, b: Entry) {
    a.manifest == b.manifest && a.fingerprint == b.fingerprint
  }

  /** Item `i` is a valid article with this key. */
  predicate Revision(batch: seq<Article>, i: int, key: string)
    requires 0 <= i < |batch|
  {
    key != "" && batch[i].key == key && batch[i].valid
  }

  /** Some valid article of the key has another content than `digest`. */
  ghost predicate Differs(batch: seq<Article>, key: string, digest: string) {
    exists i :: 0 <= i < |batch| && Revision(batch, i, key) && batch[i].digest != digest
  }

  ghost predicate Occurs(batch: seq<Article>, key: string) {
    exists i :: 0 <= i < |batch| && Revision(batch, i, key)
  }

  /** What the loop's variables mean for one key after the items `batch`. */
  ghost predicate Sound(entries: map<string, Entry>, batch: seq<Article>, s: Progress, key: string) {
    var was, now := EntryOf(entries, key), EntryOf(s.entries, key);
    && (key in s.previous ==> s.previous[key] == was)
    && (key !in s.previous ==> now == was && key !in s.seen)
    && (key in s.seen <==> Occurs(batch, key))
    && (key !in s.seen ==> key !in s.accepted && SamePointer(now, was))
    && (key in s.seen && Differs(batch, key, s.seen[key]) ==> key !in s.accepted && SamePointer(now, was))
    && (key in s.accepted ==> now.manifest.Some? && now.fingerprint == Some(s.seen[key]))
  }

  lemma OccursAppend(batch: seq<Article>, a: Article, key: string, digest: string)
    ensures Occurs(batch + [a], key) <==> Occurs(batch, key) || (key != "" && a.key == key && a.valid)
    ensures Differs(batch + [a], key, digest)
       <==> Differs(batch, key, digest) || (key != "" && a.key == key && a.valid && a.digest != digest)
  {
    var all := batch + [a];
    forall i | 0 <= i < |batch|
      ensures Revision(all, i, key) == Revision(batch, i, key) && all[i] == batch[i]
    {
    }
    assert Revision(all, |batch|, key) <==> key != "" && a.key == key && a.valid;
    if Occurs(batch, key) {
      var i :| 0 <= i < |batch| && Revision(batch, i, key);
      assert Revision(all, i, key);
    }
    if Differs(batch, key, digest) {
      var i :| 0 <= i < |batch| && Revision(batch, i, key) && batch[i].digest != digest;
      assert Revision(all, i, key) && all[i].digest != digest;
    }
    if Occurs(all, key) && !(a.key == key && a.valid) {
      var i :| 0 <= i < |all| && Revision(all, i, key);
      assert i < |batch| && Revision(batch, i, key);
    }
    if Differs(all, key, digest) && !(a.key == key && a.valid && a.digest != digest) {
      var i :| 0 <= i < |all| && Revision(all, i, key) && all[i].digest != digest;
      assert i < |batch| && Revision(batch, i, key);
    }
  }

  lemma SoundStep(refresh: bool, entries: map<string, Entry>, batch: seq<Article>, s: Progress, a: Article, x: Answer,
                  key: string)
    requires Sound(entries, batch, s, key)
    ensures Sound(entries, batch + [a], Step(refresh, s, a, x), key)
  {
    var t := Step(refresh, s, a, x);
    if key in t.seen { OccursAppend(batch, a, key, t.seen[key]); }
    OccursAppend(batch, a, key, a.digest);
    if a.key == key && key != "" {
      SoundStepOwn(refresh, entries, batch, s, a, x);
    } else {
      StepElsewhere(refresh, s, a, x, key);
    }
  }

  /** Nothing that belongs to `key` differs. */
  ghost predicate Agree(s: Progress, t: Progress, key: string) {
    && EntryOf(t.entries, key) == EntryOf(s.entries, key)
    && (key in t.previous <==> key in s.previous) && (key in s.previous ==> t.previous[key] == s.previous[key])
    && (key in t.seen <==> key in s.seen) && (key in s.seen ==> t.seen[key] == s.seen[key])
    && (key in t.accepted <==> key in s.accepted) && (key in s.accepted ==> t.accepted[key] == s.accepted[key])
    && (key in t.builds <==> key in s.builds)
  }

  lemma AcceptElsewhere(t: Progress, own: string, entry: Entry, outcome: Outcome, x: Answer, key: string)
    requires own != key
    ensures Agree(t, Accept(t, own, entry, outcome, x), key)
  {
  }

  lemma ConflictElsewhere(t: Progress, own: string, key: string)
    requires own != key && own in t.previous
    ensures Agree(t, Conflict(t, own), key)
  {
  }

  lemma FirstElsewhere(refresh: bool, t: Progress, a: Article, x: Answer, key: string)
    requires a.key != key && a.key in t.entries
    ensures Agree(t, First(refresh, t, a, x), key)
  {
    var entry := t.entries[a.key];
    if !refresh && entry.fingerprint == Some(a.digest) && entry.manifest.Some? {
      if x.verifies {
        AcceptElsewhere(t, a.key, entry.(error := None), Unchanged, x, key);
      } else {
        FailElsewhere(t, a.key, entry, FAILURE, key);
      }
    } else if x.built.Some? {
      AcceptElsewhere(t.(builds := t.builds + {a.key}), a.key, Entry(x.built, Some(a.digest), None), Prepared, x, key);
    } else {
      FailElsewhere(t, a.key, entry, FAILURE, key);
    }
  }

  lemma FailElsewhere(t: Progress, own: string, entry: Entry, error: string, key: string)
    requires own != key
    ensures Agree(t, Fail(t, own, entry, error), key)
  {
  }

  /** An item changes nothing that belongs to another key. */
  lemma StepElsewhere(refresh: bool, s: Progress, a: Article, x: Answer, key: string)
    requires a.key != key || key == ""
    ensures Agree(s, Step(refresh, s, a, x), key)
  {
    if a.key != "" {
      var t := Enter(s, a.key);
      assert Agree(s, t, key);
      if a.valid && a.key in t.seen {
        ConflictElsewhere(t, a.key, key);
      } else if a.valid {
        FirstElsewhere(refresh, t.(seen := t.seen[a.key := a.digest]), a, x, key);
      }
    }
  }

  lemma SoundStepOwn(refresh: bool, entries: map<string, Entry>, batch: seq<Article>, s: Progress, a: Article,
                     x: Answer)
    requires a.key != "" && Sound(entries, batch, s, a.key)
    ensures Sound(entries, batch + [a], Step(refresh, s, a, x), a.key)
  {
    if !a.valid {
      SoundInvalid(refresh, entries, batch, s, a, x);
    } else if a.key in s.seen {
      SoundAgain(refresh, entries, batch, s, a, x);
    } else {
      SoundFirst(refresh, entries, batch, s, a, x);
    }
  }

  /** What the first valid article of a key makes of what belongs to it. */
  lemma FirstIs(refresh: bool, t: Progress, a: Article, x: Answer)
    requires a.key in t.entries
    ensures var u := First(refresh, t, a, x);
            && u.previous == t.previous && u.seen == t.seen && a.key in u.entries
            && (a.key in u.accepted ==>
                  a.key in t.accepted
                  || (u.entries[a.key].manifest.Some? && u.entries[a.key].fingerprint == Some(a.digest)))
  {
  }

  lemma SoundFirst(refresh: bool, entries: map<string, Entry>, batch: seq<Article>, s: Progress, a: Article, x: Answer)
    requires a.key != "" && a.valid && a.key !in s.seen && Sound(entries, batch, s, a.key)
    ensures Sound(entries, batch + [a], Step(refresh, s, a, x), a.key)
  {
    var t := Enter(s, a.key);
    FirstIs(refresh, t.(seen := t.seen[a.key := a.digest]), a, x);
    OccursAppend(batch, a, a.key, a.digest);
  }

  lemma SoundInvalid(refresh: bool, entries: map<string, Entry>, batch: seq<Article>, s: Progress, a: Article,
                     x: Answer)
    requires a.key != "" && !a.valid && Sound(entries, batch, s, a.key)
    ensures Sound(entries, batch + [a], Step(refresh, s, a, x), a.key)
  {
    OccursAppend(batch, a, a.key, if a.key in s.seen then s.seen[a.key] else a.digest);
  }

  lemma SoundAgain(refresh: bool, entries: map<string, Entry>, batch: seq<Article>, s: Progress, a: Article, x: Answer)
    requires a.key != "" && a.valid && a.key in s.seen && Sound(entries, batch, s, a.key)
    ensures Sound(entries, batch + [a], Step(refresh, s, a, x), a.key)
  {
    OccursAppend(batch, a, a.key, s.seen[a.key]);
  }

  lemma {:induction false} AllSound(refresh: bool, entries: map<string, Entry>, batch: seq<Article>,
                                    answers: seq<Answer>, key: string)
    requires |answers| == |batch|
    ensures Sound(entries, batch, Fold(refresh, entries, batch, answers), key)
    decreases |batch|
  {
    if batch != [] {
      var n := |batch| - 1;
      AllSound(refresh, entries, batch[..n], answers[..n], key);
      SoundStep(refresh, entries, batch[..n], Fold(refresh, entries, batch[..n], answers[..n]),
                batch[n], answers[n], key);
      assert batch == batch[..n] + [batch[n]];
    }
  }

  /** Two valid articles with one key and different content, anywhere in the batch and among any other items, leave
      the key's manifest and fingerprint exactly as they were before the batch, and the key unaccepted. */
  lemma ConflictRestores(refresh: bool, entries: map<string, Entry>, batch: seq<Article>, answers: seq<Answer>,
                         i: int, j: int)
    requires |answers| == |batch| && 0 <= i < j < |batch|
    requires batch[i].key == batch[j].key != "" && batch[i].valid && batch[j].valid
    requires batch[i].digest != batch[j].digest
    ensures var s, key := Fold(refresh, entries, batch, answers), batch[i].key;
            && SamePointer(EntryOf(s.entries, key), EntryOf(entries, key))
            && key !in s.accepted
  {
    var s, key := Fold(refresh, entries, batch, answers), batch[i].key;
    AllSound(refresh, entries, batch, answers, key);
    assert Revision(batch, i, key) && Revision(batch, j, key);
    assert Differs(batch, key, s.seen[key]);
  }

  /** A key is accepted only with the one content that all its valid articles have, and then points to it. */
  lemma AcceptedIsUnanimous(refresh: bool, entries: map<string, Entry>, batch: seq<Article>, answers: seq<Answer>,
                            key: string, i: int)
    requires |answers| == |batch| && key in Fold(refresh, entries, batch, answers).accepted
    requires 0 <= i < |batch| && Revision(batch, i, key)
    ensures var entry := EntryOf(Fold(refresh, entries, batch, answers).entries, key);
            entry.manifest.Some? && entry.fingerprint == Some(batch[i].digest)
  {
    AllSound(refresh, entries, batch, answers, key);
    var s := Fold(refresh, entries, batch, answers);
    assert !Differs(batch, key, s.seen[key]);
  }

  // ---- The counters ----

  ghost function With(accepted: map<string, (Outcome, nat)>, outcome: Outcome): set<string> {
    set k | k in accepted && accepted[k].0 == outcome
  }

  ghost function Warnings(accepted: map<string, (Outcome, nat)>): int
    decreases |accepted|
  {
    if accepted == map[] then 0
    else
      var k :| k in accepted;
      accepted[k].1 + Warnings(accepted - {k})
  }

  lemma {:induction false} WarningsRemove(accepted: map<string, (Outcome, nat)>, k: string)
    requires k in accepted
    ensures Warnings(accepted) == accepted[k].1 + Warnings(accepted - {k})
    decreases |accepted|
  {
    var j :| j in accepted && Warnings(accepted) == accepted[j].1 + Warnings(accepted - {j});
    if j != k {
      WarningsRemove(accepted - {j}, k);
      WarningsRemove(accepted - {k}, j);
      assert accepted - {j} - {k} == accepted - {k} - {j};
    }
  }

  lemma WarningsAdd(accepted: map<string, (Outcome, nat)>, k: string, v: (Outcome, nat))
    requires k !in accepted
    ensures Warnings(accepted[k := v]) == Warnings(accepted) + v.1
  {
    WarningsRemove(accepted[k := v], k);
    assert accepted[k := v] - {k} == accepted;
  }

  lemma WithAdd(accepted: map<string, (Outcome, nat)>, k: string, v: (Outcome, nat), o: Outcome)
    requires k !in accepted
    ensures |With(accepted[k := v], o)| == |With(accepted, o)| + (if v.0 == o then 1 else 0)
  {
    assert With(accepted[k := v], o) == (if v.0 == o then With(accepted, o) + {k} else With(accepted, o));
  }

  lemma WithRemove(accepted: map<string, (Outcome, nat)>, k: string, o: Outcome)
    requires k in accepted
    ensures |With(accepted - {k}, o)| == |With(accepted, o)| - (if accepted[k].0 == o then 1 else 0)
  {
    assert With(accepted - {k}, o) == With(accepted, o) - {k};
  }

  ghost predicate Tallied(s: Progress, n: nat) {
    && s.counts.prepared == |With(s.accepted, Prepared)| + s.unreadBuilt
    && s.counts.same == |With(s.accepted, Unchanged)| + s.unreadSame
    && s.counts.warnings == Warnings(s.accepted)
    && n + s.unreadBuilt + s.unreadSame
       == s.counts.prepared + s.counts.same + s.counts.failed + s.skipped + s.retracted
    && forall k :: k in s.accepted ==> k in s.seen
  }

  lemma AcceptTallied(t: Progress, n: nat, key: string, entry: Entry, outcome: Outcome, x: Answer)
    requires Tallied(t, n) && key !in t.accepted && key in t.seen
    ensures Tallied(Accept(t, key, entry, outcome, x), n + 1)
  {
    if x.warnings.Some? {
      var v := (outcome, x.warnings.value);
      WithAdd(t.accepted, key, v, Prepared);
      WithAdd(t.accepted, key, v, Unchanged);
      WarningsAdd(t.accepted, key, v);
    }
  }

  lemma ConflictTallied(t: Progress, n: nat, key: string)
    requires Tallied(t, n) && key in t.previous
    ensures Tallied(Conflict(t, key), n + 1)
  {
    if key in t.accepted {
      WithRemove(t.accepted, key, Prepared);
      WithRemove(t.accepted, key, Unchanged);
      WarningsRemove(t.accepted, key);
    }
  }

  lemma FirstTallied(refresh: bool, t: Progress, n: nat, a: Article, x: Answer)
    requires Tallied(t, n) && a.key in t.entries && a.key !in t.accepted && a.key in t.seen
    ensures Tallied(First(refresh, t, a, x), n + 1)
  {
    var entry := t.entries[a.key];
    var built := t.(builds := t.builds + {a.key});
    if x.built.Some? { AcceptTallied(built, n, a.key, Entry(x.built, Some(a.digest), None), Prepared, x); }
    AcceptTallied(t, n, a.key, entry.(error := None), Unchanged, x);
  }

  /** `prepared`, `unchanged` and `warnings` are the totals over the finally accepted ids, and every item is accounted
      for, up to the manifests that could not be read back, each of which is counted both as handled and as failed. */
  lemma {:induction false} CountersExact(refresh: bool, entries: map<string, Entry>, batch: seq<Article>,
                                         answers: seq<Answer>)
    requires |answers| == |batch|
    ensures Tallied(Fold(refresh, entries, batch, answers), |batch|)
    decreases |batch|
  {
    if batch == [] {
      assert With(map[], Prepared) == {} && With(map[], Unchanged) == {};
    } else {
      var n := |batch| - 1;
      CountersExact(refresh, entries, batch[..n], answers[..n]);
      var s, a, x := Fold(refresh, entries, batch[..n], answers[..n]), batch[n], answers[n];
      if a.key != "" {
        var t := Enter(s, a.key);
        assert Tallied(t, n);
        if a.valid && a.key in t.seen {
          ConflictTallied(t, n, a.key);
        } else if a.valid {
          FirstTallied(refresh, t.(seen := t.seen[a.key := a.digest]), n, a, x);
        }
      }
    }
  }

  /** Item `i` is the first valid article with its key. */
  ghost predicate IsFirst(batch: seq<Article>, i: nat) {
    && i < |batch| && Revision(batch, i, batch[i].key)
    && forall j: nat :: j < i ==> !Revision(batch, j, batch[i].key)
  }

  /** Its files were verified or built, given the entry from before the batch. */
  predicate Finishes(refresh: bool, was: Entry, a: Article, x: Answer) {
    if !refresh && was.fingerprint == Some(a.digest) && was.manifest.Some? then x.verifies else x.built.Some?
  }

  /** And then its manifest could not be read back. */
  ghost predicate LostAt(refresh: bool, entries: map<string, Entry>, batch: seq<Article>, answers: seq<Answer>, i: nat)
    requires |answers| == |batch|
  {
    && IsFirst(batch, i) && Finishes(refresh, EntryOf(entries, batch[i].key), batch[i], answers[i])
    && answers[i].warnings.None?
  }

  ghost predicate NoLoss(refresh: bool, entries: map<string, Entry>, batch: seq<Article>, answers: seq<Answer>)
    requires |answers| == |batch|
  {
    forall i: nat :: i < |batch| ==> !LostAt(refresh, entries, batch, answers, i)
  }

  function Unreadable(s: Progress): nat {
    s.unreadBuilt + s.unreadSame
  }

  lemma FirstUnreadable(refresh: bool, t: Progress, a: Article, x: Answer)
    requires a.key in t.entries
    ensures Unreadable(First(refresh, t, a, x))
         == Unreadable(t) + (if Finishes(refresh, t.entries[a.key], a, x) && x.warnings.None? then 1 else 0)
  {
  }

  lemma FinishesSame(refresh: bool, was: Entry, now: Entry, a: Article, x: Answer)
    requires SamePointer(now, was)
    ensures Finishes(refresh, now, a, x) == Finishes(refresh, was, a, x)
  {
  }

  /** One item loses a reading exactly as the answers say. */
  lemma StepUnreadable(refresh: bool, entries: map<string, Entry>, front: seq<Article>, s: Progress, a: Article,
                       x: Answer)
    requires Sound(entries, front, s, a.key)
    ensures Unreadable(Step(refresh, s, a, x))
         == Unreadable(s)
            + (if a.key != "" && a.valid && !Occurs(front, a.key)
                  && Finishes(refresh, EntryOf(entries, a.key), a, x) && x.warnings.None? then 1 else 0)
  {
    if a.key != "" && a.valid && a.key !in s.seen {
      var t := Enter(s, a.key);
      FirstUnreadable(refresh, t.(seen := t.seen[a.key := a.digest]), a, x);
      FinishesSame(refresh, EntryOf(entries, a.key), EntryOf(s.entries, a.key), a, x);
    }
  }

  lemma LostFront(refresh: bool, entries: map<string, Entry>, batch: seq<Article>, answers: seq<Answer>, i: nat)
    requires |answers| == |batch| && i < |batch| - 1
    ensures var n := |batch| - 1;
            LostAt(refresh, entries, batch, answers, i) <==> LostAt(refresh, entries, batch[..n], answers[..n], i)
  {
    var front := batch[..|batch| - 1];
    forall j: nat | j <= i
      ensures Revision(batch, j, batch[i].key) == Revision(front, j, front[i].key)
    {
    }
  }

  lemma LostLast(refresh: bool, entries: map<string, Entry>, batch: seq<Article>, answers: seq<Answer>)
    requires |answers| == |batch| && batch != []
    ensures var n := |batch| - 1;
            var a, x := batch[n], answers[n];
            LostAt(refresh, entries, batch, answers, n)
            <==> a.key != "" && a.valid && !Occurs(batch[..n], a.key)
                 && Finishes(refresh, EntryOf(entries, a.key), a, x) && x.warnings.None?
  {
    var n := |batch| - 1;
    var front, key := batch[..n], batch[n].key;
    forall j: nat | j < n
      ensures Revision(batch, j, key) == Revision(front, j, key)
    {
    }
    if Occurs(front, key) {
      var j :| 0 <= j < n && Revision(front, j, key);
      assert Revision(batch, j, key);
    }
  }

  /** No reading is lost exactly when the answers to the first valid articles lose none. */
  lemma {:induction false} LossExactly(refresh: bool, entries: map<string, Entry>, batch: seq<Article>,
                                       answers: seq<Answer>)
    requires |answers| == |batch|
    ensures Unreadable(Fold(refresh, entries, batch, answers)) == 0 <==> NoLoss(refresh, entries, batch, answers)
    decreases |batch|
  {
    if batch != [] {
      var n := |batch| - 1;
      var front, before := batch[..n], answers[..n];
      LossExactly(refresh, entries, front, before);
      AllSound(refresh, entries, front, before, batch[n].key);
      StepUnreadable(refresh, entries, front, Fold(refresh, entries, front, before), batch[n], answers[n]);
      LostLast(refresh, entries, batch, answers);
      forall i: nat | i < n
        ensures LostAt(refresh, entries, batch, answers, i) <==> LostAt(refresh, entries, front, before, i)
      {
        LostFront(refresh, entries, batch, answers, i);
      }
    }
  }

  /** The totals hold without correction exactly when, for every first valid article of an id whose files were built or
      verified, the manifest could be read back. */
  lemma CountersWithoutLoss(refresh: bool, entries: map<string, Entry>, batch: seq<Article>, answers: seq<Answer>)
    requires |answers| == |batch|
    ensures var s := Fold(refresh, entries, batch, answers);
            NoLoss(refresh, entries, batch, answers)
            <==> && s.counts.prepared == |With(s.accepted, Prepared)|
                 && s.counts.same == |With(s.accepted, Unchanged)|
                 && |batch| == s.counts.prepared + s.counts.same + s.counts.failed + s.skipped + s.retracted
  {
    CountersExact(refresh, entries, batch, answers);
    LossExactly(refresh, entries, batch, answers);
  }

  /** A batch whose only article is built and then cannot be read back: it is counted as prepared and as failed, and
      nothing is accepted. */
  lemma CountedTwice()
    ensures var batch, answers := [Article("k", true, "d")], [Answer(Some("m"), true, None)];
            var s := Fold(false, map[], batch, answers);
            LostAt(false, map[], batch, answers, 0)
            && s.counts == Counts(1, 0, 1, 0) && s.accepted == map[] && |With(s.accepted, Prepared)| == 0
  {
    var batch, answers := [Article("k", true, "d")], [Answer(Some("m"), true, None)];
    assert batch[..0] == [] && answers[..0] == [];
    assert Revision(batch, 0, "k");
    var s := Fold(false, map[], batch, answers);
    assert s == Step(false, Start(map[]), batch[0], answers[0]);
    assert With(s.accepted, Prepared) == {};
  }

  // ---- Preparing the same batch again ----

  /** `key` stands in the state with this content. */
  ghost predicate Holds(entries: map<string, Entry>, key: string, manifest: Option<string>, digest: string) {
    manifest.Some? && EntryOf(entries, key).manifest == manifest && EntryOf(entries, key).fingerprint == Some(digest)
  }

  /** The files of `key` are as the last preparation left them. */
  ghost predicate Intact(batch: seq<Article>, answers: seq<Answer>, key: string)
    requires |answers| == |batch|
  {
    forall i :: 0 <= i < |batch| && Revision(batch, i, key) ==> answers[i].verifies && answers[i].warnings.Some?
  }

  lemma {:induction false} SecondRun(entries: map<string, Entry>, batch: seq<Article>, answers: seq<Answer>,
                                     key: string, manifest: Option<string>, digest: string)
    requires |answers| == |batch| && Intact(batch, answers, key) && Holds(entries, key, manifest, digest)
    requires key != "" && !Differs(batch, key, digest)
    ensures var s := Fold(false, entries, batch, answers);
            && Holds(s.entries, key, manifest, digest) && key !in s.builds
            && (key in s.seen <==> Occurs(batch, key))
            && (key in s.seen ==> s.seen[key] == digest && key in s.accepted && s.accepted[key].0 == Unchanged)
    decreases |batch|
  {
    if batch != [] {
      var n := |batch| - 1;
      var front, a, x := batch[..n], batch[n], answers[n];
      assert batch == front + [a];
      OccursAppend(front, a, key, digest);
      forall i | 0 <= i < n && Revision(front, i, key)
        ensures answers[..n][i].verifies && answers[..n][i].warnings.Some?
      {
        assert Revision(batch, i, key);
      }
      SecondRun(entries, front, answers[..n], key, manifest, digest);
      var s := Fold(false, entries, front, answers[..n]);
      if a.key == key {
        SecondOwn(s, a, x, manifest, digest);
        assert a.valid ==> Revision(batch, n, key);
      } else {
        StepElsewhere(false, s, a, x, key);
      }
    }
  }

  lemma SecondOwn(s: Progress, a: Article, x: Answer, manifest: Option<string>, digest: string)
    requires a.key != "" && Holds(s.entries, a.key, manifest, digest) && a.key !in s.builds
    requires a.valid ==> a.digest == digest && x.verifies && x.warnings.Some?
    requires a.key in s.seen ==> s.seen[a.key] == digest && a.key in s.accepted && s.accepted[a.key].0 == Unchanged
    ensures var t := Step(false, s, a, x);
            && Holds(t.entries, a.key, manifest, digest) && a.key !in t.builds
            && (a.key in t.seen <==> a.key in s.seen || a.valid)
            && (a.key in t.seen ==>
                  t.seen[a.key] == digest && a.key in t.accepted && t.accepted[a.key].0 == Unchanged)
  {
  }

  /** Preparing the same batch again, without refresh and with the files unmodified, builds nothing for a key the
      first run accepted: it is accepted again, as unchanged, with the same manifest. */
  lemma PrepareAgain(refresh: bool, entries: map<string, Entry>, batch: seq<Article>, first: seq<Answer>,
                     second: seq<Answer>, key: string)
    requires |first| == |second| == |batch| && key != ""
    requires key in Fold(refresh, entries, batch, first).accepted
    requires Intact(batch, second, key)
    ensures var one := Fold(refresh, entries, batch, first);
            var two := Fold(false, one.entries, batch, second);
            && key !in two.builds && key in two.accepted && two.accepted[key].0 == Unchanged
            && SamePointer(EntryOf(two.entries, key), EntryOf(one.entries, key))
  {
    AllSound(refresh, entries, batch, first, key);
    var one := Fold(refresh, entries, batch, first);
    SecondRun(one.entries, batch, second, key, EntryOf(one.entries, key).manifest, one.seen[key]);
  }
}
