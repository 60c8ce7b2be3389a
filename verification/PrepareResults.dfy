/** workspace.py Workspace.prepare: what a batch comes to for one id, in terms of its articles and the answers to
    them. */
module PrepareResults {
  import opened Basics
  import opened Prepare

  /** The files of the article are already there: it has the stored fingerprint and a manifest, and no refresh is
      asked for. */
  predicate Stored(refresh: bool, was: Entry, a: Article) {
    !refresh && was.manifest.Some? && was.fingerprint == Some(a.digest)
  }

  /** The first valid article decides what is built. */
  predicate Builds(refresh: bool, was: Entry, a: Article, x: Answer) {
    !Stored(refresh, was, a) && x.built.Some?
  }

  /** Its files verify or are built, and the manifest can be read back. */
  predicate Works(refresh: bool, was: Entry, a: Article, x: Answer) {
    && (if Stored(refresh, was, a) then x.verifies else x.built.Some?)
    && x.warnings.Some?
  }

  /** What belongs to `key` when `a` is its first valid article and `x` the answer to it: the pointer is the new one
      exactly when that was built and no other content came, and otherwise the one from before the batch; the key is
      accepted exactly when it worked and no other content came; then there is no error unless an invalid item came
      later. */
  ghost predicate Comes(refresh: bool, was: Entry, a: Article, x: Answer, unanimous: bool, invalid: bool, s: Progress,
                        key: string)
  {
    var now := EntryOf(s.entries, key);
    && key in s.seen && s.seen[key] == a.digest
    && (key in s.builds <==> Builds(refresh, was, a, x))
    && (if unanimous && Builds(refresh, was, a, x)
        then now.manifest == x.built && now.fingerprint == Some(a.digest)
        else SamePointer(now, was))
    && (key in s.accepted <==> unanimous && Works(refresh, was, a, x))
    && (key in s.accepted ==>
          s.accepted[key] == (if Stored(refresh, was, a) then Unchanged else Prepared, x.warnings.value))
    && (now.error.None? <==> key in s.accepted && !invalid)
  }

  /** And when it has no valid article: nothing but the error changes, and that only if an item has the key. */
  ghost predicate Stays(was: Entry, mentioned: bool, s: Progress, key: string) {
    var now := EntryOf(s.entries, key);
    && key !in s.seen && key !in s.builds && key !in s.accepted && SamePointer(now, was)
    && (if mentioned then now.error.Some? else now == was)
  }

  // ---- One item ----

  lemma FirstComes(refresh: bool, was: Entry, s: Progress, a: Article, x: Answer, mentioned: bool)
    requires a.key != "" && a.valid && Stays(was, mentioned, s, a.key)
    ensures Comes(refresh, was, a, x, true, false, Step(refresh, s, a, x), a.key)
  {
    var t := Enter(s, a.key);
    var u := t.(seen := t.seen[a.key := a.digest]);
    assert Step(refresh, s, a, x) == First(refresh, u, a, x);
    FirstLeaves(refresh, was, u, a, x);
  }

  lemma FirstLeaves(refresh: bool, was: Entry, t: Progress, a: Article, x: Answer)
    requires a.key in t.entries && SamePointer(t.entries[a.key], was) && a.key !in t.builds && a.key !in t.accepted
    requires a.key in t.seen && t.seen[a.key] == a.digest
    ensures Comes(refresh, was, a, x, true, false, First(refresh, t, a, x), a.key)
  {
  }

  lemma AgainComes(refresh: bool, was: Entry, first: Article, y: Answer, unanimous: bool, invalid: bool, s: Progress,
                   a: Article, x: Answer)
    requires a.key != "" && a.valid && Comes(refresh, was, first, y, unanimous, invalid, s, a.key)
    requires a.key in s.previous && s.previous[a.key] == was
    ensures Comes(refresh, was, first, y, unanimous && a.digest == first.digest, invalid, Step(refresh, s, a, x), a.key)
  {
    var t := Enter(s, a.key);
    if a.digest != first.digest { ConflictComes(refresh, was, first, y, unanimous, invalid, t, a.key); }
  }

  lemma ConflictComes(refresh: bool, was: Entry, first: Article, y: Answer, unanimous: bool, invalid: bool, t: Progress,
                      key: string)
    requires Comes(refresh, was, first, y, unanimous, invalid, t, key) && key in t.previous && t.previous[key] == was
    ensures Comes(refresh, was, first, y, false, invalid, Conflict(t, key), key)
  {
  }

  lemma InvalidComes(refresh: bool, was: Entry, first: Article, y: Answer, unanimous: bool, invalid: bool, s: Progress,
                     a: Article, x: Answer)
    requires a.key != "" && !a.valid && Comes(refresh, was, first, y, unanimous, invalid, s, a.key)
    ensures Comes(refresh, was, first, y, unanimous, true, Step(refresh, s, a, x), a.key)
  {
  }

  lemma InvalidStays(refresh: bool, was: Entry, mentioned: bool, s: Progress, a: Article, x: Answer)
    requires a.key != "" && !a.valid && Stays(was, mentioned, s, a.key)
    ensures Stays(was, true, Step(refresh, s, a, x), a.key)
  {
  }

  /** What another item leaves alone. */
  lemma OtherKeeps(refresh: bool, was: Entry, first: Article, y: Answer, unanimous: bool, invalid: bool, s: Progress,
                   a: Article, x: Answer, key: string)
    requires a.key != key
    ensures Comes(refresh, was, first, y, unanimous, invalid, s, key)
        ==> Comes(refresh, was, first, y, unanimous, invalid, Step(refresh, s, a, x), key)
    ensures Stays(was, invalid, s, key) ==> Stays(was, invalid, Step(refresh, s, a, x), key)
  {
    StepElsewhere(refresh, s, a, x, key);
  }

  // ---- The whole batch ----

  /** Every valid article with this key has this content. */
  ghost predicate Unanimous(batch: seq<Article>, key: string, digest: string) {
    forall j :: 0 <= j < |batch| && batch[j].key == key && batch[j].valid ==> batch[j].digest == digest
  }

  /** Some item from the `i`th on has this key and is not valid. */
  ghost predicate InvalidFrom(batch: seq<Article>, i: nat, key: string) {
    exists j :: i <= j < |batch| && batch[j].key == key && !batch[j].valid
  }

  ghost predicate Mentioned(batch: seq<Article>, key: string) {
    exists j :: 0 <= j < |batch| && batch[j].key == key
  }

  /** The first valid article with a key, if there is one. */
  function FirstRevision(batch: seq<Article>, key: string): (i: Option<nat>)
    ensures i.Some? ==> i.value < |batch| && batch[i.value].key == key && batch[i.value].valid
    ensures i.Some? ==> forall j :: 0 <= j < i.value ==> !(batch[j].key == key && batch[j].valid)
    ensures i.None? ==> forall j :: 0 <= j < |batch| ==> !(batch[j].key == key && batch[j].valid)
  {
    if batch == [] then None
    else
      var n := |batch| - 1;
      var front := FirstRevision(batch[..n], key);
      if front.Some? then front else if batch[n].key == key && batch[n].valid then Some(n) else None
  }

  ghost predicate Settled(refresh: bool, entries: map<string, Entry>, batch: seq<Article>, answers: seq<Answer>,
                          s: Progress, key: string)
    requires |answers| == |batch|
  {
    match FirstRevision(batch, key)
    case None => Stays(EntryOf(entries, key), Mentioned(batch, key), s, key)
    case Some(i) =>
      Comes(refresh, EntryOf(entries, key), batch[i], answers[i], Unanimous(batch, key, batch[i].digest),
            InvalidFrom(batch, i, key), s, key)
  }

  lemma {:induction false} AllSettled(refresh: bool, entries: map<string, Entry>, batch: seq<Article>,
                                      answers: seq<Answer>, key: string)
    requires |answers| == |batch| && key != ""
    ensures Settled(refresh, entries, batch, answers, Fold(refresh, entries, batch, answers), key)
    decreases |batch|
  {
    if batch != [] {
      var n := |batch| - 1;
      var front, before := batch[..n], answers[..n];
      AllSettled(refresh, entries, front, before, key);
      AllSound(refresh, entries, front, before, key);
      var s := Fold(refresh, entries, front, before);
      assert batch == front + [batch[n]] && answers == before + [answers[n]];
      Append(front, batch[n], key);
      if batch[n].key == key {
        OwnSettles(refresh, entries, front, before, s, batch[n], answers[n]);
      } else {
        OtherSettles(refresh, entries, front, before, s, batch[n], answers[n], key);
      }
    }
  }

  lemma Append(batch: seq<Article>, a: Article, key: string)
    ensures Mentioned(batch + [a], key) <==> Mentioned(batch, key) || a.key == key
    ensures forall digest :: Unanimous(batch + [a], key, digest)
              <==> Unanimous(batch, key, digest) && (a.key == key && a.valid ==> a.digest == digest)
    ensures forall i: nat :: i <= |batch| ==>
              (InvalidFrom(batch + [a], i, key) <==> InvalidFrom(batch, i, key) || (a.key == key && !a.valid))
    ensures FirstRevision(batch + [a], key)
         == if FirstRevision(batch, key).Some? then FirstRevision(batch, key)
            else if a.key == key && a.valid then Some(|batch|) else None
  {
    var all := batch + [a];
    assert all[..|batch|] == batch;
    assert all[|batch|] == a && forall j :: 0 <= j < |batch| ==> all[j] == batch[j];
    if Mentioned(batch, key) {
      var j :| 0 <= j < |batch| && batch[j].key == key;
      assert all[j].key == key;
    }
    forall i: nat | i <= |batch|
      ensures InvalidFrom(all, i, key) <==> InvalidFrom(batch, i, key) || (a.key == key && !a.valid)
    {
      if InvalidFrom(batch, i, key) {
        var j :| i <= j < |batch| && batch[j].key == key && !batch[j].valid;
        assert all[j].key == key && !all[j].valid;
      }
    }
  }

  lemma OwnSettles(refresh: bool, entries: map<string, Entry>, batch: seq<Article>, answers: seq<Answer>, s: Progress,
                   a: Article, x: Answer)
    requires |answers| == |batch| && a.key != "" && Settled(refresh, entries, batch, answers, s, a.key)
    requires Sound(entries, batch, s, a.key)
    ensures Settled(refresh, entries, batch + [a], answers + [x], Step(refresh, s, a, x), a.key)
  {
    var was, all := EntryOf(entries, a.key), batch + [a];
    Append(batch, a, a.key);
    match FirstRevision(batch, a.key)
    case None =>
      if a.valid {
        FirstComes(refresh, was, s, a, x, Mentioned(batch, a.key));
        NoneBefore(batch, a);
      } else {
        InvalidStays(refresh, was, Mentioned(batch, a.key), s, a, x);
      }
    case Some(i) =>
      var unanimous, invalid := Unanimous(batch, a.key, batch[i].digest), InvalidFrom(batch, i, a.key);
      assert all[i] == batch[i] && (answers + [x])[i] == answers[i];
      if a.valid {
        AgainComes(refresh, was, batch[i], answers[i], unanimous, invalid, s, a, x);
      } else {
        InvalidComes(refresh, was, batch[i], answers[i], unanimous, invalid, s, a, x);
      }
  }

  lemma NoneBefore(batch: seq<Article>, a: Article)
    requires FirstRevision(batch, a.key).None? && a.valid
    ensures Unanimous(batch + [a], a.key, a.digest) && !InvalidFrom(batch + [a], |batch|, a.key)
  {
  }

  lemma OtherSettles(refresh: bool, entries: map<string, Entry>, batch: seq<Article>, answers: seq<Answer>, s: Progress,
                     a: Article, x: Answer, key: string)
    requires |answers| == |batch| && a.key != key && Settled(refresh, entries, batch, answers, s, key)
    ensures Settled(refresh, entries, batch + [a], answers + [x], Step(refresh, s, a, x), key)
  {
    var was, all := EntryOf(entries, key), batch + [a];
    Append(batch, a, key);
    match FirstRevision(batch, key)
    case None => OtherKeeps(refresh, was, a, x, true, Mentioned(batch, key), s, a, x, key);
    case Some(i) =>
      assert all[i] == batch[i] && (answers + [x])[i] == answers[i];
      OtherKeeps(refresh, was, batch[i], answers[i], Unanimous(batch, key, batch[i].digest), InvalidFrom(batch, i, key),
                 s, a, x, key);
  }

  // ---- What that says ----

  /** An id is accepted exactly when all its valid articles have one content and the first of them worked. It is then
      prepared, with the manifest just built, if a refresh was asked for or the entry from before the batch has other
      content or no manifest, and otherwise unchanged, with the manifest from before the batch and nothing built. Its
      entry has no error exactly when no invalid item with its key came later. */
  lemma AcceptedExactly(refresh: bool, entries: map<string, Entry>, batch: seq<Article>, answers: seq<Answer>, i: nat)
    requires |answers| == |batch| && IsFirst(batch, i)
    ensures var s, key := Fold(refresh, entries, batch, answers), batch[i].key;
            var was, now, x := EntryOf(entries, key), EntryOf(s.entries, key), answers[i];
            var building := refresh || was.fingerprint != Some(batch[i].digest) || was.manifest.None?;
            && (key in s.accepted <==>
                  && (forall j :: 0 <= j < |batch| && Revision(batch, j, key) ==> batch[j].digest == batch[i].digest)
                  && (if building then x.built.Some? else x.verifies) && x.warnings.Some?)
            && (key in s.accepted ==>
                  && now.fingerprint == Some(batch[i].digest) && s.accepted[key].1 == x.warnings.value
                  && (if building then now.manifest == x.built && key in s.builds && s.accepted[key].0 == Prepared
                      else now.manifest == was.manifest && key !in s.builds && s.accepted[key].0 == Unchanged)
                  && (now.error == None <==> forall j :: i < j < |batch| && batch[j].key == key ==> batch[j].valid))
  {
    var s, key := Fold(refresh, entries, batch, answers), batch[i].key;
    AllSettled(refresh, entries, batch, answers, key);
    FirstIsRevision(batch, i);
    UnanimousIs(batch, key, batch[i].digest);
    InvalidAfter(batch, i);
    ComesSays(refresh, EntryOf(entries, key), batch[i], answers[i], Unanimous(batch, key, batch[i].digest),
              InvalidFrom(batch, i, key), s, key);
  }

  lemma ComesSays(refresh: bool, was: Entry, a: Article, x: Answer, unanimous: bool, invalid: bool, s: Progress,
                  key: string)
    requires Comes(refresh, was, a, x, unanimous, invalid, s, key)
    ensures var now := EntryOf(s.entries, key);
            var building := refresh || was.fingerprint != Some(a.digest) || was.manifest.None?;
            && (key in s.accepted <==>
                  unanimous && (if building then x.built.Some? else x.verifies) && x.warnings.Some?)
            && (key in s.accepted ==>
                  && now.fingerprint == Some(a.digest) && s.accepted[key].1 == x.warnings.value
                  && (if building then now.manifest == x.built && key in s.builds && s.accepted[key].0 == Prepared
                      else now.manifest == was.manifest && key !in s.builds && s.accepted[key].0 == Unchanged)
                  && (now.error == None <==> !invalid))
  {
  }

  lemma UnanimousIs(batch: seq<Article>, key: string, digest: string)
    requires key != ""
    ensures Unanimous(batch, key, digest)
       <==> forall j :: 0 <= j < |batch| && Revision(batch, j, key) ==> batch[j].digest == digest
  {
    assert forall j :: 0 <= j < |batch| ==> (Revision(batch, j, key) <==> batch[j].key == key && batch[j].valid);
  }

  lemma InvalidAfter(batch: seq<Article>, i: nat)
    requires IsFirst(batch, i)
    ensures InvalidFrom(batch, i, batch[i].key)
       <==> !forall j :: i < j < |batch| && batch[j].key == batch[i].key ==> batch[j].valid
  {
    assert Revision(batch, i, batch[i].key);
  }

  lemma FirstIsRevision(batch: seq<Article>, i: nat)
    requires IsFirst(batch, i)
    ensures FirstRevision(batch, batch[i].key) == Some(i)
  {
    var first := FirstRevision(batch, batch[i].key);
    assert Revision(batch, i, batch[i].key);
    assert first.Some?;
    assert Revision(batch, first.value, batch[i].key);
  }

  /** Where an id points after any batch: to what was just built, also when it could then not be read, if all its valid
      articles have that content; and in every other case to where it pointed before. An id that no item mentions is
      left alone, and one that is not accepted has an error. */
  lemma PointerExactly(refresh: bool, entries: map<string, Entry>, batch: seq<Article>, answers: seq<Answer>,
                       key: string)
    requires |answers| == |batch| && key != ""
    ensures var s, was := Fold(refresh, entries, batch, answers), EntryOf(entries, key);
            var first := FirstRevision(batch, key);
            var now := EntryOf(s.entries, key);
            && (if first.Some? && Unanimous(batch, key, batch[first.value].digest)
                   && Builds(refresh, was, batch[first.value], answers[first.value])
                then now.manifest == answers[first.value].built && now.fingerprint == Some(batch[first.value].digest)
                else now.manifest == was.manifest && now.fingerprint == was.fingerprint)
            && (key in s.builds <==>
                  first.Some? && Builds(refresh, was, batch[first.value], answers[first.value]))
            && (!Mentioned(batch, key) ==> now == was && key !in s.accepted)
            && (Mentioned(batch, key) && key !in s.accepted ==> now.error.Some?)
  {
    AllSettled(refresh, entries, batch, answers, key);
  }

  /** A valid article and then an invalid one with its id: the id is accepted and counted as prepared, and its entry has
      an error. */
  lemma AcceptedWithError()
    ensures var batch := [Article("k", true, "d"), Article("k", false, "")];
            var answers := [Answer(Some("m"), true, Some(0)), Answer(None, false, None)];
            var s := Fold(false, map[], batch, answers);
            && "k" in s.accepted && s.counts == Counts(1, 0, 1, 0)
            && EntryOf(s.entries, "k") == Entry(Some("m"), Some("d"), Some(FAILURE))
  {
    var a, b := Article("k", true, "d"), Article("k", false, "");
    var x, y := Answer(Some("m"), true, Some(0)), Answer(None, false, None);
    assert [a, b][..1] == [a] && [x, y][..1] == [x] && [a][..0] == [] && [x][..0] == [];
    var s := Step(false, Start(map[]), a, x);
    assert Fold(false, map[], [a], [x]) == s;
    assert s.accepted == map["k" := (Prepared, 0)] && s.entries == map["k" := Entry(Some("m"), Some("d"), None)];
    assert Fold(false, map[], [a, b], [x, y]) == Step(false, s, b, y);
  }

  // ---- How many items fail ----

  /** Item `i` has no usable id, is not valid, contradicts the first valid article of its id, or is that and does not
      work. */
  predicate Fails(refresh: bool, entries: map<string, Entry>, batch: seq<Article>, answers: seq<Answer>, i: nat)
    requires |answers| == |batch| && i < |batch|
  {
    var a := batch[i];
    var first := FirstRevision(batch[..i], a.key);
    || a.key == "" || !a.valid
    || (if first.Some? then batch[first.value].digest != a.digest
        else !Works(refresh, EntryOf(entries, a.key), a, answers[i]))
  }

  function Failures(refresh: bool, entries: map<string, Entry>, batch: seq<Article>, answers: seq<Answer>): nat
    requires |answers| == |batch|
  {
    if batch == [] then 0
    else
      var n := |batch| - 1;
      Failures(refresh, entries, batch[..n], answers[..n]) + if Fails(refresh, entries, batch, answers, n) then 1 else 0
  }

  lemma StepFails(refresh: bool, was: Entry, s: Progress, a: Article, x: Answer, mentioned: bool)
    requires a.key != "" && a.valid && Stays(was, mentioned, s, a.key)
    ensures Step(refresh, s, a, x).counts.failed == s.counts.failed + (if Works(refresh, was, a, x) then 0 else 1)
  {
  }

  lemma StepAgain(refresh: bool, was: Entry, first: Article, y: Answer, unanimous: bool, invalid: bool, s: Progress,
                  a: Article, x: Answer)
    requires a.key != "" && a.valid && Comes(refresh, was, first, y, unanimous, invalid, s, a.key)
    ensures Step(refresh, s, a, x).counts.failed == s.counts.failed + (if a.digest == first.digest then 0 else 1)
  {
  }

  /** The batch counts as failed exactly these items. */
  lemma {:induction false} FailedExactly(refresh: bool, entries: map<string, Entry>, batch: seq<Article>,
                                         answers: seq<Answer>)
    requires |answers| == |batch|
    ensures Fold(refresh, entries, batch, answers).counts.failed == Failures(refresh, entries, batch, answers)
    decreases |batch|
  {
    if batch != [] {
      var n := |batch| - 1;
      var front, before, a, x := batch[..n], answers[..n], batch[n], answers[n];
      FailedExactly(refresh, entries, front, before);
      var s, was := Fold(refresh, entries, front, before), EntryOf(entries, a.key);
      if a.key != "" && a.valid {
        AllSettled(refresh, entries, front, before, a.key);
        match FirstRevision(front, a.key)
        case None => StepFails(refresh, was, s, a, x, Mentioned(front, a.key));
        case Some(i) =>
          StepAgain(refresh, was, front[i], before[i], Unanimous(front, a.key, front[i].digest),
                    InvalidFrom(front, i, a.key), s, a, x);
      }
    }
  }
}
