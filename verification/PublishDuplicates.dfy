/** The exact environment under which the importer never creates two documents for one content key,
    and the run that does create them outside it. */
module PublishDuplicates {
  import opened Basics
  import opened Names
  import opened Publish
  import opened PublishClient
  import opened PublishWorld
  import IntentLog

  const KEY := "0"

  function Wanted(s: Setting): Item {
    Item(UploadName(s.installation, KEY, "post"), 1, ["post"])
  }

  function Command(s: Setting): Task {
    Upload([Work(KEY, Wanted(s))], false, false)
  }

  /** The stored records while the only attempt so far has this outcome. */
  function Stored(s: Setting, attempted: bool, error: Option<Failure>): map<string, Record> {
    map[KEY := NewRecord(Wanted(s)).(attempted := attempted, parse := "pending", error := error)]
  }

  function At(disk: map<string, Record>, mem: map<string, Record>, s: Setting, todo: bool, pc: Pc,
              made: map<string, string>): World
  {
    World(Client(disk, mem, Command(s), if todo then [Work(KEY, Wanted(s))] else [], {}, pc),
          Server(map[], made), {})
  }

  function Quiet(disk: map<string, Record>, s: Setting, made: map<string, string>): World {
    At(disk, disk, s, false, Off, made)
  }

  const PING := Do(Got(Page([])), "")

  /** A process that reaches the creation request, which the service executes under `id`. */
  function Attempt(s: Setting, id: string): seq<Label> {
    [Do(Begin(Command(s)), ""), PING, Do(Local, ""), Do(Save, ""), Do(Post, "t"), Land("t", id)]
  }

  /** The answer, then the end of the process. */
  function Ending(status: int): seq<Label> {
    [Do(Got(Broken(Failure("http.status_error", status))), ""), Do(Save, ""), Do(Local, "")]
  }

  /** A later process that starts to reconcile and sees its first page request fail. */
  function Reconciliation(s: Setting, status: int): seq<Label> {
    [Do(Begin(Command(s)), ""), PING, Do(Local, "")] + Ending(status)
  }

  lemma Prepend(s: Setting, w: World, l: Label, rest: seq<Label>)
    ensures Run(s, w, [l] + rest)
         == (if Step(s, w, l).None? then None else Run(s, Step(s, w, l).value, rest))
  {
    assert ([l] + rest)[1..] == rest;
  }

  lemma {:induction false} Concat(s: Setting, w: World, a: seq<Label>, b: seq<Label>)
    ensures Run(s, w, a + b)
         == (if Run(s, w, a).None? then None else Run(s, Run(s, w, a).value, b))
    decreases |a|
  {
    if a == [] {
      assert a + b == b;
    } else {
      assert a + b == [a[0]] + (a[1..] + b);
      Prepend(s, w, a[0], a[1..] + b);
      if Step(s, w, a[0]).Some? {
        Concat(s, Step(s, w, a[0]).value, a[1..], b);
      }
    }
  }

  lemma CommandWellNamed(s: Setting)
    ensures WellNamed(s, [Work(KEY, Wanted(s))])
  {
    OwnerOfUploadName(s.installation, KEY, "post");
  }

  lemma Starts(s: Setting, disk: map<string, Record>, w: World)
    requires w.client.disk == disk && w.client.pc == Off && w.server.wire == map[] && w.posted == {}
    ensures var admitted := At(disk, disk, s, true, Admission, w.server.made);
            && Step(s, w, Do(Begin(Command(s)), "")) == Some(admitted)
            && Step(s, admitted, PING) == Some(At(disk, disk, s, true, Between, w.server.made))
  {
    CommandWellNamed(s);
    NothingConfirmed(s);
  }

  lemma StartsWork(s: Setting, disk: map<string, Record>, w: World, rest: seq<Label>)
    requires w.client.disk == disk && w.client.pc == Off && w.server.wire == map[] && w.posted == {}
    ensures Run(s, w, [Do(Begin(Command(s)), "")] + ([PING] + rest))
         == Run(s, At(disk, disk, s, true, Between, w.server.made), rest)
  {
    Starts(s, disk, w);
    Prepend(s, w, Do(Begin(Command(s)), ""), [PING] + rest);
    Prepend(s, At(disk, disk, s, true, Admission, w.server.made), PING, rest);
  }

  lemma NothingConfirmed(s: Setting)
    ensures forall c, e :: Confirmed(s, c, e) == {} ==> {} + Confirmed(s, c, e) == {}
  {
  }

  lemma Marks(s: Setting, disk: map<string, Record>, error: Option<Failure>, made: map<string, string>)
    requires (disk == map[] && error == None) || disk == Stored(s, false, error)
    ensures Step(s, At(disk, disk, s, true, Between, made), Do(Local, ""))
         == Some(At(disk, Stored(s, true, error), s, false, Marked(KEY), made))
    ensures Step(s, At(disk, Stored(s, true, error), s, false, Marked(KEY), made), Do(Save, ""))
         == Some(At(Stored(s, true, error), Stored(s, true, error), s, false, Posting(KEY), made))
  {
    var m := Stored(s, true, error);
    assert disk[KEY := m[KEY]] == m;
    assert [Work(KEY, Wanted(s))][1..] == [];
    NothingConfirmed(s);
    assert Take(At(disk, disk, s, true, Between, made).client) == At(disk, m, s, false, Marked(KEY), made).client;
  }

  lemma Lands(s: Setting, m: map<string, Record>, made: map<string, string>, id: string)
    requires id !in made
    ensures var flying := At(m, m, s, false, Awaiting(KEY), made).(server := Server(map["t" := KEY], made));
            && Step(s, At(m, m, s, false, Posting(KEY), made), Do(Post, "t")) == Some(flying)
            && Step(s, flying, Land("t", id)) == Some(At(m, m, s, false, Awaiting(KEY), made[id := KEY]))
  {
    NothingConfirmed(s);
    var none: map<string, string> := map[];
    assert none["t" := KEY] == map["t" := KEY] && map["t" := KEY] - {"t"} == none;
  }

  lemma AttemptLands(s: Setting, w: World, error: Option<Failure>, id: string)
    requires (w.client.disk == map[] && error == None) || w.client.disk == Stored(s, false, error)
    requires w.client.pc == Off && w.server.wire == map[] && w.posted == {} && id !in w.server.made
    ensures var m := Stored(s, true, error);
            Run(s, w, Attempt(s, id)) == Some(At(m, m, s, false, Awaiting(KEY), w.server.made[id := KEY]))
  {
    var disk, made, m := w.client.disk, w.server.made, Stored(s, true, error);
    var posting := [Do(Post, "t")] + ([Land("t", id)] + []);
    var saving := [Do(Save, "")] + posting;
    var tail := [Do(Local, "")] + saving;
    assert Attempt(s, id) == [Do(Begin(Command(s)), "")] + ([PING] + tail);
    StartsWork(s, disk, w, tail);
    Marks(s, disk, error, made);
    Prepend(s, At(disk, disk, s, true, Between, made), Do(Local, ""), saving);
    Prepend(s, At(disk, m, s, false, Marked(KEY), made), Do(Save, ""), posting);
    PostLands(s, m, made, id);
  }

  lemma PostLands(s: Setting, m: map<string, Record>, made: map<string, string>, id: string)
    requires id !in made
    ensures Run(s, At(m, m, s, false, Posting(KEY), made), [Do(Post, "t")] + ([Land("t", id)] + []))
         == Some(At(m, m, s, false, Awaiting(KEY), made[id := KEY]))
  {
    var flying := At(m, m, s, false, Awaiting(KEY), made).(server := Server(map["t" := KEY], made));
    Lands(s, m, made, id);
    Prepend(s, At(m, m, s, false, Posting(KEY), made), Do(Post, "t"), [Land("t", id)] + []);
    Prepend(s, flying, Land("t", id), []);
  }

  /** What is stored once a request has failed with this status. */
  function Left(s: Setting, status: int): map<string, Record> {
    Stored(s, !Definitive(status), Some(Failure("http.status_error", status)))
  }

  lemma Fails(s: Setting, error: Option<Failure>, status: int, pc: Pc, made: map<string, string>)
    requires pc == Awaiting(KEY) || pc == Listing(KEY, START)
    requires Definitive(status) ==> status in (if pc.Awaiting? then s.lies else s.listFails)
    ensures var m := Stored(s, true, error);
            Step(s, At(m, m, s, false, pc, made), Do(Got(Broken(Failure("http.status_error", status))), ""))
            == Some(At(m, Left(s, status), s, false, Closing(KEY), made))
  {
    var m, n := Stored(s, true, error), Left(s, status);
    assert m[KEY := n[KEY]] == n;
    NothingConfirmed(s);
  }

  lemma Closes(s: Setting, m: map<string, Record>, n: map<string, Record>, made: map<string, string>)
    ensures Step(s, At(m, n, s, false, Closing(KEY), made), Do(Save, "")) == Some(At(n, n, s, false, Between, made))
    ensures Step(s, At(n, n, s, false, Between, made), Do(Local, "")) == Some(Quiet(n, s, made))
  {
    NothingConfirmed(s);
  }

  /** A failed request clears the mark when its status is definitive, whether or not the creation
      request itself was the one that failed. */
  lemma Ends(s: Setting, error: Option<Failure>, status: int, pc: Pc, made: map<string, string>)
    requires pc == Awaiting(KEY) || pc == Listing(KEY, START)
    requires Definitive(status) ==> status in (if pc.Awaiting? then s.lies else s.listFails)
    ensures Run(s, At(Stored(s, true, error), Stored(s, true, error), s, false, pc, made), Ending(status))
         == Some(Quiet(Left(s, status), s, made))
  {
    var m, n := Stored(s, true, error), Left(s, status);
    var got := Do(Got(Broken(Failure("http.status_error", status))), "");
    var last := [Do(Local, "")] + [];
    var saving := [Do(Save, "")] + last;
    Fails(s, error, status, pc, made);
    Closes(s, m, n, made);
    assert Ending(status) == [got] + saving;
    Prepend(s, At(m, m, s, false, pc, made), got, saving);
    Prepend(s, At(m, n, s, false, Closing(KEY), made), Do(Save, ""), last);
    Prepend(s, At(n, n, s, false, Between, made), Do(Local, ""), []);
  }

  lemma Resumes(s: Setting, error: Option<Failure>, made: map<string, string>)
    ensures var m := Stored(s, true, error);
            Step(s, At(m, m, s, true, Between, made), Do(Local, ""))
            == Some(At(m, m, s, false, Listing(KEY, START), made))
  {
    var m := Stored(s, true, error);
    assert m[KEY := m[KEY]] == m;
    assert [Work(KEY, Wanted(s))][1..] == [];
    NothingConfirmed(s);
    assert Take(At(m, m, s, true, Between, made).client) == At(m, m, s, false, Listing(KEY, START), made).client;
  }

  lemma Reconciles(s: Setting, error: Option<Failure>, status: int, made: map<string, string>)
    requires Definitive(status) && status in s.listFails
    ensures Run(s, Quiet(Stored(s, true, error), s, made), Reconciliation(s, status))
         == Some(Quiet(Stored(s, false, Some(Failure("http.status_error", status))), s, made))
  {
    var m := Stored(s, true, error);
    var tail := [Do(Local, "")] + Ending(status);
    assert Reconciliation(s, status) == [Do(Begin(Command(s)), "")] + ([PING] + tail);
    StartsWork(s, m, Quiet(m, s, made), tail);
    Resumes(s, error, made);
    Prepend(s, At(m, m, s, true, Between, made), Do(Local, ""), Ending(status));
    Ends(s, error, status, Listing(KEY, START), made);
  }

  /** The run that creates a second document: the first request is executed, and then either its answer is a
      definitive rejection, or its answer is lost and a page request of the next process ends in such a status. */
  function Duplicating(s: Setting, status: int): seq<Label> {
    Attempt(s, "a")
    + ((if status in s.lies then Ending(status) else Ending(0) + Reconciliation(s, status)) + Attempt(s, "b"))
  }

  lemma Duplicates(s: Setting, status: int)
    requires Definitive(status) && (status in s.lies || status in s.listFails)
    ensures var w := Run(s, CREATION, Duplicating(s, status));
            w.Some? && w.value.server.made == map["a" := KEY, "b" := KEY]
  {
    var failure := Some(Failure("http.status_error", status));
    var one := map["a" := KEY];
    var middle := if status in s.lies then Ending(status) else Ending(0) + Reconciliation(s, status);
    var sent := At(Stored(s, true, None), Stored(s, true, None), s, false, Awaiting(KEY), one);
    var cleared := Quiet(Stored(s, false, failure), s, one);
    AttemptLands(s, CREATION, None, "a");
    assert Run(s, sent, middle) == Some(cleared) by {
      if status in s.lies {
        Ends(s, None, status, Awaiting(KEY), one);
      } else {
        Ends(s, None, 0, Awaiting(KEY), one);
        Reconciles(s, Some(Failure("http.status_error", 0)), status, one);
        Concat(s, sent, Ending(0), Reconciliation(s, status));
      }
    }
    AttemptLands(s, cleared, failure, "b");
    Concat(s, sent, middle, Attempt(s, "b"));
    Concat(s, CREATION, Attempt(s, "a"), middle + Attempt(s, "b"));
  }

  /** At most one document per content key, over every run, exactly when a definitive rejection of a creation
      request means that nothing was created, and no page request of reconcile ends in such a status. */
  lemma AtMostOneExactly(s: Setting)
    ensures AtMostOneDocument(s) <==> !AnyDefinitive(s.lies) && !AnyDefinitive(s.listFails)
  {
    if !AnyDefinitive(s.lies) && !AnyDefinitive(s.listFails) {
      forall labels, k | Run(s, CREATION, labels).Some?
        ensures |Tagged(Run(s, CREATION, labels).value.server.made, k)| <= 1
      {
        assert Tagged(CREATION.server.made, k) == {} && Tagged(CREATION.server.wire, k) == {};
        SafeRun(s, CREATION, labels, k);
      }
    } else {
      var status :| Definitive(status) && (status in s.lies || status in s.listFails);
      Duplicates(s, status);
      assert Tagged(map["a" := KEY, "b" := KEY], KEY) == {"a", "b"};
    }
  }
}
