/** publish.py create_knowledge_base: one knowledge base per (base URL, tenant, name), created at most once. */
module KnowledgeBases {
  import opened Basics
  import opened Publish
  import IntentLog
  import Traces

  /** state["knowledge_base_creations"][identity]; `id == ""` means no id is recorded. */
  datatype Creation = Creation(attempted: bool, id: string)

  /** A listed knowledge base; its description is the marker of the installation and identity that created it. */
  datatype Base = Base(id: string, name: string, description: string)

  /** `Other` is a body of an unexpected shape. */
  datatype Answer = Value(base: Base) | Bases(bases: seq<Base>) | Other | Refused(failure: Failure)

  datatype Pc = Off | Confirming | Listing | Marked | Posting | Awaiting | Resetting | Storing(created: bool)

  datatype Client = Client(disk: Creation, mem: Creation, pc: Pc)

  /** What is sent to the service. */
  datatype Request = Fetch(id: string) | List | Make(name: string, marker: string)

  datatype Event = Begin | Stop | Save | Post | Got(answer: Answer)

  const UNRESOLVED_BASE := Failure("mindcreek.knowledge_base_create_unresolved", 0)
  const BASE_MISMATCH := Failure("mindcreek.knowledge_base_identity_mismatch", 0)

  predicate Mine(name: string, marker: string, b: Base) {
    b.name == name && b.description == marker
  }

  function Matches(name: string, marker: string, bases: seq<Base>): seq<Base> {
    if bases == [] then []
    else
      var b := bases[|bases| - 1];
      Matches(name, marker, bases[..|bases| - 1]) + (if Mine(name, marker, b) then [b] else [])
  }

  lemma {:induction false} MatchesMember(name: string, marker: string, bases: seq<Base>, b: Base)
    ensures b in Matches(name, marker, bases) <==> b in bases && Mine(name, marker, b)
  {
    if bases != [] {
      MatchesMember(name, marker, bases[..|bases| - 1], b);
      assert bases == bases[..|bases| - 1] + [bases[|bases| - 1]];
    }
  }

  /** The id lines 58-64 find in the listing. */
  function Listed(name: string, marker: string, answer: Answer): Result<string, Failure> {
    match answer
    case Refused(f) => Err(f)
    case Bases(bases) =>
      var matches := Matches(name, marker, bases);
      if |matches| != 1 || matches[0].id == "" then Err(UNRESOLVED_BASE) else Ok(matches[0].id)
    case _ => Err(Failure("mindcreek.invalid_list", 0))
  }

  /** The listing has exactly one base with this name and marker, and that has this id. */
  ghost predicate Sole(name: string, marker: string, bases: seq<Base>, id: string) {
    exists i :: 0 <= i < |bases| && bases[i] == Base(id, name, marker)
      && forall j :: 0 <= j < |bases| && j != i ==> !(bases[j].name == name && bases[j].description == marker)
  }

  /** How many there are. */
  lemma {:induction false} MatchesAre(name: string, marker: string, bases: seq<Base>)
    ensures Matches(name, marker, bases) == [] <==>
              forall j :: 0 <= j < |bases| ==> !(bases[j].name == name && bases[j].description == marker)
    ensures forall id :: Matches(name, marker, bases) == [Base(id, name, marker)] <==> Sole(name, marker, bases, id)
    ensures forall b :: b in Matches(name, marker, bases) ==> b == Base(b.id, name, marker)
    decreases |bases|
  {
    if bases != [] {
      var n := |bases| - 1;
      var front, last := bases[..n], bases[n];
      assert bases == front + [last];
      MatchesAre(name, marker, front);
      var matches := Matches(name, marker, front);
      forall id
        ensures Matches(name, marker, bases) == [Base(id, name, marker)] <==> Sole(name, marker, bases, id)
      {
        SoleNext(name, marker, front, last, id);
        if Mine(name, marker, last) {
          var all := matches + [last];
          assert all[|matches|] == last;
          if all == [Base(id, name, marker)] { assert |all| == 1; }
          if matches == [] { assert all == [last]; }
        } else {
          assert matches + [] == matches;
        }
      }
    }
  }

  lemma SoleNext(name: string, marker: string, front: seq<Base>, last: Base, id: string)
    ensures var none := forall j :: 0 <= j < |front| ==> !(front[j].name == name && front[j].description == marker);
            Sole(name, marker, front + [last], id)
            <==> if last.name == name && last.description == marker then none && last.id == id
                 else Sole(name, marker, front, id)
  {
    var bases := front + [last];
    assert bases[|front|] == last && forall j :: 0 <= j < |front| ==> bases[j] == front[j];
    if Sole(name, marker, bases, id) {
      var i :| 0 <= i < |bases| && bases[i] == Base(id, name, marker)
        && forall j :: 0 <= j < |bases| && j != i ==> !(bases[j].name == name && bases[j].description == marker);
      if i < |front| { assert front[i] == Base(id, name, marker); }
    }
    if Sole(name, marker, front, id) && !(last.name == name && last.description == marker) {
      var i :| 0 <= i < |front| && front[i] == Base(id, name, marker)
        && forall j :: 0 <= j < |front| && j != i ==> !(front[j].name == name && front[j].description == marker);
      assert bases[i] == Base(id, name, marker);
    }
  }

  /** A listing leads to an id exactly when the one base in it with this name and marker has that id. */
  lemma ListedExactly(name: string, marker: string, bases: seq<Base>)
    ensures forall id :: Listed(name, marker, Bases(bases)) == Ok(id) <==> id != "" && Sole(name, marker, bases, id)
    ensures Listed(name, marker, Bases(bases)).Err? ==> Listed(name, marker, Bases(bases)) == Err(UNRESOLVED_BASE)
  {
    MatchesAre(name, marker, bases);
    var matches := Matches(name, marker, bases);
    if |matches| == 1 { assert matches[0] in matches && matches == [Base(matches[0].id, name, marker)]; }
    forall id
      ensures Listed(name, marker, Bases(bases)) == Ok(id) <==> id != "" && Sole(name, marker, bases, id)
    {
      if id != "" && Sole(name, marker, bases, id) { assert |matches| == 1 && matches[0].id == id; }
    }
  }

  /** The id in the answer to the creation request (lines 69-77). */
  function Created(answer: Answer): Result<string, Failure> {
    match answer
    case Refused(f) => Err(f)
    case Value(b) => if b.id == "" then Err(BASE_MISMATCH) else Ok(b.id)
    case _ => Err(BASE_MISMATCH)
  }

  function Next(name: string, marker: string, c: Client, e: Event): Option<Client> {
    match e
    case Stop => Some(c.(pc := Off))
    case Begin =>
      if c.pc != Off then None
      else if c.disk.id != "" then Some(Client(c.disk, c.disk, Confirming))
      else if c.disk.attempted then Some(Client(c.disk, c.disk, Listing))
      else Some(Client(c.disk, c.disk.(attempted := true), Marked))
    case Save =>
      var saved := c.(disk := c.mem);
      (match c.pc
       case Marked => Some(saved.(pc := Posting))
       case Resetting => Some(saved.(pc := Off))
       case Storing(_) => Some(saved.(pc := Off))
       case _ => None)
    case Post => if c.pc == Posting then Some(c.(pc := Awaiting)) else None
    case Got(answer) =>
      (match c.pc
       case Confirming => Some(c.(pc := Off))
       case Listing =>
         (match Listed(name, marker, answer)
          case Ok(id) => Some(c.(mem := c.mem.(id := id), pc := Storing(false)))
          case Err(_) => Some(c.(pc := Off)))
       case Awaiting =>
         (match Created(answer)
          case Ok(id) => Some(c.(mem := c.mem.(id := id), pc := Storing(true)))
          case Err(f) =>
            if Definitive(f.status) then Some(c.(mem := c.mem.(attempted := false), pc := Resetting))
            else Some(c.(pc := Off)))
       case _ => None)
  }

  /** The step sequence for one name and marker, as a value. */
  function Sequence(name: string, marker: string): (Client, Event) -> Option<Client> {
    (c, e) => Next(name, marker, c, e)
  }

  /** The request an event stands for. */
  function Asked(name: string, marker: string): (Client, Event) -> Option<Request> {
    (c: Client, e: Event) =>
      if e.Post? then Some(Make(name, marker))
      else if e.Got? && c.pc == Confirming then Some(Fetch(c.disk.id))
      else if e.Got? && c.pc == Listing then Some(List)
      else None
  }

  // ---- The service ----

  /** `flying` creation requests may still be executed; `made` are the bases they created. */
  datatype World = World(client: Client, flying: nat, made: set<string>)

  datatype Setting = Setting(name: string, marker: string, lies: set<int>)

  datatype Label = Do(event: Event, discarded: bool) | Land(id: string) | Drop

  const CREATION := World(Client(Creation(false, ""), Creation(false, ""), Off), 0, {})

  /** A base under this marker is one its requests created, and the answer to a request names such a base. */
  predicate Truthful(s: Setting, w: World, answer: Answer) {
    match answer
    case Value(b) => w.client.pc == Awaiting && b.id != "" ==> b.id in w.made
    case Bases(bases) =>
      forall i :: 0 <= i < |bases| && Mine(s.name, s.marker, bases[i]) ==> bases[i].id in w.made
    case _ => true
  }

  /** A definitive rejection of the creation request discards it, unless its status is among `lies`. */
  predicate Honest(s: Setting, w: World, answer: Answer, discarded: bool) {
    var rejected := w.client.pc == Awaiting && answer.Refused? && Definitive(answer.failure.status);
    && (discarded ==> rejected && w.flying > 0)
    && (rejected && !discarded ==> answer.failure.status in s.lies)
  }

  /** What the service allows at a step of the client, and what it does to it. */
  function Serve(s: Setting, w: World, e: Event, discarded: bool): Option<World> {
    match e
    case Post => Some(w.(flying := w.flying + 1))
    case Got(answer) =>
      if !(Truthful(s, w, answer) && Honest(s, w, answer, discarded)) then None
      else if discarded then Some(w.(flying := w.flying - 1)) else Some(w)
    case _ => Some(w)
  }

  function Step(s: Setting, w: World, l: Label): Option<World> {
    match l
    case Drop => if w.flying > 0 then Some(w.(flying := w.flying - 1)) else None
    case Land(id) =>
      if w.flying > 0 && id !in w.made then Some(w.(flying := w.flying - 1, made := w.made + {id})) else None
    case Do(e, discarded) =>
      var c, v := Next(s.name, s.marker, w.client, e), Serve(s, w, e, discarded);
      if c.None? || v.None? then None else Some(v.value.(client := c.value))
  }

  function Run(s: Setting, w: World, labels: seq<Label>): Option<World>
    decreases |labels|
  {
    if labels == [] then Some(w)
    else
      var next := Step(s, w, labels[0]);
      if next.None? then None else Run(s, next.value, labels[1..])
  }

  function MarkOf(r: Creation): IntentLog.Mark {
    if r.id != "" then IntentLog.Settled else if r.attempted then IntentLog.Unknown else IntentLog.Clear
  }

  function View(w: World): IntentLog.Log {
    var c := w.client;
    var stage := if c.pc == Marked || c.pc == Posting then IntentLog.Armed
                 else if c.pc == Awaiting then IntentLog.Waiting else IntentLog.Ready;
    IntentLog.Log(MarkOf(c.disk),
                  if c.pc == Off then IntentLog.Nobody else IntentLog.Holder(MarkOf(c.mem), stage),
                  w.flying, |w.made|)
  }

  predicate PcOk(c: Client) {
    match c.pc
    case Off => true
    case Confirming => c.mem == c.disk && c.mem.id != ""
    case Listing => c.mem == c.disk && c.mem == Creation(true, "")
    case Marked => c.mem == Creation(true, "") && c.disk == Creation(false, "")
    case Posting => c.mem == c.disk && c.mem == Creation(true, "")
    case Awaiting => c.mem == c.disk && c.mem == Creation(true, "")
    case Resetting => c.mem == Creation(false, "")
    case Storing(_) => c.mem.id != "" && c.mem.attempted
  }

  ghost predicate Inv(s: Setting, w: World) {
    && PcOk(w.client) && IntentLog.Safe(View(w))
    && Genuine(w)
  }

  /** The moves of the intent log that a label is: some events are two at once. */
  function Moves(s: Setting, w: World, l: Label): seq<IntentLog.Move> {
    match l
    case Land(_) => [IntentLog.Land]
    case Drop => [IntentLog.Drop]
    case Do(Begin, _) =>
      if MarkOf(w.client.disk).Clear? then [IntentLog.Load, IntentLog.Arm] else [IntentLog.Load]
    case Do(Stop, _) => [IntentLog.Crash]
    case Do(Save, _) => if w.client.pc == Marked then [IntentLog.Save] else [IntentLog.Save, IntentLog.Crash]
    case Do(Post, _) => [IntentLog.Send]
    case Do(Got(answer), discarded) =>
      if w.client.pc == Listing && Listed(s.name, s.marker, answer).Ok? then [IntentLog.Settle]
      else if w.client.pc == Awaiting then
        match Created(answer) {
          case Ok(_) => [IntentLog.Settle]
          case Err(f) => if !Definitive(f.status) then [IntentLog.Crash]
                         else if discarded then [IntentLog.Refuse] else [IntentLog.Lie]
        }
      else [IntentLog.Crash]
  }

  function FaultOf(s: Setting): IntentLog.Fault {
    IntentLog.Fault(AnyDefinitive(s.lies), false)
  }

  lemma PcOkNext(name: string, marker: string, c: Client, e: Event)
    requires PcOk(c) && Next(name, marker, c, e).Some?
    ensures PcOk(Next(name, marker, c, e).value)
  {
  }

  /** A label leads the log where the world goes. */
  ghost predicate Refined(s: Setting, w: World, l: Label)
    requires Step(s, w, l).Some?
  {
    IntentLog.Leads(FaultOf(s), View(w), Moves(s, w, l), View(Step(s, w, l).value))
  }

  /** Every step of the world is a move of the intent log, or two. */
  lemma Refines(s: Setting, w: World, l: Label)
    requires PcOk(w.client) && Step(s, w, l).Some?
    ensures Refined(s, w, l)
  {
    match l
    case Land(id) => RefinesLand(s, w, id);
    case Drop =>
    case Do(e, discarded) =>
      match e {
        case Got(answer) => RefinesGot(s, w, answer, discarded);
        case Save => RefinesSave(s, w, discarded);
        case _ => RefinesRest(s, w, e, discarded);
      }
  }

  lemma RefinesLand(s: Setting, w: World, id: string)
    requires w.flying > 0 && id !in w.made
    ensures Refined(s, w, Land(id))
  {
    assert |w.made + {id}| == |w.made| + 1;
  }

  lemma RefinesSave(s: Setting, w: World, discarded: bool)
    requires PcOk(w.client) && Step(s, w, Do(Save, discarded)).Some?
    ensures Refined(s, w, Do(Save, discarded))
  {
  }

  lemma RefinesRest(s: Setting, w: World, e: Event, discarded: bool)
    requires PcOk(w.client) && Step(s, w, Do(e, discarded)).Some? && !e.Save? && !e.Got?
    ensures Refined(s, w, Do(e, discarded))
  {
  }

  lemma RefinesGot(s: Setting, w: World, answer: Answer, discarded: bool)
    requires PcOk(w.client) && Step(s, w, Do(Got(answer), discarded)).Some?
    ensures Refined(s, w, Do(Got(answer), discarded))
  {
    if w.client.pc == Awaiting && answer.Refused? {
      assert answer.failure.status in s.lies && Definitive(answer.failure.status) ==> AnyDefinitive(s.lies);
    }
  }

  lemma ListedMade(s: Setting, w: World, answer: Answer)
    requires w.client.pc == Listing && Truthful(s, w, answer) && Listed(s.name, s.marker, answer).Ok?
    ensures Listed(s.name, s.marker, answer).value in w.made
  {
    var found := Matches(s.name, s.marker, answer.bases);
    MatchesMember(s.name, s.marker, answer.bases, found[0]);
  }

  /** Recorded ids are of created bases. */
  ghost predicate Genuine(w: World) {
    && (w.client.disk.id != "" ==> w.client.disk.id in w.made)
    && (w.client.pc.Storing? ==> w.client.mem.id in w.made)
  }

  lemma GenuineStep(s: Setting, w: World, l: Label)
    requires PcOk(w.client) && Genuine(w) && Step(s, w, l).Some?
    ensures Genuine(Step(s, w, l).value)
  {
    if l.Do? && l.event.Got? && w.client.pc == Listing && Listed(s.name, s.marker, l.event.answer).Ok? {
      ListedMade(s, w, l.event.answer);
    }
  }

  lemma PcOkStep(s: Setting, w: World, l: Label)
    requires PcOk(w.client) && Step(s, w, l).Some?
    ensures PcOk(Step(s, w, l).value.client)
  {
    if l.Do? { PcOkNext(s.name, s.marker, w.client, l.event); }
  }

  lemma SafeNext(s: Setting, w: World, l: Label)
    requires !AnyDefinitive(s.lies) && Inv(s, w) && Step(s, w, l).Some?
    ensures IntentLog.Safe(View(Step(s, w, l).value))
  {
    Refines(s, w, l);
    IntentLog.SafeLeads(FaultOf(s), View(w), Moves(s, w, l), View(Step(s, w, l).value));
  }

  lemma InvStep(s: Setting, w: World, l: Label)
    requires !AnyDefinitive(s.lies) && Inv(s, w) && Step(s, w, l).Some?
    ensures Inv(s, Step(s, w, l).value)
  {
    SafeNext(s, w, l);
    PcOkStep(s, w, l);
    GenuineStep(s, w, l);
  }

  lemma {:induction false} InvRun(s: Setting, w: World, labels: seq<Label>)
    requires !AnyDefinitive(s.lies) && Inv(s, w) && Run(s, w, labels).Some?
    ensures Inv(s, Run(s, w, labels).value)
    decreases |labels|
  {
    if labels != [] {
      InvStep(s, w, labels[0]);
      InvRun(s, Step(s, w, labels[0]).value, labels[1..]);
    }
  }

  ghost predicate AtMostOneBase(s: Setting) {
    forall labels :: Run(s, CREATION, labels).Some? ==> |Run(s, CREATION, labels).value.made| <= 1
  }

  function Attempt(id: string): seq<Label> {
    [Do(Begin, false), Do(Save, false), Do(Post, false), Land(id)]
  }

  lemma Prepend(s: Setting, w: World, l: Label, rest: seq<Label>)
    ensures Run(s, w, [l] + rest)
         == (if Step(s, w, l).None? then None else Run(s, Step(s, w, l).value, rest))
  {
    assert ([l] + rest)[1..] == rest;
  }

  lemma AttemptLands(s: Setting, w: World, id: string, rest: seq<Label>)
    requires w.client.disk == Creation(false, "") && w.client.pc == Off && w.flying == 0 && id !in w.made
    ensures var tried := Creation(true, "");
            Run(s, w, Attempt(id) + rest) == Run(s, World(Client(tried, tried, Awaiting), 0, w.made + {id}), rest)
  {
    var tried := Creation(true, "");
    var landing := [Land(id)] + rest;
    var posting := [Do(Post, false)] + landing;
    var saving := [Do(Save, false)] + posting;
    assert Attempt(id) + rest == [Do(Begin, false)] + saving;
    Prepend(s, w, Do(Begin, false), saving);
    Prepend(s, w.(client := Client(w.client.disk, tried, Marked)), Do(Save, false), posting);
    Prepend(s, w.(client := Client(tried, tried, Posting)), Do(Post, false), landing);
    Prepend(s, World(Client(tried, tried, Awaiting), 1, w.made), Land(id), rest);
  }

  /** The run with two bases: the first request is executed and its answer is a rejection all the same. */
  function Twice(status: int): seq<Label> {
    Attempt("a")
        + ([Do(Got(Refused(Failure("http.status_error", status))), false)] + ([Do(Save, false)] + (Attempt("b") + [])))
  }

  lemma MakesTwo(s: Setting, status: int)
    requires Definitive(status) && status in s.lies
    ensures Run(s, CREATION, Twice(status)).Some? && Run(s, CREATION, Twice(status)).value.made == {"a", "b"}
  {
    var lie := Do(Got(Refused(Failure("http.status_error", status))), false);
    var tried, clear := Creation(true, ""), Creation(false, "");
    var again := Attempt("b") + [];
    AttemptLands(s, CREATION, "a", [lie] + ([Do(Save, false)] + again));
    assert CREATION.made + {"a"} == {"a"};
    Prepend(s, World(Client(tried, tried, Awaiting), 0, {"a"}), lie, [Do(Save, false)] + again);
    Prepend(s, World(Client(tried, clear, Resetting), 0, {"a"}), Do(Save, false), again);
    AttemptLands(s, World(Client(clear, clear, Off), 0, {"a"}), "b", []);
    assert {"a"} + {"b"} == {"a", "b"};
  }

  lemma TwoMade()
    ensures |{"a", "b"}| == 2
  {
    assert "a" != "b";
    assert {"a", "b"} == {"a"} + {"b"};
  }

  /** At most one base is ever created, over every run of interrupted processes, lost answers and late executions,
      exactly when a definitive rejection of the creation request means that nothing was created. */
  lemma AtMostOneExactly(s: Setting)
    ensures AtMostOneBase(s) <==> !AnyDefinitive(s.lies)
  {
    if !AnyDefinitive(s.lies) {
      forall labels | Run(s, CREATION, labels).Some?
        ensures |Run(s, CREATION, labels).value.made| <= 1
      {
        InvRun(s, CREATION, labels);
      }
    } else {
      var status :| status in s.lies && Definitive(status);
      MakesTwo(s, status);
      TwoMade();
    }
  }

  /** With honest rejections: a stored `attempted` of false means that no base exists and none is under way, and a
      stored id is that of the only base carrying the marker. */
  lemma StoredRecordSound(s: Setting, labels: seq<Label>)
    requires !AnyDefinitive(s.lies) && Run(s, CREATION, labels).Some?
    ensures var w := Run(s, CREATION, labels).value;
            && (!w.client.disk.attempted && w.client.disk.id == "" ==> w.made == {} && w.flying == 0)
            && (w.client.disk.id != "" ==> w.made == {w.client.disk.id} && w.flying == 0)
  {
    InvRun(s, CREATION, labels);
    var w := Run(s, CREATION, labels).value;
    if w.client.disk.id != "" {
      var id := w.client.disk.id;
      assert w.made == {id} by {
        assert |w.made - {id}| == |w.made| - 1;
      }
    }
  }

  // ---- What a process did is such a run ----

  /** Two states that no later step can tell apart: the same, or no process and the same stored record. */
  predicate Alike(c: Client, d: Client) {
    c == d || (c.pc == Off && d.pc == Off && c.disk == d.disk)
  }

  lemma AlikeNext(name: string, marker: string, c: Client, d: Client, e: Event)
    requires Alike(c, d) && Next(name, marker, c, e).Some?
    ensures Next(name, marker, d, e).Some? && Alike(Next(name, marker, c, e).value, Next(name, marker, d, e).value)
  {
  }

  /** The client's own events among the labels. */
  function Events(labels: seq<Label>): seq<Event> {
    if labels == [] then []
    else (if labels[0].Do? then [labels[0].event] else []) + Events(labels[1..])
  }

  /** The service allows each label when it comes; nothing is asked of the client. */
  ghost predicate Permitted(s: Setting, w: World, labels: seq<Label>)
    decreases |labels|
  {
    labels == []
    || (var l := labels[0];
        && (if l.Do? then Serve(s, w, l.event, l.discarded).Some? else Step(s, w, l).Some?)
        && (Step(s, w, l).Some? ==> Permitted(s, Step(s, w, l).value, labels[1..])))
  }

  /** Whatever a process did, in whatever order with late executions and losses, is a run. */
  lemma {:induction false} TraceIsRun(s: Setting, w: World, trace: seq<Traces.Point<Client, Request>>,
                                      labels: seq<Label>)
    requires Traces.IsTrace(Sequence(s.name, s.marker), Asked(s.name, s.marker), trace, Events(labels))
    requires Alike(trace[0].at, w.client) && Permitted(s, w, labels)
    ensures Run(s, w, labels).Some? && Alike(trace[|trace| - 1].at, Run(s, w, labels).value.client)
    decreases |labels|
  {
    if labels != [] {
      var l := labels[0];
      var own := Events(labels);
      if l.Do? {
        assert own[0] == l.event && own[1..] == Events(labels[1..]);
        assert Traces.StepOk(Sequence(s.name, s.marker), Asked(s.name, s.marker), trace, own, 0);
        AlikeNext(s.name, s.marker, trace[0].at, w.client, l.event);
        Traces.Suffix(Sequence(s.name, s.marker), Asked(s.name, s.marker), trace, own, 1);
        TraceIsRun(s, Step(s, w, l).value, trace[1..], labels[1..]);
      } else {
        assert own == Events(labels[1..]);
        TraceIsRun(s, Step(s, w, l).value, trace, labels[1..]);
      }
    }
  }

  // ---- The code ----

  class Service {
    ghost var requests: seq<Request>       // all that it was ever sent

    constructor () {}

    method Send(request: Request) returns (answer: Answer)
      modifies this
      ensures requests == old(requests) + [request]
    {
      requests := requests + [request];
      answer := *;
    }
  }

  class Workspace {
    const name: string
    const marker: string
    const http: Service
    var record: Creation            // in memory
    var saved: Creation             // in state.json
    ghost var client: Client        // where this process stands
    ghost const start: Client       // where it stood first
    ghost var events: seq<Event>    // what it has done since,
    ghost var trace: seq<Traces.Point<Client, Request>>
    ghost var sent: seq<Request>    // and all that the service was sent for it, and before

    /** Events, states and requests agree, but for `ahead`, a request whose event comes next. */
    ghost predicate Sound(ahead: Option<Request>)
      reads this, http
    {
      && Traces.IsTrace(Sequence(name, marker), Asked(name, marker), trace, events)
      && trace[|events|] == Traces.Point(client, sent) && trace[0].at == start
      && http.requests == Traces.Told(sent, ahead)
    }

    ghost predicate Valid()
      reads this, http
    {
      client.mem == record && client.disk == saved && Sound(None)
    }

    constructor (name: string, marker: string, http: Service, stored: Creation)
      ensures Valid() && this.name == name && this.marker == marker && this.http == http
      ensures record == saved == stored && events == [] && client == start == Client(stored, stored, Off)
    {
      this.name, this.marker, this.http := name, marker, http;
      record, saved := stored, stored;
      client, start := Client(stored, stored, Off), Client(stored, stored, Off);
      events, sent := [], http.requests;
      trace := [Traces.Point(Client(stored, stored, Off), http.requests)];
    }

    ghost method Advance(e: Event)
      requires Sound(Asked(name, marker)(client, e))
      requires Next(name, marker, client, e).Some?
      requires Next(name, marker, client, e).value.mem == record
      requires Next(name, marker, client, e).value.disk == saved
      modifies `client, `events, `trace, `sent
      ensures Valid() && client == Next(name, marker, old(client), e).value && events == old(events) + [e]
    {
      var point := Traces.Point(Next(name, marker, client, e).value, http.requests);
      assert Sequence(name, marker)(client, e) == Some(point.at);
      Traces.Grows(Sequence(name, marker), Asked(name, marker), trace, events, e, point);
      client, events, trace, sent := point.at, events + [e], trace + [point], point.sent;
    }

    /** What this process did, together with anything else that happens meanwhile and that the service allows, is a
        run, and leads to the record stored here. */
    lemma IsRun(s: Setting, w: World, labels: seq<Label>)
      requires Valid() && s.name == name && s.marker == marker && Events(labels) == events && Alike(start, w.client)
      requires Permitted(s, w, labels)
      ensures Run(s, w, labels).Some? && Run(s, w, labels).value.client.disk == saved
    {
      TraceIsRun(s, w, trace, labels);
    }

    /** So is what it would have done if it had died at any point. */
    lemma DiedIsRun(n: nat, s: Setting, w: World, labels: seq<Label>)
      requires Valid() && s.name == name && s.marker == marker && Alike(start, w.client)
      requires n <= |events| && Events(labels) == events[..n] + [Stop] && Permitted(s, w, labels)
      ensures Run(s, w, labels).Some? && Run(s, w, labels).value.client.disk == trace[n].at.disk
    {
      var dead := Traces.Point(trace[n].at.(pc := Off), trace[n].sent);
      Traces.Interrupted(Sequence(name, marker), Asked(name, marker), trace, events, n, Stop, dead);
      TraceIsRun(s, w, trace[..n + 1] + [dead], labels);
    }

    /** After an interrupted creation: the id of the one listed base with this name and marker is returned and stored;
        without exactly one, or without its id, the creation stays unresolved and nothing changes. */
    ghost predicate Resumed(before: Creation, answer: Answer, result: Result<(string, bool), Failure>, now: Creation) {
      && (forall id, created :: result == Ok((id, created))
            <==> !created && id != "" && answer.Bases? && Sole(name, marker, answer.bases, id))
      && now == (if result.Ok? then Creation(true, result.value.0) else before)
      && (answer.Bases? && result.Err? ==> result.error == UNRESOLVED_BASE)
      && (answer.Refused? ==> result == Err(answer.failure))
    }

    /** After the creation request: the id in the answer is returned and stored; a definitive rejection forgets the
        attempt, and after anything else it stays unknown. */
    ghost predicate Started(answer: Answer, result: Result<(string, bool), Failure>, now: Creation) {
      && (forall id, created :: result == Ok((id, created))
            <==> created && id != "" && answer.Value? && answer.base.id == id)
      && now == (if result.Ok? then Creation(true, result.value.0)
                 else Creation(answer.Refused? ==>
                                 answer.failure.status !in {400, 401, 403, 404, 405, 413, 415, 422, 429}, ""))
      && (answer.Refused? ==> result == Err(answer.failure))
      && (!answer.Refused? && result.Err? ==> result.error == BASE_MISMATCH)
    }

    /** The result is the base's id and whether this call created it. `answer` is the one answer the call got. */
    method Create() returns (result: Result<(string, bool), Failure>, ghost answer: Answer)
      requires Valid() && client.pc == Off && record == saved
      modifies this, http
      ensures Valid() && client.pc == Off
      ensures old(saved).id != "" ==>
                && saved == old(saved) && http.requests == old(http.requests) + [Fetch(saved.id)]
                && (result.Ok? <==> answer.Value? && answer.base.id == saved.id)
                && (result.Ok? ==> result.value == (saved.id, false))
      ensures old(saved).id == "" && old(saved).attempted ==>
                && http.requests == old(http.requests) + [List]
                && Resumed(old(saved), answer, result, saved)
      ensures old(saved) == Creation(false, "") ==>
                && http.requests == old(http.requests) + [Make(name, marker)]
                && old(events) + [Begin, Save, Post, Got(answer)] <= events
                && Started(answer, result, saved)
    {
      if record.id != "" {
        result, answer := Confirm();
      } else if record.attempted {
        result, answer := Resume();
      } else {
        result, answer := Start();
      }
    }

    /** Lines 51-55. */
    method Confirm() returns (result: Result<(string, bool), Failure>, ghost answer: Answer)
      requires Valid() && client.pc == Off && record == saved && record.id != ""
      modifies this, http
      ensures Valid() && client.pc == Off && saved == old(saved)
      ensures http.requests == old(http.requests) + [Fetch(saved.id)]
      ensures result.Ok? <==> answer.Value? && answer.base.id == saved.id
      ensures result.Ok? ==> result.value == (saved.id, false)
    {
      Advance(Begin);
      var value := http.Send(Fetch(record.id));
      answer := value;
      Advance(Got(value));
      if value.Refused? { return Err(value.failure), answer; }
      if !value.Value? || value.base.id != record.id { return Err(BASE_MISMATCH), answer; }
      return Ok((record.id, false)), answer;
    }

    /** Lines 56-65. */
    method Resume() returns (result: Result<(string, bool), Failure>, ghost answer: Answer)
      requires Valid() && client.pc == Off && record == saved == Creation(true, "")
      modifies this, http
      ensures Valid() && client.pc == Off && http.requests == old(http.requests) + [List]
      ensures Resumed(old(saved), answer, result, saved)
    {
      Advance(Begin);
      var values := http.Send(List);
      answer := values;
      var found := FindMine(name, marker, values);
      if found.Err? {
        Advance(Got(values));
        return Err(found.error), answer;
      }
      record := record.(id := found.value);
      Advance(Got(values));
      saved := record;
      Advance(Save);
      return Ok((record.id, false)), answer;
    }

    /** Lines 66-67: the intent is stored. */
    method Mark()
      requires Valid() && client.pc == Off && record == saved == Creation(false, "")
      modifies this
      ensures Valid() && record == saved == Creation(true, "") && client.pc == Posting
      ensures events == old(events) + [Begin, Save] && sent == old(sent)
    {
      record := record.(attempted := true);
      Advance(Begin);
      saved := record;
      Advance(Save);
    }

    /** Lines 66-80. */
    method Start() returns (result: Result<(string, bool), Failure>, ghost answer: Answer)
      requires Valid() && client.pc == Off && record == saved == Creation(false, "")
      modifies this, http
      ensures Valid() && client.pc == Off && http.requests == old(http.requests) + [Make(name, marker)]
      ensures old(events) + [Begin, Save, Post, Got(answer)] <= events
      ensures Started(answer, result, saved)
    {
      Mark();
      var value := http.Send(Make(name, marker));
      Advance(Post);
      answer := value;
      result := Conclude(value);
    }

    /** Lines 69-80: what the answer to the creation request leads to. */
    method Conclude(value: Answer) returns (result: Result<(string, bool), Failure>)
      requires Valid() && client.pc == Awaiting && record == saved == Creation(true, "")
      modifies `record, `saved, `client, `events, `trace, `sent
      ensures Valid() && client.pc == Off && old(events) + [Got(value)] <= events
      ensures Started(value, result, saved)
    {
      if value.Refused? {
        if Definitive(value.failure.status) {
          record := record.(attempted := false);
          Advance(Got(value));
          saved := record;
          Advance(Save);
        } else {
          Advance(Got(value));
        }
        return Err(value.failure);
      }
      if !value.Value? || value.base.id == "" {
        Advance(Got(value));
        return Err(BASE_MISMATCH);
      }
      record := record.(id := value.base.id);
      Advance(Got(value));
      saved := record;
      Advance(Save);
      return Ok((record.id, true));
    }
  }

  /** Lines 58-63. */
  method FindMine(name: string, marker: string, values: Answer) returns (found: Result<string, Failure>)
    ensures found == Listed(name, marker, values)
    ensures forall id :: found == Ok(id) <==> id != "" && values.Bases? && Sole(name, marker, values.bases, id)
    ensures values.Bases? && found.Err? ==> found == Err(UNRESOLVED_BASE)
  {
    if values.Bases? { ListedExactly(name, marker, values.bases); }
    if values.Refused? { return Err(values.failure); }
    if !values.Bases? { return Err(Failure("mindcreek.invalid_list", 0)); }
    var matches := [];
    for i := 0 to |values.bases|
      invariant matches == Matches(name, marker, values.bases[..i])
    {
      assert values.bases[..i + 1][..i] == values.bases[..i];
      if Mine(name, marker, values.bases[i]) {
        matches := matches + [values.bases[i]];
      }
    }
    assert values.bases[..|values.bases|] == values.bases;
    if |matches| != 1 || matches[0].id == "" { return Err(UNRESOLVED_BASE); }
    return Ok(matches[0].id);
  }
}
