/** The importer together with the destination: requests that may be executed late, replies that may be lost,
    and processes that may die at any step. */
module PublishWorld {
  import opened Basics
  import opened Names
  import opened Publish
  import opened PublishClient
  import IntentLog
  import Traces

  /** `wire`: creation requests not yet executed, each with the key whose file it carries.
      `made`: every document ever created by these requests, by id. */
  datatype Server = Server(wire: map<string, string>, made: map<string, string>)

  /** `posted`: the (key, id) pairs confirmed by a validated answer to a creation request. */
  datatype World = World(client: Client, server: Server, posted: set<(string, string)>)

  /** `lies`: statuses with which the service may reject a creation request it executes all the same.
      `listFails`: statuses in which a page request of reconcile may end. */
  datatype Setting = Setting(kb: string, installation: string, lies: set<int>, listFails: set<int>)

  /** A client step, naming the request it concerns; or a late execution; or the loss of a request. */
  datatype Label =
    | Do(event: Event, ticket: string)
    | Land(ticket: string, id: string)
    | Drop(ticket: string)

  const CREATION := World(IDLE, Server(map[], map[]), {})

  /** A description under one of this installation's file names is of the document created for that name. */
  predicate Truthful(s: Setting, server: Server, d: Document) {
    match Owner(s.installation, d.name)
    case None => true
    case Some(k) => d.id in server.made && server.made[d.id] == k
  }

  predicate WellNamed(s: Setting, work: seq<Work>) {
    forall i :: 0 <= i < |work| ==> Owner(s.installation, work[i].item.filename) == Some(work[i].key)
  }

  /** What the destination allows to happen at a client step. */
  function ServerStep(s: Setting, w: World, e: Event, ticket: string): Option<Server> {
    var pc := w.client.pc;
    match e
    case Post =>
      if pc.Posting? && ticket !in w.server.wire
      then Some(w.server.(wire := w.server.wire[ticket := pc.key])) else None
    case Begin(t) => if t.Upload? && !WellNamed(s, t.work) then None else Some(w.server)
    case Got(reply) => Answered(s, w.server, pc, reply, ticket)
    case GotSweep(_, reply) => Answered(s, w.server, pc, reply, ticket)
    case _ => Some(w.server)
  }

  function Answered(s: Setting, server: Server, pc: Pc, reply: Reply, ticket: string): Option<Server> {
    match reply
    case Found(d) => if Truthful(s, server, d) then Some(server) else None
    case Page(items) =>
      if forall i :: 0 <= i < |items| ==> Truthful(s, server, items[i]) then Some(server) else None
    case Broken(f) =>
      if !Definitive(f.status) then Some(server)
      else if pc.Awaiting? then
        if ticket in server.wire && server.wire[ticket] == pc.key
        then Some(server.(wire := server.wire - {ticket}))
        else if f.status in s.lies then Some(server) else None
      else if pc.Listing? then
        if f.status in s.listFails then Some(server) else None
      else Some(server)
  }

  function Step(s: Setting, w: World, l: Label): Option<World> {
    match l
    case Drop(t) =>
      if t in w.server.wire then Some(w.(server := w.server.(wire := w.server.wire - {t}))) else None
    case Land(t, id) =>
      if t in w.server.wire && id !in w.server.made then
        Some(w.(server := Server(w.server.wire - {t}, w.server.made[id := w.server.wire[t]])))
      else None
    case Do(e, t) =>
      var c := Next(s.kb, w.client, e);
      var server := ServerStep(s, w, e, t);
      if c.None? || server.None? then None
      else Some(World(c.value, server.value, w.posted + Confirmed(s, w.client, e)))
  }

  function Confirmed(s: Setting, c: Client, e: Event): set<(string, string)> {
    if e.Got? && c.pc.Awaiting? && c.pc.key in c.mem && Validated(s.kb, e.reply, c.mem[c.pc.key]).Ok?
    then {(c.pc.key, Validated(s.kb, e.reply, c.mem[c.pc.key]).value.id)} else {}
  }

  function Run(s: Setting, w: World, labels: seq<Label>): Option<World>
    decreases |labels|
  {
    if labels == [] then Some(w)
    else
      var next := Step(s, w, labels[0]);
      if next.None? then None else Run(s, next.value, labels[1..])
  }

  // ---- What a process did is such a run ----

  /** The client's own events among the labels. */
  function Events(labels: seq<Label>): seq<Event> {
    if labels == [] then []
    else (if labels[0].Do? then [labels[0].event] else []) + Events(labels[1..])
  }

  /** The destination allows each label when it comes; nothing is asked of the client. */
  ghost predicate Permitted(s: Setting, w: World, labels: seq<Label>)
    decreases |labels|
  {
    labels == []
    || (var l := labels[0];
        && (if l.Do? then ServerStep(s, w, l.event, l.ticket).Some? else Step(s, w, l).Some?)
        && (Step(s, w, l).Some? ==> Permitted(s, Step(s, w, l).value, labels[1..])))
  }

  /** Whatever a process did, in whatever order with late executions and losses, is a run. */
  lemma {:induction false} TraceIsRun(s: Setting, w: World, trace: seq<Traces.Point<Client, Request>>,
                                      labels: seq<Label>)
    requires Traces.IsTrace(Sequence(s.kb), Asked, trace, Events(labels)) && Alike(trace[0].at, w.client)
    requires Permitted(s, w, labels)
    ensures Run(s, w, labels).Some? && Alike(trace[|trace| - 1].at, Run(s, w, labels).value.client)
    decreases |labels|
  {
    if labels != [] {
      var l := labels[0];
      var own := Events(labels);
      if l.Do? {
        assert own[0] == l.event && own[1..] == Events(labels[1..]);
        assert Traces.StepOk(Sequence(s.kb), Asked, trace, own, 0);
        OneStep(s, w, trace[0].at, trace[1].at, l);
        Traces.Suffix(Sequence(s.kb), Asked, trace, own, 1);
        TraceIsRun(s, Step(s, w, l).value, trace[1..], labels[1..]);
      } else {
        assert own == Events(labels[1..]);
        TraceIsRun(s, Step(s, w, l).value, trace, labels[1..]);
      }
    }
  }

  lemma OneStep(s: Setting, w: World, c: Client, d: Client, l: Label)
    requires l.Do? && Alike(c, w.client) && Next(s.kb, c, l.event) == Some(d)
    requires ServerStep(s, w, l.event, l.ticket).Some?
    ensures Step(s, w, l).Some? && Alike(d, Step(s, w, l).value.client)
  {
    AlikeNext(s.kb, c, w.client, l.event);
  }

  // ---- Refinement: for every key, the world is an intent log ----

  function MarkOf(m: map<string, Record>, k: string): IntentLog.Mark {
    if k !in m then IntentLog.Clear
    else if m[k].id != "" then IntentLog.Settled
    else if m[k].attempted then IntentLog.Unknown
    else IntentLog.Clear
  }

  function StageOf(pc: Pc, k: string): IntentLog.Stage {
    if (pc.Marked? || pc.Posting?) && pc.key == k then IntentLog.Armed
    else if pc.Awaiting? && pc.key == k then IntentLog.Waiting
    else IntentLog.Ready
  }

  function HolderOf(c: Client, k: string): IntentLog.Holder {
    if c.pc.Off? then IntentLog.Nobody else IntentLog.Holder(MarkOf(c.mem, k), StageOf(c.pc, k))
  }

  ghost function View(w: World, k: string): IntentLog.Log {
    IntentLog.Log(MarkOf(w.client.disk, k), HolderOf(w.client, k),
                  |Tagged(w.server.wire, k)|, |Tagged(w.server.made, k)|)
  }

  function FaultOf(s: Setting): IntentLog.Fault {
    IntentLog.Fault(AnyDefinitive(s.lies), AnyDefinitive(s.listFails))
  }

  /** The move of key `k`'s intent log that a client event is; `discarded` says whether the service
      dropped the rejected request. */
  function MoveOf(s: Setting, c: Client, e: Event, discarded: bool, k: string): IntentLog.Move {
    var next := Next(s.kb, c, e);
    if next.Some? && next.value.pc.Off? then IntentLog.Crash
    else
      match e
      case Begin(_) => IntentLog.Load
      case Save => IntentLog.Save
      case Local => if next.Some? && next.value.pc == Marked(k) then IntentLog.Arm else IntentLog.Skip
      case Post => if c.pc == Posting(k) then IntentLog.Send else IntentLog.Skip
      case Got(reply) => MoveOfReply(s, c, reply, discarded, k)
      case _ => IntentLog.Skip
  }

  function MoveOfReply(s: Setting, c: Client, reply: Reply, discarded: bool, k: string): IntentLog.Move {
    if k !in c.mem then IntentLog.Skip
    else if c.pc == Awaiting(k) then
      match Validated(s.kb, reply, c.mem[k]) {
        case Ok(_) => IntentLog.Settle
        case Err(f) =>
          if !Definitive(f.status) then IntentLog.GiveUp
          else if discarded then IntentLog.Refuse else IntentLog.Lie
      }
    else if c.pc.Listing? && c.pc.key == k then
      match ScanPage(s.kb, c.mem[k], c.pc.scan, reply) {
        case Bound(_) => IntentLog.Settle
        case Lost(f) => if Definitive(f.status) then IntentLog.Forget else IntentLog.Skip
        case More(_) => IntentLog.Skip
      }
    else IntentLog.Skip
  }

  /** What the pc says about the record being worked on. */
  predicate PcOk(kb: string, c: Client) {
    match c.pc
    case Marked(k) => k in c.mem && c.mem[k].attempted && c.mem[k].id == "" && !c.mem[k].deleted
    case Posting(k) =>
      k in c.mem && c.mem[k].attempted && c.mem[k].id == "" && !c.mem[k].deleted && c.disk == c.mem
    case Awaiting(k) => k in c.mem && c.mem[k].attempted && c.mem[k].id == "" && c.disk == c.mem
    case Reading(k, _) => k in c.mem && c.mem[k].id != ""
    case Fresh(k, _) => k in c.mem && c.mem[k].id != ""
    case Reparsing(k) => k in c.mem && c.mem[k].id != ""
    case Listing(k, scan) =>
      k in c.mem && c.mem[k].attempted && c.mem[k].id == "" && AllValid(kb, c.mem[k], scan.matches)
    case Rebound(k) => k in c.mem && c.mem[k].id != ""
    case Closing(k) => k in c.mem
    case _ => true
  }

  predicate AllValid(kb: string, r: Record, docs: seq<Document>) {
    forall i :: 0 <= i < |docs| ==> ValidDocument(kb, docs[i], r)
  }

  lemma {:induction false} ScanKeeps(kb: string, r: Record, scan: Scan, items: seq<Document>)
    requires AllValid(kb, r, scan.matches)
    ensures var s := ScanItems(kb, r, scan, items);
            (s.Err? ==> s.error.status == 0)
            && (s.Ok? ==> AllValid(kb, r, s.value.matches)
                          && forall d :: d in s.value.matches ==> d in scan.matches || d in items)
  {
    if items != [] {
      ScanKeeps(kb, r, scan, items[..|items| - 1]);
    }
  }

  lemma PcOkNext(kb: string, c: Client, e: Event)
    requires PcOk(kb, c) && Next(kb, c, e).Some?
    ensures PcOk(kb, Next(kb, c, e).value)
  {
    match e
    case Local => PcOkLocal(kb, c);
    case Got(reply) => if c.pc.Listing? { PcOkListing(kb, c, reply); } else { PcOkGot(kb, c, reply); }
    case _ => PcOkRest(kb, c, e);
  }

  lemma PcOkLocal(kb: string, c: Client)
    requires PcOk(kb, c) && Next(kb, c, Local).Some?
    ensures PcOk(kb, Next(kb, c, Local).value)
  {
    if c.pc.Between? && c.todo != [] {
      var d := Take(c);
      assert d.pc.Between? || d.pc.Marked? || d.pc.Reading? || d.pc.Listing? || d.pc.Closing?;
    }
  }

  lemma PcOkListing(kb: string, c: Client, reply: Reply)
    requires PcOk(kb, c) && c.pc.Listing? && Next(kb, c, Got(reply)).Some?
    ensures PcOk(kb, Next(kb, c, Got(reply)).value)
  {
    if reply.Page? {
      ScanKeeps(kb, c.mem[c.pc.key], c.pc.scan, reply.items);
    }
  }

  lemma PcOkGot(kb: string, c: Client, reply: Reply)
    requires PcOk(kb, c) && !c.pc.Listing? && Next(kb, c, Got(reply)).Some?
    ensures PcOk(kb, Next(kb, c, Got(reply)).value)
  {
  }

  lemma PcOkRest(kb: string, c: Client, e: Event)
    requires PcOk(kb, c) && Next(kb, c, e).Some? && !e.Local? && !e.Got?
    ensures PcOk(kb, Next(kb, c, e).value)
  {
  }

  lemma TaggedRemove(m: map<string, string>, x: string, k: string)
    requires x in m
    ensures |Tagged(m - {x}, k)| == |Tagged(m, k)| - (if m[x] == k then 1 else 0)
  {
    assert Tagged(m - {x}, k) == Tagged(m, k) - {x};
    if m[x] == k {
      assert x in Tagged(m, k);
    }
  }

  lemma TaggedAdd(m: map<string, string>, x: string, y: string, k: string)
    requires x !in m
    ensures |Tagged(m[x := y], k)| == |Tagged(m, k)| + (if y == k then 1 else 0)
  {
    if y == k {
      assert Tagged(m[x := y], k) == Tagged(m, k) + {x};
    } else {
      assert Tagged(m[x := y], k) == Tagged(m, k);
    }
  }

  /** A client event turns the disk and the holder of key `k`'s intent log as its move does. */
  ghost predicate ClientRefines(s: Setting, c: Client, e: Event, discarded: bool, k: string)
    requires Next(s.kb, c, e).Some?
  {
    var d := Next(s.kb, c, e).value;
    IntentLog.Turns(MoveOf(s, c, e, discarded, k), MarkOf(c.disk, k), HolderOf(c, k),
                    MarkOf(d.disk, k), HolderOf(d, k))
  }

  lemma RefinesSave(s: Setting, c: Client, discarded: bool, k: string)
    requires PcOk(s.kb, c) && Next(s.kb, c, Save).Some?
    ensures ClientRefines(s, c, Save, discarded, k)
  {
  }

  lemma RefinesLocal(s: Setting, c: Client, discarded: bool, k: string)
    requires PcOk(s.kb, c) && Next(s.kb, c, Local).Some?
    ensures ClientRefines(s, c, Local, discarded, k)
  {
    if c.pc.Between? && c.todo != [] {
      RefinesTake(s, c, discarded, k);
    } else {
      RefinesEnd(s, c, discarded, k);
    }
  }

  lemma RefinesEnd(s: Setting, c: Client, discarded: bool, k: string)
    requires Next(s.kb, c, Local).Some? && !(c.pc.Between? && c.todo != [])
    ensures ClientRefines(s, c, Local, discarded, k)
  {
  }

  lemma RefinesTake(s: Setting, c: Client, discarded: bool, k: string)
    requires c.pc.Between? && c.todo != []
    ensures ClientRefines(s, c, Local, discarded, k)
  {
    if k == c.todo[0].key {
      TakesOwn(c);
    } else {
      TakesOther(c, k);
    }
    TakeStays(c);
  }

  lemma TakeStays(c: Client)
    requires c.pc.Between? && c.todo != []
    ensures Take(c).disk == c.disk && !Take(c).pc.Off? && !Take(c).pc.Posting? && !Take(c).pc.Awaiting?
  {
  }

  lemma TakesOther(c: Client, k: string)
    requires c.pc.Between? && c.todo != [] && k != c.todo[0].key
    ensures MarkOf(Take(c).mem, k) == MarkOf(c.mem, k) && Take(c).pc != Marked(k)
  {
  }

  /** Taking up a key changes its mark only when it is about to be stored. */
  lemma TakesOwn(c: Client)
    requires c.pc.Between? && c.todo != []
    ensures var d, key := Take(c), c.todo[0].key;
            if d.pc == Marked(key) then MarkOf(c.mem, key).Clear? && MarkOf(d.mem, key).Unknown?
            else MarkOf(d.mem, key) == MarkOf(c.mem, key)
  {
  }

  lemma RefinesGot(s: Setting, c: Client, reply: Reply, discarded: bool, k: string)
    requires PcOk(s.kb, c) && Next(s.kb, c, Got(reply)).Some?
    ensures ClientRefines(s, c, Got(reply), discarded, k)
  {
    if c.pc.Listing? {
      RefinesListing(s, c, reply, discarded, k);
    } else if c.pc.Awaiting? {
      RefinesAnswer(s, c, reply, discarded, k);
    } else {
      RefinesRead(s, c, reply, discarded, k);
    }
  }

  lemma RefinesListing(s: Setting, c: Client, reply: Reply, discarded: bool, k: string)
    requires PcOk(s.kb, c) && Next(s.kb, c, Got(reply)).Some? && c.pc.Listing?
    ensures ClientRefines(s, c, Got(reply), discarded, k)
  {
    var v := ScanPage(s.kb, c.mem[c.pc.key], c.pc.scan, reply);
    if reply.Page? {
      ScanKeeps(s.kb, c.mem[c.pc.key], c.pc.scan, reply.items);
    }
    assert v.Bound? ==> v.doc.id != "";
    RefinesVerdict(s, c, reply, v, discarded, k);
  }

  lemma RefinesVerdict(s: Setting, c: Client, reply: Reply, v: Verdict, discarded: bool, k: string)
    requires PcOk(s.kb, c) && Next(s.kb, c, Got(reply)).Some? && c.pc.Listing?
    requires v == ScanPage(s.kb, c.mem[c.pc.key], c.pc.scan, reply) && (v.Bound? ==> v.doc.id != "")
    ensures ClientRefines(s, c, Got(reply), discarded, k)
  {
    var d := Next(s.kb, c, Got(reply)).value;
    assert k != c.pc.key ==> MarkOf(d.mem, k) == MarkOf(c.mem, k);
  }

  lemma RefinesAnswer(s: Setting, c: Client, reply: Reply, discarded: bool, k: string)
    requires PcOk(s.kb, c) && Next(s.kb, c, Got(reply)).Some? && c.pc.Awaiting?
    ensures ClientRefines(s, c, Got(reply), discarded, k)
  {
  }

  lemma RefinesRead(s: Setting, c: Client, reply: Reply, discarded: bool, k: string)
    requires PcOk(s.kb, c) && Next(s.kb, c, Got(reply)).Some? && !c.pc.Listing? && !c.pc.Awaiting?
    ensures ClientRefines(s, c, Got(reply), discarded, k)
  {
    MarkKept(s.kb, c, reply, k);
  }

  /** Any other answer leaves every mark as it is. */
  lemma MarkKept(kb: string, c: Client, reply: Reply, k: string)
    requires PcOk(kb, c) && Next(kb, c, Got(reply)).Some? && !c.pc.Listing? && !c.pc.Awaiting?
    ensures var d := Next(kb, c, Got(reply)).value;
            d.disk == c.disk && MarkOf(d.mem, k) == MarkOf(c.mem, k) && StageOf(d.pc, k) == IntentLog.Ready
  {
  }

  lemma RefinesRest(s: Setting, c: Client, e: Event, discarded: bool, k: string)
    requires PcOk(s.kb, c) && Next(s.kb, c, e).Some?
    requires !e.Save? && !e.Local? && !e.Got?
    ensures ClientRefines(s, c, e, discarded, k)
  {
  }

  // ---- The whole world ----

  predicate Discards(w: World, e: Event, t: string) {
    && e.Got? && e.reply.Broken? && Definitive(e.reply.failure.status) && w.client.pc.Awaiting?
    && t in w.server.wire && w.server.wire[t] == w.client.pc.key
  }

  function WorldMove(s: Setting, w: World, l: Label, k: string): IntentLog.Move {
    match l
    case Land(t, _) => if t in w.server.wire && w.server.wire[t] == k then IntentLog.Land else IntentLog.Skip
    case Drop(t) => if t in w.server.wire && w.server.wire[t] == k then IntentLog.Drop else IntentLog.Skip
    case Do(e, t) => MoveOf(s, w.client, e, Discards(w, e, t), k)
  }

  lemma ServerCounts(s: Setting, w: World, e: Event, t: string, k: string)
    requires PcOk(s.kb, w.client) && Step(s, w, Do(e, t)).Some?
    ensures var m, v := MoveOf(s, w.client, e, Discards(w, e, t), k), Step(s, w, Do(e, t)).value;
            && |Tagged(v.server.made, k)| == |Tagged(w.server.made, k)|
            && |Tagged(v.server.wire, k)| == |Tagged(w.server.wire, k)|
                 + (if m.Send? then 1 else if m.Refuse? then -1 else 0)
            && (m.Refuse? ==> |Tagged(w.server.wire, k)| > 0)
            && (m.Lie? ==> FaultOf(s).lies)
            && (m.Forget? ==> FaultOf(s).forgets)
  {
    if e.Post? {
      TaggedAdd(w.server.wire, t, w.client.pc.key, k);
    }
    if Discards(w, e, t) {
      TaggedRemove(w.server.wire, t, k);
      assert t in Tagged(w.server.wire, w.client.pc.key);
    }
    if e.Got? && w.client.pc.Listing? && e.reply.Page? {
      ScanKeeps(s.kb, w.client.mem[w.client.pc.key], w.client.pc.scan, e.reply.items);
    }
    if e.Got? && e.reply.Broken? && Definitive(e.reply.failure.status) && !Discards(w, e, t) {
      var status := e.reply.failure.status;
      assert w.client.pc.Awaiting? ==> status in s.lies;
      assert w.client.pc.Listing? ==> status in s.listFails;
    }
  }

  /** Every step of the world is one move, or nothing, of the intent log of every key. */
  lemma Refines(s: Setting, w: World, l: Label, k: string)
    requires PcOk(s.kb, w.client) && Step(s, w, l).Some?
    ensures IntentLog.Apply(FaultOf(s), View(w, k), WorldMove(s, w, l, k)) == Some(View(Step(s, w, l).value, k))
    ensures PcOk(s.kb, Step(s, w, l).value.client)
  {
    match l
    case Land(t, id) =>
      TaggedRemove(w.server.wire, t, k);
      TaggedAdd(w.server.made, id, w.server.wire[t], k);
    case Drop(t) =>
      TaggedRemove(w.server.wire, t, k);
    case Do(e, t) =>
      PcOkNext(s.kb, w.client, e);
      ServerCounts(s, w, e, t, k);
      ClientStepRefines(s, w.client, e, Discards(w, e, t), k);
      IntentLog.TurnApplies(FaultOf(s), View(w, k), View(Step(s, w, l).value, k), WorldMove(s, w, l, k));
  }

  lemma ClientStepRefines(s: Setting, c: Client, e: Event, discarded: bool, k: string)
    requires PcOk(s.kb, c) && Next(s.kb, c, e).Some?
    ensures ClientRefines(s, c, e, discarded, k)
  {
    match e
    case Save => RefinesSave(s, c, discarded, k);
    case Local => RefinesLocal(s, c, discarded, k);
    case Got(reply) => RefinesGot(s, c, reply, discarded, k);
    case _ => RefinesRest(s, c, e, discarded, k);
  }

  // ---- At most one document per content key ----

  lemma {:induction false} SafeRun(s: Setting, w: World, labels: seq<Label>, k: string)
    requires FaultOf(s) == IntentLog.Fault(false, false)
    requires PcOk(s.kb, w.client) && IntentLog.Safe(View(w, k))
    requires Run(s, w, labels).Some?
    ensures IntentLog.Safe(View(Run(s, w, labels).value, k))
    decreases |labels|
  {
    if labels != [] {
      var next := Step(s, w, labels[0]).value;
      Refines(s, w, labels[0], k);
      IntentLog.SafeStep(FaultOf(s), View(w, k), WorldMove(s, w, labels[0], k));
      SafeRun(s, next, labels[1..], k);
    }
  }

  /** No sequence of processes, deaths, lost replies and late executions creates two documents for one key. */
  ghost predicate AtMostOneDocument(s: Setting) {
    forall labels, k :: Run(s, CREATION, labels).Some? ==> |Tagged(Run(s, CREATION, labels).value.server.made, k)| <= 1
  }
}
