/** publish.py, upload: which creation requests a command sends, over its whole run, in terms of the records it starts
    from. */
module PublishUploads {
  import opened Basics
  import opened Publish
  import opened PublishClient
  import opened PublishWorld
  import Traces

  // ---- A command that only checks sends nothing ----

  predicate ChecksOnly(c: Client) {
    c.task.Upload? && c.task.checkOnly
  }

  /** It does not stand before or behind a creation request. */
  predicate Harmless(c: Client) {
    ChecksOnly(c) && !c.pc.Marked? && !c.pc.Posting? && !c.pc.Awaiting?
  }

  lemma HarmlessNext(kb: string, c: Client, e: Event)
    requires Harmless(c) && !e.Begin? && Next(kb, c, e).Some?
    ensures Harmless(Next(kb, c, e).value) && !e.Post?
  {
    if e.Local? && c.pc.Between? && c.todo != [] { HarmlessTake(c); }
  }

  lemma HarmlessTake(c: Client)
    requires Harmless(c) && c.todo != []
    ensures Harmless(PublishClient.Take(c))
  {
  }

  /** Until another command begins, nothing more is on its way than before. */
  lemma {:induction false} HarmlessRun(s: Setting, w: World, labels: seq<Label>)
    requires Harmless(w.client) && Run(s, w, labels).Some?
    requires forall i :: 0 <= i < |labels| && labels[i].Do? ==> !labels[i].event.Begin?
    ensures Run(s, w, labels).value.server.wire.Keys <= w.server.wire.Keys
    ensures forall i :: 0 <= i < |labels| && labels[i].Do? ==> !labels[i].event.Post?
    decreases |labels|
  {
    if labels != [] {
      var l := labels[0];
      var next := Step(s, w, l).value;
      if l.Do? { HarmlessNext(s.kb, w.client, l.event); }
      assert next.server.wire.Keys <= w.server.wire.Keys;
      HarmlessRun(s, next, labels[1..]);
    }
  }

  /** From the beginning of a command that only checks to the next one, in every run: no creation request is sent, and
      none is on its way that was not before. */
  lemma CheckSendsNothing(s: Setting, w: World, work: seq<Work>, retryFailed: bool, t: string, labels: seq<Label>)
    requires labels != [] && labels[0] == Do(Begin(Upload(work, true, retryFailed)), t) && Run(s, w, labels).Some?
    requires forall i :: 0 < i < |labels| && labels[i].Do? ==> !labels[i].event.Begin?
    ensures forall i :: 0 <= i < |labels| && labels[i].Do? ==> !labels[i].event.Post?
    ensures Run(s, w, labels).value.server.wire.Keys <= w.server.wire.Keys
  {
    HarmlessRun(s, Step(s, w, labels[0]).value, labels[1..]);
  }

  // ---- Which creation requests a command sends ----

  /** Nothing is known to exist for the key or to be coming, and it is not retired. */
  predicate IsClear(records: map<string, Record>, k: string) {
    k !in records || (!records[k].attempted && records[k].id == "" && !records[k].deleted)
  }

  function FileName(records: map<string, Record>, w: Work): string {
    if w.key in records then records[w.key].filename else w.item.filename
  }

  /** The creation requests for the clear ones of these keys, in order. */
  function CreationsFor(records: map<string, Record>, work: seq<Work>): seq<Request> {
    if work == [] then []
    else
      var w := work[|work| - 1];
      CreationsFor(records, work[..|work| - 1])
      + (if IsClear(records, w.key) then [Create(FileName(records, w))] else [])
  }

  /** The creation requests among all that was sent. */
  function Creations(requests: seq<Request>): seq<Request> {
    if requests == [] then []
    else
      Creations(requests[..|requests| - 1])
      + (if requests[|requests| - 1].Create? then [requests[|requests| - 1]] else [])
  }

  /** Each key is desired once, as in a dictionary. */
  predicate Once(work: seq<Work>) {
    forall i, j :: 0 <= i < j < |work| ==> work[i].key != work[j].key
  }

  /** The request that the process is about to send. */
  function Ahead(c: Client): seq<Request> {
    match c.pc
    case Marked(k) => if k in c.mem then [Create(c.mem[k].filename)] else []
    case Posting(k) => if k in c.mem then [Create(c.mem[k].filename)] else []
    case _ => []
  }

  /** The key that the process is at. */
  predicate At(pc: Pc, k: string) {
    match pc
    case Marked(key) => key == k
    case Posting(key) => key == k
    case Awaiting(key) => key == k
    case Reading(key, _) => key == k
    case Fresh(key, _) => key == k
    case Reparsing(key) => key == k
    case Listing(key, _) => key == k
    case Rebound(key) => key == k
    case Closing(key) => key == k
    case _ => false
  }

  /** The process has taken up the first `n` keys of a command that creates, after the creation requests `base`; all it
      has sent is `sent`, and it has not touched the records of the other keys. */
  ghost predicate Underway(base: seq<Request>, records: map<string, Record>, work: seq<Work>, n: nat, c: Client,
                           sent: seq<Request>) {
    && n <= |work| && Once(work)
    && c.task.Upload? && !c.task.checkOnly && c.task.work == work && c.todo == work[n..]
    && (c.pc.Between? || (n > 0 && At(c.pc, work[n - 1].key)))
    && (forall i :: n <= i < |work| ==> SameRecord(records, c.mem, work[i].key))
    && Creations(sent) + Ahead(c) == base + CreationsFor(records, work[..n])
  }

  predicate SameRecord(a: map<string, Record>, b: map<string, Record>, k: string) {
    (k in a <==> k in b) && (k in a ==> a[k] == b[k])
  }

  lemma CreationsTold(sent: seq<Request>, request: Option<Request>)
    ensures Creations(Traces.Told(sent, request))
         == Creations(sent) + (if request.Some? && request.value.Create? then [request.value] else [])
  {
    if request.Some? {
      var told := sent + [request.value];
      assert told[..|told| - 1] == sent;
    }
  }

  lemma CreationsForNext(records: map<string, Record>, work: seq<Work>, n: nat)
    requires n < |work|
    ensures CreationsFor(records, work[..n + 1])
         == CreationsFor(records, work[..n])
            + (if IsClear(records, work[n].key) then [Create(FileName(records, work[n]))] else [])
  {
    assert work[..n + 1][..n] == work[..n];
  }

  /** Taking up the next key: a creation request is ahead exactly when the key is clear. */
  lemma Takes(base: seq<Request>, records: map<string, Record>, work: seq<Work>, n: nat, c: Client, sent: seq<Request>)
    requires Underway(base, records, work, n, c, sent) && c.pc.Between? && n < |work|
    ensures Underway(base, records, work, n + 1, PublishClient.Take(c), sent)
  {
    var w, d := work[n], PublishClient.Take(c);
    TakenIs(records, w, c);
    CreationsForNext(records, work, n);
    assert c.todo[1..] == work[n + 1..];
    assert Creations(sent) + [] == Creations(sent);
    assert base + (CreationsFor(records, work[..n]) + Ahead(d)) == base + CreationsFor(records, work[..n]) + Ahead(d);
  }

  lemma TakenIs(records: map<string, Record>, w: Work, c: Client)
    requires c.task.Upload? && !c.task.checkOnly && c.todo != [] && c.todo[0] == w && SameRecord(records, c.mem, w.key)
    ensures var d := PublishClient.Take(c);
            && d.task == c.task && d.todo == c.todo[1..] && At(d.pc, w.key)
            && Ahead(d) == (if IsClear(records, w.key) then [Create(FileName(records, w))] else [])
            && forall k :: k != w.key ==> SameRecord(c.mem, d.mem, k)
  {
  }

  /** Any other step works on the key that was taken up; the request ahead is the one it sends. */
  lemma Works(kb: string, c: Client, k: string, e: Event, d: Client)
    requires At(c.pc, k) && Next(kb, c, e) == Some(d) && !e.Begin? && !e.Stop?
    ensures d.task == c.task && d.todo == c.todo && (d.pc.Between? || At(d.pc, k))
    ensures forall other :: other != k ==> SameRecord(c.mem, d.mem, other)
    ensures var request := Asked(c, e);
            (if request.Some? && request.value.Create? then [request.value] else []) + Ahead(d) == Ahead(c)
  {
    match e
    case Got(_) => WorksGot(kb, c, k, e, d);
    case _ => WorksElse(kb, c, k, e, d);
  }

  lemma WorksElse(kb: string, c: Client, k: string, e: Event, d: Client)
    requires At(c.pc, k) && Next(kb, c, e) == Some(d) && !e.Begin? && !e.Stop? && !e.Got?
    ensures d.task == c.task && d.todo == c.todo && (d.pc.Between? || At(d.pc, k)) && d.mem == c.mem
    ensures var request := Asked(c, e);
            (if request.Some? && request.value.Create? then [request.value] else []) + Ahead(d) == Ahead(c)
  {
  }

  lemma WorksGot(kb: string, c: Client, k: string, e: Event, d: Client)
    requires At(c.pc, k) && Next(kb, c, e) == Some(d) && e.Got?
    ensures d.task == c.task && d.todo == c.todo && At(d.pc, k)
    ensures forall other :: other != k ==> SameRecord(c.mem, d.mem, other)
    ensures Ahead(c) == [] && Ahead(d) == [] && (Asked(c, e).None? || !Asked(c, e).value.Create?)
  {
  }

  /** One step of the command, until its last. */
  lemma UnderwayNext(kb: string, base: seq<Request>, records: map<string, Record>, work: seq<Work>, n: nat, c: Client,
                     sent: seq<Request>, e: Event, d: Client)
    requires Underway(base, records, work, n, c, sent) && Next(kb, c, e) == Some(d) && !e.Begin? && !e.Stop?
    ensures var told := Traces.Told(sent, Asked(c, e));
            if c.pc.Between? && n == |work| then d.pc.Off? && Creations(told) == base + CreationsFor(records, work)
            else Underway(base, records, work, if c.pc.Between? then n + 1 else n, d, told)
  {
    CreationsTold(sent, Asked(c, e));
    if c.pc.Between? {
      BetweenNext(kb, c, e, d);
      if n < |work| {
        Takes(base, records, work, n, c, sent);
      } else {
        assert work[..n] == work && Creations(sent) + [] == Creations(sent);
      }
    } else {
      Works(kb, c, work[n - 1].key, e, d);
      StillUnderway(base, records, work, n, c, sent, d, Asked(c, e));
    }
  }

  lemma BetweenNext(kb: string, c: Client, e: Event, d: Client)
    requires c.pc.Between? && Next(kb, c, e) == Some(d) && !e.Begin? && !e.Stop?
    ensures e.Local? && Asked(c, e) == None
    ensures if c.todo == [] then d.pc.Off? else d == PublishClient.Take(c)
  {
  }

  lemma StillUnderway(base: seq<Request>, records: map<string, Record>, work: seq<Work>, n: nat, c: Client,
                      sent: seq<Request>, d: Client, request: Option<Request>)
    requires Underway(base, records, work, n, c, sent) && !c.pc.Between? && d.task == c.task && d.todo == c.todo
    requires d.pc.Between? || At(d.pc, work[n - 1].key)
    requires forall other :: other != work[n - 1].key ==> SameRecord(c.mem, d.mem, other)
    requires (if request.Some? && request.value.Create? then [request.value] else []) + Ahead(d) == Ahead(c)
    ensures Underway(base, records, work, n, d, Traces.Told(sent, request))
  {
    var creation := if request.Some? && request.value.Create? then [request.value] else [];
    CreationsTold(sent, request);
    assert Creations(sent) + creation + Ahead(d) == Creations(sent) + (creation + Ahead(d));
    forall i | n <= i < |work|
      ensures SameRecord(records, d.mem, work[i].key)
    {
      assert work[i].key != work[n - 1].key && SameRecord(c.mem, d.mem, work[i].key);
    }
  }

  // ---- The whole command ----

  /** Where the command stands at the end of a trace: under way, or done. */
  ghost predicate Stands(base: seq<Request>, records: map<string, Record>, work: seq<Work>,
                         p: Traces.Point<Client, Request>) {
    || (exists n: nat :: Underway(base, records, work, n, p.at, p.sent))
    || (p.at.pc.Off? && Creations(p.sent) == base + CreationsFor(records, work))
  }

  /** No command begins and none dies. */
  predicate Uninterrupted(events: seq<Event>) {
    forall i :: 0 <= i < |events| ==> !events[i].Begin? && !events[i].Stop?
  }

  lemma StandsNext(kb: string, base: seq<Request>, records: map<string, Record>, work: seq<Work>,
                   p: Traces.Point<Client, Request>, e: Event, q: Traces.Point<Client, Request>)
    requires Stands(base, records, work, p) && !e.Begin? && !e.Stop? && Next(kb, p.at, e) == Some(q.at)
    requires q.sent == Traces.Told(p.sent, Asked(p.at, e))
    ensures Stands(base, records, work, q)
  {
    if n: nat :| Underway(base, records, work, n, p.at, p.sent) {
      UnderwayNext(kb, base, records, work, n, p.at, p.sent, e, q.at);
    }
  }

  lemma CheckStep(kb: string, p: Traces.Point<Client, Request>, e: Event, q: Traces.Point<Client, Request>)
    requires Harmless(p.at) && !e.Begin? && Next(kb, p.at, e) == Some(q.at)
    requires q.sent == Traces.Told(p.sent, Asked(p.at, e))
    ensures Harmless(q.at) && !e.Post? && Creations(q.sent) == Creations(p.sent)
  {
    HarmlessNext(kb, p.at, e);
    CreationsTold(p.sent, Asked(p.at, e));
    NotCreating(p.at, e);
  }

  lemma NotCreating(c: Client, e: Event)
    requires !e.Post?
    ensures Asked(c, e).Some? ==> !Asked(c, e).value.Create?
  {
  }

  /** At every point of a command that only checks. */
  ghost predicate Checked(p: Traces.Point<Client, Request>, base: seq<Request>) {
    Harmless(p.at) && Creations(p.sent) == base
  }

  lemma {:induction false} CheckedAll(kb: string, trace: seq<Traces.Point<Client, Request>>, events: seq<Event>,
                                      base: seq<Request>, n: nat)
    requires Traces.IsTrace(Sequence(kb), Asked, trace, events) && Uninterrupted(events) && Checked(trace[0], base)
    requires n <= |events|
    ensures Checked(trace[n], base) && (n > 0 ==> !events[n - 1].Post?)
    decreases n
  {
    if n > 0 {
      CheckedAll(kb, trace, events, base, n - 1);
      assert Traces.StepOk(Sequence(kb), Asked, trace, events, n - 1);
      assert Sequence(kb)(trace[n - 1].at, events[n - 1]) == Next(kb, trace[n - 1].at, events[n - 1]);
      CheckStep(kb, trace[n - 1], events[n - 1], trace[n]);
    }
  }

  /** Until it is done or dies, a command that only checks sends no creation request. */
  lemma ChecksCreateNothing(kb: string, trace: seq<Traces.Point<Client, Request>>, events: seq<Event>)
    requires Traces.IsTrace(Sequence(kb), Asked, trace, events) && Uninterrupted(events) && Harmless(trace[0].at)
    ensures Creations(trace[|events|].sent) == Creations(trace[0].sent)
    ensures forall i :: 0 <= i < |events| ==> !events[i].Post?
  {
    var base := Creations(trace[0].sent);
    CheckedAll(kb, trace, events, base, |events|);
    forall i | 0 <= i < |events|
      ensures !events[i].Post?
    {
      CheckedAll(kb, trace, events, base, i + 1);
    }
  }

  lemma {:induction false} StandsAll(kb: string, base: seq<Request>, records: map<string, Record>, work: seq<Work>,
                                     trace: seq<Traces.Point<Client, Request>>, events: seq<Event>)
    requires Traces.IsTrace(Sequence(kb), Asked, trace, events) && Uninterrupted(events)
    requires Stands(base, records, work, trace[0])
    ensures Stands(base, records, work, trace[|events|])
    decreases |events|
  {
    if events != [] {
      assert Traces.StepOk(Sequence(kb), Asked, trace, events, 0);
      assert Sequence(kb)(trace[0].at, events[0]) == Next(kb, trace[0].at, events[0]);
      StandsNext(kb, base, records, work, trace[0], events[0], trace[1]);
      Traces.Suffix(Sequence(kb), Asked, trace, events, 1);
      StandsAll(kb, base, records, work, trace[1..], events[1..]);
    }
  }

  lemma {:induction false} CreationsGrow(records: map<string, Record>, work: seq<Work>, n: nat)
    requires n <= |work|
    ensures CreationsFor(records, work[..n]) <= CreationsFor(records, work)
    decreases |work| - n
  {
    if n < |work| {
      CreationsForNext(records, work, n);
      CreationsGrow(records, work, n + 1);
    } else {
      assert work[..n] == work;
    }
  }

  /** A command that creates, from when it is admitted: at every point it has sent creation requests for the first clear
      ones of its keys, one each and in order; and when it is done, for all of them. */
  lemma CreatesExactly(kb: string, c: Client, sent: seq<Request>, trace: seq<Traces.Point<Client, Request>>,
                       events: seq<Event>)
    requires c.pc.Between? && c.task.Upload? && !c.task.checkOnly && c.todo == c.task.work && Once(c.todo)
    requires Traces.IsTrace(Sequence(kb), Asked, trace, events) && trace[0] == Traces.Point(c, sent)
    requires Uninterrupted(events)
    ensures Creations(trace[|events|].sent) <= Creations(sent) + CreationsFor(c.mem, c.todo)
    ensures trace[|events|].at.pc.Off? ==>
              Creations(trace[|events|].sent) == Creations(sent) + CreationsFor(c.mem, c.todo)
  {
    var work, base := c.todo, Creations(sent);
    assert work[..0] == [] && work[0..] == work;
    assert Underway(base, c.mem, work, 0, c, sent);
    StandsAll(kb, base, c.mem, work, trace, events);
    var p := trace[|events|];
    if n: nat :| Underway(base, c.mem, work, n, p.at, p.sent) {
      CreationsGrow(c.mem, work, n);
      assert Creations(p.sent) <= base + CreationsFor(c.mem, work[..n]);
    }
  }
}
