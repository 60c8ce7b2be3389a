/** publish.py, upload: what becomes of one desired key, in terms of its record and of what the service answers. */
module PublishKeys {
  import opened Basics
  import opened Publish
  import opened PublishClient
  import Traces

  /** Where these events lead. */
  function Does(kb: string, c: Client, events: seq<Event>): Option<Client>
    decreases |events|
  {
    if events == [] then Some(c)
    else
      var next := Next(kb, c, events[0]);
      if next.None? then None else Does(kb, next.value, events[1..])
  }

  /** And what is sent for them. */
  function Sends(kb: string, c: Client, events: seq<Event>): seq<Request>
    decreases |events|
  {
    if events == [] then []
    else
      var next := Next(kb, c, events[0]);
      Traces.Told([], Asked(c, events[0])) + (if next.None? then [] else Sends(kb, next.value, events[1..]))
  }

  /** The events lead from `c` to `d`, and exactly these requests are sent. */
  ghost predicate Leads(kb: string, c: Client, events: seq<Event>, d: Client, sent: seq<Request>) {
    Does(kb, c, events) == Some(d) && Sends(kb, c, events) == sent
  }

  lemma LeadsFirst(kb: string, c: Client, e: Event, c1: Client, rest: seq<Event>, d: Client, first: seq<Request>,
                   sent: seq<Request>)
    requires Next(kb, c, e) == Some(c1) && Traces.Told([], Asked(c, e)) == first && Leads(kb, c1, rest, d, sent)
    ensures Leads(kb, c, [e] + rest, d, first + sent)
  {
    assert ([e] + rest)[1..] == rest;
  }

  lemma LeadsNowhere(kb: string, c: Client)
    ensures Leads(kb, c, [], c, [])
  {
  }

  // ---- At each point one kind of event is possible ----

  /** The event, but for what the service answers. */
  lemma OnlyEvent(kb: string, c: Client, e: Event)
    requires Next(kb, c, e).Some? && !e.Begin? && !e.Stop?
    ensures c.pc.Between? ==> e.Local?
    ensures c.pc.Marked? || c.pc.Fresh? || c.pc.Rebound? || c.pc.Closing? ==> e.Save?
    ensures c.pc.Posting? ==> e.Post?
    ensures c.pc.Awaiting? || c.pc.Reading? || c.pc.Reparsing? || c.pc.Listing? ==> e.Got?
  {
  }

  // ---- What the service answers ----

  /** The answer describes the document of this record, under the id that is known for it. */
  predicate Describes(kb: string, r: Record, y: Reply) {
    && y.Found? && y.doc.id != "" && y.doc.kb == kb && y.doc.name == r.filename && y.doc.size == r.bytes
    && (r.id != "" ==> y.doc.id == r.id)
  }

  /** And says how far it is. */
  predicate Informs(kb: string, r: Record, y: Reply) {
    Describes(kb, r, y) && y.doc.status.Some?
  }

  /** Otherwise this is the failure. */
  function FailureOf(kb: string, r: Record, y: Reply): Failure {
    if y.Broken? then y.failure
    else if Describes(kb, r, y) then Failure("mindcreek.parse_status_missing", 0)
    else Failure("mindcreek.document_identity_mismatch", 0)
  }

  /** A read succeeds exactly with an answer that informs. */
  lemma ReadExactly(kb: string, r: Record, y: Reply)
    ensures Refreshed(kb, y, r).Ok? <==> Informs(kb, r, y)
  {
  }

  // ---- The ends ----

  /** The work on the key is done and its record is stored; every other record is stored as it was. */
  function Kept(c: Client, k: string, r: Record): Client
    requires c.todo != []
  {
    c.(todo := c.todo[1..], mem := c.mem[k := r], disk := c.mem[k := r], pc := Between)
  }

  /** An upload is about to take up `w`, and `r` is its record with its present articles. */
  ghost predicate TakesUp(c: Client, w: Work, r: Record) {
    && c.pc.Between? && c.task.Upload? && c.todo != [] && c.todo[0] == w
    && r == (if w.key in c.mem then c.mem[w.key] else NewRecord(w.item)).(articles := w.item.articles)
  }

  function Rest(c: Client, k: string, r: Record, pc: Pc): Client
    requires c.todo != []
  {
    c.(todo := c.todo[1..], mem := c.mem[k := r], pc := pc)
  }

  lemma Closes(kb: string, c: Client, k: string, r: Record)
    requires c.todo != []
    ensures Leads(kb, Rest(c, k, r, Closing(k)), [Save], Kept(c, k, r), [])
  {
    var d := Rest(c, k, r, Closing(k));
    assert Next(kb, d, Save) == Some(Kept(c, k, r));
    LeadsNowhere(kb, Kept(c, k, r));
    LeadsFirst(kb, d, Save, Kept(c, k, r), [], Kept(c, k, r), [], []);
    assert [Save] + [] == [Save];
  }

  // ---- The cases ----

  /** A key without a record is passed over by a command that only checks. */
  lemma UnknownIsPassed(kb: string, c: Client, w: Work, r: Record)
    requires TakesUp(c, w, r) && w.key !in c.mem && c.task.checkOnly
    ensures Leads(kb, c, [Local], c.(todo := c.todo[1..]), [])
  {
    var d := c.(todo := c.todo[1..]);
    assert Next(kb, c, Local) == Some(d);
    LeadsNowhere(kb, d);
    LeadsFirst(kb, c, Local, d, [], d, [], []);
    assert [Local] + [] == [Local];
  }

  /** A retired record fails without a request. */
  lemma RetiredFails(kb: string, c: Client, w: Work, r: Record)
    requires TakesUp(c, w, r) && (w.key in c.mem || !c.task.checkOnly) && r.deleted
    ensures Leads(kb, c, [Local, Save],
                  Kept(c, w.key, r.(error := Some(Failure("mindcreek.previously_retired_content", 0)))), [])
  {
    var now := r.(error := Some(Failure("mindcreek.previously_retired_content", 0)));
    assert Next(kb, c, Local) == Some(Rest(c, w.key, now, Closing(w.key)));
    Closes(kb, c, w.key, now);
    LeadsFirst(kb, c, Local, Rest(c, w.key, now, Closing(w.key)), [Save], Kept(c, w.key, now), [], []);
    assert [Local] + [Save] == [Local, Save];
  }

  /** A clear record loses its error when the command only checks. */
  lemma ClearIsLeft(kb: string, c: Client, w: Work, r: Record)
    requires TakesUp(c, w, r) && w.key in c.mem && c.task.checkOnly && !r.deleted && r.id == "" && !r.attempted
    ensures Leads(kb, c, [Local, Save], Kept(c, w.key, r.(error := None)), [])
  {
    var now := r.(error := None);
    assert Next(kb, c, Local) == Some(Rest(c, w.key, now, Closing(w.key)));
    Closes(kb, c, w.key, now);
    LeadsFirst(kb, c, Local, Rest(c, w.key, now, Closing(w.key)), [Save], Kept(c, w.key, now), [], []);
    assert [Local] + [Save] == [Local, Save];
  }

  // ---- Creating ----

  /** The record whose intent is stored. */
  function Intended(r: Record): Record {
    r.(attempted := true, parse := "pending")
  }

  /** The record after the answer to the creation request. */
  function Answered(kb: string, r: Record, y: Reply): Record {
    if Describes(kb, r, y)
    then r.(id := y.doc.id, owned := true, parse := if y.doc.status.Some? then y.doc.status.value else "pending",
            error := None)
    else if y.Broken?
    then r.(error := Some(y.failure),
            attempted := y.failure.status !in {400, 401, 403, 404, 405, 413, 415, 422, 429})
    else r.(error := Some(Failure("mindcreek.document_identity_mismatch", 0)))
  }

  /** A clear record is marked, and the mark is stored before anything is sent. */
  lemma IntentIsStored(kb: string, c: Client, w: Work, r: Record)
    requires TakesUp(c, w, r) && !c.task.checkOnly && !r.deleted && r.id == "" && !r.attempted
    ensures Leads(kb, c, [Local, Save],
                  Rest(c, w.key, Intended(r), Posting(w.key)).(disk := c.mem[w.key := Intended(r)]), [])
  {
    var marked := Rest(c, w.key, Intended(r), Marked(w.key));
    var posting := Rest(c, w.key, Intended(r), Posting(w.key)).(disk := c.mem[w.key := Intended(r)]);
    assert Next(kb, c, Local) == Some(marked);
    assert Next(kb, marked, Save) == Some(posting);
    LeadsNowhere(kb, posting);
    LeadsFirst(kb, marked, Save, posting, [], posting, [], []);
    LeadsFirst(kb, c, Local, marked, [Save] + [], posting, [], [] + []);
    assert [Local] + ([Save] + []) == [Local, Save];
  }

  lemma PostLeads(kb: string, c: Client, k: string, m: Record, y: Reply)
    requires c.todo != [] && m.id == "" && m.attempted
    ensures Leads(kb, Rest(c, k, m, Posting(k)).(disk := c.mem[k := m]), [Post, Got(y), Save],
                  Kept(c, k, Answered(kb, m, y)), [Create(m.filename)])
  {
    var posting, awaiting := Rest(c, k, m, Posting(k)).(disk := c.mem[k := m]),
                             Rest(c, k, m, Awaiting(k)).(disk := c.mem[k := m]);
    AnswerLeads(kb, c, k, m, y);
    LeadsFirst(kb, posting, Post, awaiting, [Got(y), Save], Kept(c, k, Answered(kb, m, y)), [Create(m.filename)], []);
    assert [Post] + [Got(y), Save] == [Post, Got(y), Save] && [Create(m.filename)] + [] == [Create(m.filename)];
  }

  /** A clear record is marked and stored, the one creation request is sent, and its answer decides: the id, an error,
      and after a definitive rejection a clear record again. */
  lemma ClearIsCreated(kb: string, c: Client, w: Work, r: Record, y: Reply)
    requires TakesUp(c, w, r) && !c.task.checkOnly && !r.deleted && r.id == "" && !r.attempted
    ensures Leads(kb, c, [Local] + ([Save] + [Post, Got(y), Save]), Kept(c, w.key, Answered(kb, Intended(r), y)),
                  [Create(r.filename)])
  {
    var k, m := w.key, Intended(r);
    var marked, posting := Rest(c, k, m, Marked(k)), Rest(c, k, m, Posting(k)).(disk := c.mem[k := m]);
    var d := Kept(c, k, Answered(kb, m, y));
    PostLeads(kb, c, k, m, y);
    assert Next(kb, c, Local) == Some(marked);
    assert Next(kb, marked, Save) == Some(posting);
    LeadsFirst(kb, marked, Save, posting, [Post, Got(y), Save], d, [], [Create(r.filename)]);
    LeadsFirst(kb, c, Local, marked, [Save] + [Post, Got(y), Save], d, [], [] + [Create(r.filename)]);
    assert [] + ([] + [Create(r.filename)]) == [Create(r.filename)];
  }

  lemma AnswerLeads(kb: string, c: Client, k: string, m: Record, y: Reply)
    requires c.todo != [] && m.id == "" && m.attempted
    ensures Leads(kb, Rest(c, k, m, Awaiting(k)).(disk := c.mem[k := m]), [Got(y), Save],
                  Kept(c, k, Answered(kb, m, y)), [])
  {
    var d, now := Rest(c, k, m, Awaiting(k)).(disk := c.mem[k := m]), Answered(kb, m, y);
    var closing := Rest(c, k, now, Closing(k)).(disk := c.mem[k := m]);
    AnswerNext(kb, c, k, m, y);
    Closes(kb, c, k, now);
    ClosesAnyDisk(kb, Rest(c, k, now, Closing(k)), closing, Kept(c, k, now));
    LeadsFirst(kb, d, Got(y), closing, [Save], Kept(c, k, now), [], []);
    assert [Got(y)] + [Save] == [Got(y), Save];
  }

  lemma AnswerNext(kb: string, c: Client, k: string, m: Record, y: Reply)
    requires c.todo != [] && m.id == "" && m.attempted
    ensures Next(kb, Rest(c, k, m, Awaiting(k)).(disk := c.mem[k := m]), Got(y))
         == Some(Rest(c, k, Answered(kb, m, y), Closing(k)).(disk := c.mem[k := m]))
  {
    assert c.mem[k := m][k := Answered(kb, m, y)] == c.mem[k := Answered(kb, m, y)];
  }

  /** A save does not depend on what was stored before. */
  lemma ClosesAnyDisk(kb: string, c: Client, c': Client, d: Client)
    requires c' == c.(disk := c'.disk) && c.pc.Closing? && Leads(kb, c, [Save], d, [])
    ensures Leads(kb, c', [Save], d, [])
  {
    assert Next(kb, c', Save) == Next(kb, c, Save);
  }

  // ---- Reading what is known ----

  /** The record after its document was read as being in some state, and after a failure. */
  function ReadAs(r: Record, y: Reply): Record
    requires y.Found? && y.doc.status.Some?
  {
    r.(parse := y.doc.status.value, error := None)
  }

  function FailedAs(kb: string, r: Record, y: Reply): Record {
    r.(error := Some(FailureOf(kb, r, y)))
  }

  /** After a failed or cancelled parse another one is asked for when the command retries. */
  predicate Retries(c: Client, y: Reply) {
    && c.task.Upload? && c.task.retryFailed && y.Found?
    && (y.doc.status == Some("failed") || y.doc.status == Some("cancelled"))
  }

  /** A failing answer to a read. */
  lemma ReadFails(kb: string, c: Client, k: string, r: Record, mayRetry: bool, disk: map<string, Record>, y: Reply)
    requires c.todo != [] && r.id != "" && !Informs(kb, r, y)
    ensures var d := Rest(c, k, r, Reading(k, mayRetry)).(disk := disk);
            Leads(kb, d, [Got(y), Save], Kept(c, k, FailedAs(kb, r, y)), [Fetch(r.id)])
  {
    var d, now := Rest(c, k, r, Reading(k, mayRetry)).(disk := disk), FailedAs(kb, r, y);
    var closing := Rest(c, k, now, Closing(k)).(disk := disk);
    assert c.mem[k := r][k := now] == c.mem[k := now];
    assert Next(kb, d, Got(y)) == Some(closing);
    Closes(kb, c, k, now);
    ClosesAnyDisk(kb, Rest(c, k, now, Closing(k)), closing, Kept(c, k, now));
    LeadsFirst(kb, d, Got(y), closing, [Save], Kept(c, k, now), [Fetch(r.id)], []);
    assert [Got(y)] + [Save] == [Got(y), Save] && [Fetch(r.id)] + [] == [Fetch(r.id)];
  }

  lemma ReadNext(kb: string, c: Client, k: string, r: Record, mayRetry: bool, disk: map<string, Record>, y: Reply)
    requires c.todo != [] && r.id != "" && Informs(kb, r, y)
    ensures var now := ReadAs(r, y);
            var read := Rest(c, k, now, Fresh(k, mayRetry)).(disk := disk);
            && Next(kb, Rest(c, k, r, Reading(k, mayRetry)).(disk := disk), Got(y)) == Some(read)
            && Next(kb, read, Save)
               == Some(Rest(c, k, now, if mayRetry && Retries(c, y) then Reparsing(k) else Closing(k))
                       .(disk := c.mem[k := now]))
  {
    assert c.mem[k := r][k := ReadAs(r, y)] == c.mem[k := ReadAs(r, y)];
  }

  /** An answer that informs, and what follows when no other parse is asked for. */
  lemma ReadInforms(kb: string, c: Client, k: string, r: Record, mayRetry: bool, disk: map<string, Record>, y: Reply)
    requires c.todo != [] && r.id != "" && Informs(kb, r, y) && !(mayRetry && Retries(c, y))
    ensures var d := Rest(c, k, r, Reading(k, mayRetry)).(disk := disk);
            Leads(kb, d, [Got(y), Save, Save], Kept(c, k, ReadAs(r, y)), [Fetch(r.id)])
  {
    var d, now := Rest(c, k, r, Reading(k, mayRetry)).(disk := disk), ReadAs(r, y);
    var read := Rest(c, k, now, Fresh(k, mayRetry)).(disk := disk);
    var closing := Rest(c, k, now, Closing(k)).(disk := c.mem[k := now]);
    ReadNext(kb, c, k, r, mayRetry, disk, y);
    Closes(kb, c, k, now);
    ClosesAnyDisk(kb, Rest(c, k, now, Closing(k)), closing, Kept(c, k, now));
    LeadsFirst(kb, read, Save, closing, [Save], Kept(c, k, now), [], []);
    LeadsFirst(kb, d, Got(y), read, [Save] + [Save], Kept(c, k, now), [Fetch(r.id)], [] + []);
    assert [Got(y)] + ([Save] + [Save]) == [Got(y), Save, Save] && [Fetch(r.id)] + ([] + []) == [Fetch(r.id)];
  }

  /** A failed parse, when the command retries: it is stored, and another parse is asked for. */
  lemma ReadRetries(kb: string, c: Client, k: string, r: Record, disk: map<string, Record>, y: Reply,
                    events: seq<Event>, d: Client, sent: seq<Request>)
    requires c.todo != [] && r.id != "" && Informs(kb, r, y) && Retries(c, y)
    requires var now := ReadAs(r, y);
             Leads(kb, Rest(c, k, now, Reparsing(k)).(disk := c.mem[k := now]), events, d, sent)
    ensures Leads(kb, Rest(c, k, r, Reading(k, true)).(disk := disk), [Got(y), Save] + events, d, [Fetch(r.id)] + sent)
  {
    var b, now := Rest(c, k, r, Reading(k, true)).(disk := disk), ReadAs(r, y);
    var read := Rest(c, k, now, Fresh(k, true)).(disk := disk);
    var reparsing := Rest(c, k, now, Reparsing(k)).(disk := c.mem[k := now]);
    ReadNext(kb, c, k, r, true, disk, y);
    LeadsFirst(kb, read, Save, reparsing, events, d, [], sent);
    LeadsFirst(kb, b, Got(y), read, [Save] + events, d, [Fetch(r.id)], [] + sent);
    assert [Got(y)] + ([Save] + events) == [Got(y), Save] + events && [] + sent == sent;
  }

  /** The request for another parse fails. */
  lemma ReparseFails(kb: string, c: Client, k: string, r: Record, disk: map<string, Record>, z: Reply)
    requires c.todo != [] && r.id != "" && z.Broken?
    ensures Leads(kb, Rest(c, k, r, Reparsing(k)).(disk := disk), [Got(z), Save],
                  Kept(c, k, r.(error := Some(z.failure))), [Reparse(r.id)])
  {
    var d, now := Rest(c, k, r, Reparsing(k)).(disk := disk), r.(error := Some(z.failure));
    var closing := Rest(c, k, now, Closing(k)).(disk := disk);
    assert c.mem[k := r][k := now] == c.mem[k := now];
    assert Next(kb, d, Got(z)) == Some(closing);
    Closes(kb, c, k, now);
    ClosesAnyDisk(kb, Rest(c, k, now, Closing(k)), closing, Kept(c, k, now));
    LeadsFirst(kb, d, Got(z), closing, [Save], Kept(c, k, now), [Reparse(r.id)], []);
    assert [Got(z)] + [Save] == [Got(z), Save] && [Reparse(r.id)] + [] == [Reparse(r.id)];
  }

  /** It succeeds: the document is read once more. */
  lemma ReparseReads(kb: string, c: Client, k: string, r: Record, disk: map<string, Record>, z: Reply,
                     events: seq<Event>, d: Client, sent: seq<Request>)
    requires c.todo != [] && r.id != "" && !z.Broken?
    requires Leads(kb, Rest(c, k, r, Reading(k, false)).(disk := disk), events, d, sent)
    ensures Leads(kb, Rest(c, k, r, Reparsing(k)).(disk := disk), [Got(z)] + events, d, [Reparse(r.id)] + sent)
  {
    var b := Rest(c, k, r, Reparsing(k)).(disk := disk);
    assert Next(kb, b, Got(z)) == Some(Rest(c, k, r, Reading(k, false)).(disk := disk));
    LeadsFirst(kb, b, Got(z), Rest(c, k, r, Reading(k, false)).(disk := disk), events, d, [Reparse(r.id)], sent);
  }

  /** The work on a known document begins with reading it. */
  lemma KnownIsTaken(kb: string, c: Client, w: Work, r: Record, events: seq<Event>, d: Client, sent: seq<Request>)
    requires TakesUp(c, w, r) && w.key in c.mem && !r.deleted && r.id != ""
    requires Leads(kb, Rest(c, w.key, r, Reading(w.key, true)).(disk := c.disk), events, d, sent)
    ensures Leads(kb, c, [Local] + events, d, sent)
  {
    var reading := Rest(c, w.key, r, Reading(w.key, true)).(disk := c.disk);
    assert Next(kb, c, Local) == Some(reading);
    LeadsFirst(kb, c, Local, reading, events, d, [], sent);
    assert [] + sent == sent;
  }

  /** A known document is read: the record takes the state it is told, or an error and nothing else. */
  lemma KnownIsRead(kb: string, c: Client, w: Work, r: Record, y: Reply)
    requires TakesUp(c, w, r) && w.key in c.mem && !r.deleted && r.id != "" && !(Informs(kb, r, y) && Retries(c, y))
    ensures if Informs(kb, r, y)
            then Leads(kb, c, [Local] + [Got(y), Save, Save], Kept(c, w.key, ReadAs(r, y)), [Fetch(r.id)])
            else Leads(kb, c, [Local] + [Got(y), Save], Kept(c, w.key, FailedAs(kb, r, y)), [Fetch(r.id)])
  {
    if Informs(kb, r, y) {
      ReadInforms(kb, c, w.key, r, true, c.disk, y);
      KnownIsTaken(kb, c, w, r, [Got(y), Save, Save], Kept(c, w.key, ReadAs(r, y)), [Fetch(r.id)]);
    } else {
      ReadFails(kb, c, w.key, r, true, c.disk, y);
      KnownIsTaken(kb, c, w, r, [Got(y), Save], Kept(c, w.key, FailedAs(kb, r, y)), [Fetch(r.id)]);
    }
  }

  /** A failed or cancelled document, when the command retries: another parse is asked for, once, and then the document
      is read once more. */
  lemma FailedIsRetried(kb: string, c: Client, w: Work, r: Record, y: Reply, z: Reply, u: Reply)
    requires TakesUp(c, w, r) && w.key in c.mem && !r.deleted && r.id != "" && Informs(kb, r, y) && Retries(c, y)
    ensures var now := ReadAs(r, y);
            if z.Broken?
            then Leads(kb, c, [Local] + ([Got(y), Save] + [Got(z), Save]),
                       Kept(c, w.key, now.(error := Some(z.failure))), [Fetch(r.id)] + [Reparse(r.id)])
            else if Informs(kb, now, u)
            then Leads(kb, c, [Local] + ([Got(y), Save] + ([Got(z)] + [Got(u), Save, Save])),
                       Kept(c, w.key, ReadAs(now, u)), [Fetch(r.id)] + ([Reparse(r.id)] + [Fetch(r.id)]))
            else Leads(kb, c, [Local] + ([Got(y), Save] + ([Got(z)] + [Got(u), Save])),
                       Kept(c, w.key, FailedAs(kb, now, u)), [Fetch(r.id)] + ([Reparse(r.id)] + [Fetch(r.id)]))
  {
    var k, now := w.key, ReadAs(r, y);
    var disk := c.mem[k := now];
    if z.Broken? {
      var d := Kept(c, k, now.(error := Some(z.failure)));
      ReparseFails(kb, c, k, now, disk, z);
      ReadRetries(kb, c, k, r, c.disk, y, [Got(z), Save], d, [Reparse(r.id)]);
      KnownIsTaken(kb, c, w, r, [Got(y), Save] + [Got(z), Save], d, [Fetch(r.id)] + [Reparse(r.id)]);
    } else {
      var events := if Informs(kb, now, u) then [Got(u), Save, Save] else [Got(u), Save];
      var d := Kept(c, k, if Informs(kb, now, u) then ReadAs(now, u) else FailedAs(kb, now, u));
      if Informs(kb, now, u) {
        ReadInforms(kb, c, k, now, false, disk, u);
      } else {
        ReadFails(kb, c, k, now, false, disk, u);
      }
      ReparseReads(kb, c, k, now, disk, z, events, d, [Fetch(r.id)]);
      ReadRetries(kb, c, k, r, c.disk, y, [Got(z)] + events, d, [Reparse(r.id)] + [Fetch(r.id)]);
      KnownIsTaken(kb, c, w, r, [Got(y), Save] + ([Got(z)] + events), d,
                   [Fetch(r.id)] + ([Reparse(r.id)] + [Fetch(r.id)]));
    }
  }

  // ---- What the work on one key comes to ----

  /** The record of a known document after it was read, and perhaps parsed and read again. */
  function Followed(kb: string, r: Record, retryFailed: bool, y: Reply, z: Reply, u: Reply): Record {
    if !Informs(kb, r, y) then FailedAs(kb, r, y)
    else if !AsksAgain(kb, r, retryFailed, y) then ReadAs(r, y)
    else Reparsed(kb, ReadAs(r, y), z, u)
  }

  predicate AsksAgain(kb: string, r: Record, retryFailed: bool, y: Reply) {
    Informs(kb, r, y) && retryFailed && (y.doc.status == Some("failed") || y.doc.status == Some("cancelled"))
  }

  function Reparsed(kb: string, r: Record, z: Reply, u: Reply): Record {
    if z.Broken? then r.(error := Some(z.failure)) else if Informs(kb, r, u) then ReadAs(r, u) else FailedAs(kb, r, u)
  }

  function ReparseRequests(r: Record, z: Reply): seq<Request> {
    [Reparse(r.id)] + if z.Broken? then [] else [Fetch(r.id)]
  }

  function FollowRequests(kb: string, r: Record, retryFailed: bool, y: Reply, z: Reply): seq<Request> {
    [Fetch(r.id)] + if AsksAgain(kb, r, retryFailed, y) then ReparseRequests(r, z) else []
  }

  /** The record after a scan of the listing: a document of it was bound, or the scan failed. */
  ghost predicate Scanned(kb: string, r: Record, now: Record) {
    || (exists y :: Describes(kb, r, y)
          && now == r.(id := y.doc.id, owned := false, reconciled := true, error := None,
                       parse := if y.doc.status.Some? then y.doc.status.value else "pending"))
    || exists f: Failure ::
         now == r.(error := Some(f),
                   attempted := r.attempted && f.status !in {400, 401, 403, 404, 405, 413, 415, 422, 429})
  }

  predicate OnlyLists(asked: seq<Request>) {
    forall i :: 0 <= i < |asked| ==> asked[i].List?
  }

  /** `now` is the record of a key after the work on it, `r` the one before with its present articles, `asked` all that
      was sent for it and `y`, `z`, `u` what was answered. */
  ghost predicate KeyDone(kb: string, checkOnly: bool, retryFailed: bool, r: Record, now: Record, asked: seq<Request>,
                          y: Reply, z: Reply, u: Reply)
  {
    if r.deleted then asked == [] && now == r.(error := Some(Failure("mindcreek.previously_retired_content", 0)))
    else if r.id != "" then
      asked == FollowRequests(kb, r, retryFailed, y, z) && now == Followed(kb, r, retryFailed, y, z, u)
    else if r.attempted then OnlyLists(asked) && Scanned(kb, r, now)
    else if checkOnly then asked == [] && now == r.(error := None)
    else asked == [Create(r.filename)] && now == Answered(kb, Intended(r), y)
  }

  /** The record that the work on a key starts from: the one there is, or a new one, with the present articles. */
  function Before(records: map<string, Record>, w: Work): Record {
    if w.key in records then records[w.key].(articles := w.item.articles)
    else Record(w.item.filename, w.item.bytes, w.item.articles, false, false, "not_uploaded", "", None, false, false)
  }

  lemma AnsweredIs(kb: string, r: Record, y: Reply)
    requires r.id == "" && r.attempted
    ensures Describes(kb, r, y) ==> Uploaded(y.doc, r) == Answered(kb, r, y)
    ensures y.Broken? ==> OnFailure(y.failure, r) == Answered(kb, r, y)
    ensures !Describes(kb, r, y) && !y.Broken? ==> OnFailure(MISMATCH, r) == Answered(kb, r, y)
    ensures Describes(kb, r, y) <==> y.Found? && ValidDocument(kb, y.doc, r)
  {
  }

  lemma ReadIs(kb: string, r: Record, y: Reply)
    requires r.id != ""
    ensures Informs(kb, r, y) ==> Refreshed(kb, y, r) == Ok(ReadAs(r, y))
    ensures !Informs(kb, r, y) ==> Refreshed(kb, y, r).Err?
                                   && OnFailure(Refreshed(kb, y, r).error, r) == FailedAs(kb, r, y)
  {
  }

  lemma RetiredIs(r: Record)
    ensures OnFailure(RETIRED, r) == r.(error := Some(Failure("mindcreek.previously_retired_content", 0)))
  {
  }

  /** A read that informs, and what follows it. */
  lemma FollowsOn(kb: string, before: map<string, Record>, k: string, retryFailed: bool, asked: seq<Request>, y: Reply,
                  z: Reply, u: Reply)
    requires k in before && Informs(kb, before[k], y)
    ensures var now := ReadAs(before[k], y);
            var again := retryFailed && now.parse in {"failed", "cancelled"};
            && before[k := now][k := if again then Reparsed(kb, now, z, u) else now]
               == before[k := Followed(kb, before[k], retryFailed, y, z, u)]
            && (asked + [Fetch(before[k].id)]) + (if again then ReparseRequests(now, z) else [])
               == asked + FollowRequests(kb, before[k], retryFailed, y, z)
  {
  }

  lemma FollowsNot(kb: string, before: map<string, Record>, k: string, retryFailed: bool, asked: seq<Request>, y: Reply,
                   z: Reply, u: Reply)
    requires k in before && !Informs(kb, before[k], y)
    ensures before[k := FailedAs(kb, before[k], y)] == before[k := Followed(kb, before[k], retryFailed, y, z, u)]
    ensures asked + [Fetch(before[k].id)] == asked + FollowRequests(kb, before[k], retryFailed, y, z)
  {
  }

  lemma ScanFailed(kb: string, r: Record, f: Failure)
    requires r.id == "" && r.attempted
    ensures Scanned(kb, r, OnFailure(f, r))
  {
  }

  lemma ScanBound(kb: string, r: Record, d: Document)
    requires ValidDocument(kb, d, r)
    ensures Scanned(kb, r, Reconciled(d, r))
  {
    assert Describes(kb, r, Found(d));
  }
}
