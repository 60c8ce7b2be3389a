/** publish.py, class Publisher: the methods themselves. A method may do nothing that the step sequence of
    PublishClient does not allow at that point, must carry every step it starts through, and may send nothing but the
    requests of those steps, in their order. */
module PublisherClass {
  import opened Basics
  import opened Publish
  import opened PublishClient
  import PublishKeys
  import PublishUploads
  import PublishWorld
  import Traces

  /** The service, which may answer anything. */
  class Transport {
    ghost var requests: seq<Request>       // all that it was ever sent

    constructor () {}

    method Send(request: Request) returns (reply: Reply)
      modifies this
      ensures requests == old(requests) + [request]
    {
      requests := requests + [request];
      reply := *;
    }
  }

  class Publisher {
    const kb: string
    const http: Transport
    var records: map<string, Record>      // the records of this destination, in memory
    var saved: map<string, Record>        // the same records in state.json
    ghost var client: Client              // where this process stands
    ghost const start: Client             // where it stood first, and what had been sent then
    ghost const earlier: seq<Request>
    ghost var events: seq<Event>          // what it has done since,
    ghost var trace: seq<Traces.Point<Client, Request>>
    ghost var sent: seq<Request>          // and all that the service was sent for it, and before

    /** Events, states and requests agree, but for `ahead`, a request whose event comes next. */
    ghost predicate Sound(ahead: Option<Request>)
      reads this, http
    {
      && Traces.IsTrace(Sequence(kb), Asked, trace, events)
      && trace[|events|] == Traces.Point(client, sent) && trace[0] == Traces.Point(start, earlier)
      && http.requests == Traces.Told(sent, ahead)
    }

    ghost predicate Fits()
      reads this
    {
      client.mem == records && client.disk == saved
    }

    ghost predicate Valid()
      reads this, http
    {
      Fits() && Sound(None)
    }

    /** The request for `e` has been sent. */
    ghost predicate Asking(e: Event)
      reads this, http
    {
      Fits() && Sound(Asked(client, e))
    }

    constructor (kb: string, http: Transport, stored: map<string, Record>)
      ensures Valid() && client.pc == Off && records == saved == stored && events == []
      ensures client == start && this.kb == kb && this.http == http
    {
      this.kb, this.http := kb, http;
      records, saved := stored, stored;
      client := Client(stored, stored, PublishClient.Upload([], true, false), [], {}, Off);
      start := Client(stored, stored, PublishClient.Upload([], true, false), [], {}, Off);
      events, sent, earlier := [], http.requests, http.requests;
      trace := [Traces.Point(Client(stored, stored, PublishClient.Upload([], true, false), [], {}, Off),
          http.requests)];
    }

    /** The process has just done `e`. */
    ghost method Advance(e: Event)
      requires Sound(Asked(client, e))
      requires Next(kb, client, e).Some?
      requires Next(kb, client, e).value.mem == records && Next(kb, client, e).value.disk == saved
      modifies `client, `events, `trace, `sent
      ensures Valid() && client == Next(kb, old(client), e).value && events == old(events) + [e]
    {
      var point := Traces.Point(Next(kb, client, e).value, http.requests);
      assert Sequence(kb)(client, e) == Some(point.at);
      Traces.Grows(Sequence(kb), Asked, trace, events, e, point);
      client, events, trace, sent := point.at, events + [e], trace + [point], point.sent;
    }

    /** What this process did, together with anything else that happens meanwhile and that the destination allows, is
        a run, and leads to the records stored here. */
    lemma IsRun(s: PublishWorld.Setting, w: PublishWorld.World, labels: seq<PublishWorld.Label>)
      requires Valid() && s.kb == kb && PublishWorld.Events(labels) == events && Alike(start, w.client)
      requires PublishWorld.Permitted(s, w, labels)
      ensures PublishWorld.Run(s, w, labels).Some? && PublishWorld.Run(s, w, labels).value.client.disk == saved
    {
      PublishWorld.TraceIsRun(s, w, trace, labels);
    }

    /** So is what it would have done if it had died at any point. */
    lemma DiedIsRun(n: nat, s: PublishWorld.Setting, w: PublishWorld.World, labels: seq<PublishWorld.Label>)
      requires Valid() && s.kb == kb && Alike(start, w.client) && PublishWorld.Permitted(s, w, labels)
      requires n <= |events| && PublishWorld.Events(labels) == events[..n] + [Stop]
      ensures PublishWorld.Run(s, w, labels).Some?
      ensures PublishWorld.Run(s, w, labels).value.client.disk == trace[n].at.disk
    {
      var dead := Traces.Point(trace[n].at.(pc := Off), trace[n].sent);
      Traces.Interrupted(Sequence(kb), Asked, trace, events, n, Stop, dead);
      PublishWorld.TraceIsRun(s, w, trace[..n + 1] + [dead], labels);
    }

    method Save()
      requires Valid() && Next(kb, client, PublishClient.Save).Some?
      modifies `saved, `client, `events, `trace, `sent
      ensures Valid() && saved == records
      ensures client == Next(kb, old(client), PublishClient.Save).value
      ensures events == old(events) + [PublishClient.Save]
    {
      SavesAll(client);
      saved := records;
      Advance(PublishClient.Save);
    }

    lemma SavesAll(c: Client)
      requires NextSave(c).Some?
      ensures NextSave(c).value.mem == c.mem == NextSave(c).value.disk
    {
    }

    /** The read that the pc asks for is one of `key`'s document. */
    ghost predicate Reads(key: string, sweep: bool)
      reads this
    {
      && key in records
      && (if sweep then client.pc.Sweeping? && key in client.pc.unread
          else if client.pc.Verifying? then
            client.pc.left != [] && client.pc.left[0] == key && Replaceable(records, key)
          else client.pc.Reading? && client.pc.key == key)
    }

    /** The event that the answer to such a read is. */
    function Read(key: string, sweep: bool, reply: Reply): Event {
      if sweep then GotSweep(key, reply) else Got(reply)
    }

    method Refresh(key: string, ghost sweep: bool) returns (r: Option<Failure>, ghost reply: Reply)
      requires Valid() && Reads(key, sweep)
      modifies this, http
      ensures http.requests == old(http.requests) + [Fetch(old(records)[key].id)]
      ensures r.Some? ==> unchanged(this) && Refreshed(kb, reply, records[key]) == Err(r.value)
                          && Asking(Read(key, sweep, reply))
      ensures r.None? ==>
                && Refreshed(kb, reply, old(records)[key]).Ok?
                && records == old(records)[key := Refreshed(kb, reply, old(records)[key]).value]
                && client == Next(kb, Next(kb, old(client), Read(key, sweep, reply)).value, PublishClient.Save).value
                && events == old(events) + [Read(key, sweep, reply), PublishClient.Save]
                && Valid()
    {
      var record := records[key];
      var answer := http.Send(Fetch(record.id));
      reply := answer;
      if answer.Broken? { return Some(answer.failure), reply; }
      if !answer.Found? || !ValidDocument(kb, answer.doc, record) { return Some(MISMATCH), reply; }
      if answer.doc.status.None? { return Some(Failure("mindcreek.parse_status_missing", 0)), reply; }
      Renew(key, sweep, answer, record.(parse := answer.doc.status.value, error := None));
      return None, reply;
    }

    /** Lines 169-171. */
    method Renew(key: string, ghost sweep: bool, ghost reply: Reply, record: Record)
      requires Asking(Read(key, sweep, reply)) && Reads(key, sweep)
      requires Refreshed(kb, reply, records[key]) == Ok(record)
      modifies `records, `saved, `client, `events, `trace, `sent
      ensures Valid() && records == old(records)[key := record]
      ensures client == Next(kb, Next(kb, old(client), Read(key, sweep, reply)).value, PublishClient.Save).value
      ensures events == old(events) + [Read(key, sweep, reply), PublishClient.Save]
    {
      records := records[key := record];
      Advance(Read(key, sweep, reply));
      Save();
    }

    /** Lines 180-185: one page's items, against the ids and matches of the pages before it. */
    method ScanItemsOf(record: Record, page: nat, seenBefore: set<string>, matchesBefore: seq<Document>,
                       items: seq<Document>)
      returns (failure: Option<Failure>, seen: set<string>, matches: seq<Document>)
      ensures ScanItems(kb, record, Scan(page, seenBefore, matchesBefore), items)
           == (if failure.Some? then Err(failure.value) else Ok(Scan(page, seen, matches)))
    {
      ghost var scan := Scan(page, seenBefore, matchesBefore);
      seen, matches := seenBefore, matchesBefore;
      for j := 0 to |items|
        invariant ScanItems(kb, record, scan, items[..j]) == Ok(Scan(page, seen, matches))
      {
        var item := items[j];
        assert items[..j + 1][..j] == items[..j];
        if item.id == "" || item.id in seen {
          ErrorStays(kb, record, scan, items, j + 1);
          return Some(Failure("mindcreek.unstable_pagination", 0)), seen, matches;
        }
        seen := seen + {item.id};
        if item.name == record.filename {
          if !ValidDocument(kb, item, record) {
            ErrorStays(kb, record, scan, items, j + 1);
            return Some(MISMATCH), seen, matches;
          }
          matches := matches + [item];
        }
      }
      assert items[..|items|] == items;
      return None, seen, matches;
    }

    /** One page of the scan; `last` when it is the final one. */
    method ReadPage(key: string, page: nat, seenBefore: set<string>, matchesBefore: seq<Document>)
      returns (failure: Option<Failure>, last: bool, seen: set<string>, matches: seq<Document>, ghost reply: Reply)
      requires Valid() && key in records && 1 <= page <= MAX_PAGES
      requires client.pc == Listing(key, Scan(page, seenBefore, matchesBefore))
      modifies `client, `events, `trace, `sent, http
      ensures http.requests == old(http.requests) + [List(page)]
      ensures Listed(old(http.requests), http.requests)
      ensures var verdict := ScanPage(kb, records[key], Scan(page, seenBefore, matchesBefore), reply);
              if failure.Some? then unchanged(this) && verdict == Lost(failure.value) && Asking(Got(reply))
              else if last then unchanged(this) && verdict == Conclude(matches) && Asking(Got(reply))
              else page < MAX_PAGES && Valid() && verdict == More(Scan(page + 1, seen, matches))
                   && client == old(client).(pc := Listing(key, Scan(page + 1, seen, matches)))
                   && events == old(events) + [Got(reply)]
      ensures failure.None? && PublishWorld.AllValid(kb, records[key], matchesBefore) ==>
                PublishWorld.AllValid(kb, records[key], matches)
    {
      seen, matches, last := seenBefore, matchesBefore, true;
      var answer := http.Send(List(page));
      reply := answer;
      if answer.Broken? { failure := Some(answer.failure); return; }
      if !answer.Page? { failure := Some(Failure("mindcreek.invalid_list", 0)); return; }
      failure, seen, matches := ScanItemsOf(records[key], page, seen, matches, answer.items);
      if failure.Some? { return; }
      if PublishWorld.AllValid(kb, records[key], matchesBefore) {
        PublishWorld.ScanKeeps(kb, records[key], Scan(page, seenBefore, matchesBefore), answer.items);
      }
      if |answer.items| < PAGE_SIZE { return; }
      if page == MAX_PAGES { failure := Some(PAGE_LIMIT); return; }
      last := false;
      Advance(Got(reply));
    }

    method Reconcile(key: string) returns (r: Option<Failure>, ghost reply: Reply)
      requires Valid() && key in records && client.pc == Listing(key, START)
      requires records[key].id == "" && records[key].attempted
      modifies this, http
      ensures Underway()
      ensures r.Some? ==> Fails(key, reply, r.value)
      ensures r.None? ==> Valid() && client.pc == Closing(key) && key in records
      ensures ScanEnds(key, r) && Listed(old(http.requests), http.requests)
    {
      var matches: seq<Document>, seen: set<string> := [], {};
      var page, last := 1, false;
      while true
        invariant 1 <= page <= MAX_PAGES
        invariant Valid() && records == old(records) && PublishWorld.AllValid(kb, records[key], matches)
        invariant client == old(client).(pc := Listing(key, Scan(page, seen, matches)))
        invariant Continues(old(events)) && Listed(old(http.requests), http.requests)
        decreases MAX_PAGES - page
      {
        ghost var scan, before, asked := Scan(page, seen, matches), events, http.requests;
        r, last, seen, matches, reply := ReadPage(key, page, seen, matches);
        ListedFurther(old(http.requests), asked, http.requests);
        if r.Some? {
          Stops(key, scan, reply, r.value);
          return;
        }
        if last {
          r := Resolve(key, matches, scan, reply);
          Further(old(events), before, events, true);
          return;
        }
        page := page + 1;
      }
    }

    /** Lines 190-200: what the whole scan found. */
    method Resolve(key: string, matches: seq<Document>, ghost scan: Scan, ghost reply: Reply)
      returns (r: Option<Failure>)
      requires Asking(Got(reply)) && key in records && client.pc == Listing(key, scan)
      requires ScanPage(kb, records[key], scan, reply) == Conclude(matches)
      requires records[key].id == "" && records[key].attempted
      requires PublishWorld.AllValid(kb, records[key], matches)
      modifies `records, `saved, `client, `events, `trace, `sent
      ensures Underway()
      ensures r.Some? ==> Fails(key, reply, r.value)
      ensures r.None? ==> Valid() && client.pc == Closing(key) && key in records
      ensures ScanEnds(key, r)
    {
      r := None;
      if |matches| > 1 { r := Some(Failure("mindcreek.ambiguous_upload", 0)); }
      if |matches| == 0 { r := Some(UNRESOLVED); }
      if r.Some? {
        Stops(key, scan, reply, r.value);
        return;
      }
      PublishKeys.ScanBound(kb, records[key], matches[0]);
      Bind(key, matches[0], scan, reply);
    }

    /** The scan ends with a failure. */
    lemma Stops(key: string, scan: Scan, reply: Reply, f: Failure)
      requires Asking(Got(reply)) && key in records && client.pc == Listing(key, scan)
      requires ScanPage(kb, records[key], scan, reply) == Lost(f)
      requires records[key].id == "" && records[key].attempted
      ensures Fails(key, reply, f)
      ensures Finished(key, Some(f)) == records[key := Finished(key, Some(f))[key]]
      ensures PublishKeys.Scanned(kb, records[key], Finished(key, Some(f))[key])
    {
      ListingFails(kb, client, key, scan, reply, f);
      PublishKeys.ScanFailed(kb, records[key], f);
    }

    /** What the scan made of the record, and nothing else. */
    twostate predicate ScanEnds(key: string, failure: Option<Failure>)
      requires key in records && key in old(records)
      reads this
    {
      && Finished(key, failure) == old(records)[key := Finished(key, failure)[key]]
      && PublishKeys.Scanned(kb, old(records)[key], Finished(key, failure)[key])
    }

    /** Lines 192-197. */
    method Bind(key: string, d: Document, ghost scan: Scan, ghost reply: Reply)
      requires Asking(Got(reply)) && key in records && client.pc == Listing(key, scan)
      requires ScanPage(kb, records[key], scan, reply) == Bound(d)
      modifies `records, `saved, `client, `events, `trace, `sent
      ensures Valid() && client.todo == old(client.todo) && client.task == old(client.task)
      ensures client.reread == old(client.reread)
      ensures events == old(events) + [Got(reply), PublishClient.Save]
      ensures client.pc == Closing(key) && records == old(records)[key := Reconciled(d, old(records)[key])]
      ensures saved == records
    {
      records := records[key := records[key].(id := d.id, parse := StatusOf(d), owned := false, reconciled := true,
                                              error := None)];
      Advance(Got(reply));
      Save();
    }

    /** The records once the work on `key` is finished, with or without a failure. */
    ghost function Finished(key: string, failure: Option<Failure>): map<string, Record>
      requires key in records
      reads this
    {
      if failure.Some? then records[key := OnFailure(failure.value, records[key])] else records
    }

    /** The pending reply makes the current record fail with `f`. */
    ghost predicate Fails(key: string, reply: Reply, f: Failure)
      reads this, http
    {
      && Asking(Got(reply)) && key in records
      && Next(kb, client, Got(reply)) == Some(Put(client, key, OnFailure(f, records[key]), Closing(key)))
    }

    /** Same command, same work ahead, and no death on the way. */
    twostate predicate Underway()
      reads this
    {
      && client.todo == old(client.todo) && client.task == old(client.task) && client.reread == old(client.reread)
      && Continues(old(events))
    }

    /** Lines 220 and 224. */
    method ReadOnce(key: string) returns (r: Option<Failure>, ghost reply: Reply)
      requires Valid() && key in records && client.pc.Reading? && client.pc.key == key && records[key].id != ""
      requires client.task.Upload?
      modifies this, http
      ensures Underway() && http.requests == old(http.requests) + [Fetch(old(records)[key].id)]
      ensures r.Some? <==> !PublishKeys.Informs(kb, old(records)[key], reply)
      ensures r.Some? ==>
                && Fails(key, reply, r.value)
                && Finished(key, r) == old(records)[key := PublishKeys.FailedAs(kb, old(records)[key], reply)]
      ensures r.None? ==>
                && Valid() && key in records
                && records == old(records)[key := PublishKeys.ReadAs(old(records)[key], reply)]
                && client.pc == (if old(client).pc.mayRetry && old(client).task.retryFailed
                                    && records[key].parse in {"failed", "cancelled"}
                                 then Reparsing(key) else Closing(key))
    {
      ghost var before := client;
      r, reply := Refresh(key, false);
      PublishKeys.ReadIs(kb, before.mem[key], reply);
      if r.None? { ReadAndSaved(before, key, reply); }
    }

    /** Lines 219-224. */
    method ReadAgain(key: string, retryFailed: bool)
      returns (r: Option<Failure>, ghost reply: Reply, ghost y: Reply, ghost z: Reply, ghost u: Reply)
      requires Valid() && key in records && client.pc == Reading(key, true) && records[key].id != ""
      requires client.task.Upload? && client.task.retryFailed == retryFailed
      modifies this, http
      ensures Underway()
      ensures r.Some? ==> Fails(key, reply, r.value)
      ensures r.None? ==> Valid() && client.pc == Closing(key) && key in records
      ensures Finished(key, r)
           == old(records)[key := PublishKeys.Followed(kb, old(records)[key], retryFailed, y, z, u)]
      ensures http.requests
           == old(http.requests) + PublishKeys.FollowRequests(kb, old(records)[key], retryFailed, y, z)
    {
      ghost var before, asked := records, http.requests;
      r, reply := ReadOnce(key);
      y, z, u := reply, reply, reply;
      if r.Some? {
        PublishKeys.FollowsNot(kb, before, key, retryFailed, asked, y, z, u);
        return;
      }
      r, reply, z, u := ParseIfFailed(key, retryFailed, reply);
      PublishKeys.FollowsOn(kb, before, key, retryFailed, asked, y, z, u);
    }

    /** Lines 221-224. */
    method ParseIfFailed(key: string, retryFailed: bool, ghost y: Reply)
      returns (r: Option<Failure>, ghost reply: Reply, ghost z: Reply, ghost u: Reply)
      requires Valid() && key in records && records[key].id != "" && client.task.Upload?
      requires client.pc == (if retryFailed && records[key].parse in {"failed", "cancelled"}
                             then Reparsing(key) else Closing(key))
      modifies this, http
      ensures Underway()
      ensures r.Some? ==> Fails(key, reply, r.value)
      ensures r.None? ==> Valid() && client.pc == Closing(key) && key in records
      ensures var again := retryFailed && old(records)[key].parse in {"failed", "cancelled"};
              && Finished(key, r)
                 == old(records)[key := if again then PublishKeys.Reparsed(kb, old(records)[key], z, u)
                                        else old(records)[key]]
              && http.requests
                 == old(http.requests) + (if again then PublishKeys.ReparseRequests(old(records)[key], z) else [])
    {
      r, reply, z, u := None, y, y, y;
      if retryFailed && records[key].parse in {"failed", "cancelled"} {
        r, reply, z, u := ParseAgain(key);
      }
    }

    /** Where a read leaves the process. */
    lemma ReadAndSaved(c: Client, key: string, reply: Reply)
      requires c.pc.Reading? && c.pc.key == key && key in c.mem && Refreshed(kb, reply, c.mem[key]).Ok?
      ensures var r := Refreshed(kb, reply, c.mem[key]).value;
              var retry := c.pc.mayRetry && c.task.Upload? && c.task.retryFailed && r.parse in {"failed", "cancelled"};
              var read := Next(kb, c, Got(reply));
              && read.Some? && Next(kb, read.value, PublishClient.Save)
                 == Some(c.(disk := c.mem[key := r], mem := c.mem[key := r],
                            pc := if retry then Reparsing(key) else Closing(key)))
    {
    }

    /** Lines 222-224. */
    method ParseAgain(key: string) returns (r: Option<Failure>, ghost reply: Reply, ghost z: Reply, ghost u: Reply)
      requires Valid() && key in records && client.pc == Reparsing(key) && records[key].id != "" && client.task.Upload?
      modifies this, http
      ensures Underway()
      ensures r.Some? ==> Fails(key, reply, r.value)
      ensures r.None? ==> Valid() && client.pc == Closing(key) && key in records
      ensures Finished(key, r) == old(records)[key := PublishKeys.Reparsed(kb, old(records)[key], z, u)]
      ensures http.requests == old(http.requests) + PublishKeys.ReparseRequests(old(records)[key], z)
    {
      var answer := http.Send(Reparse(records[key].id));
      reply := answer;
      z, u := answer, answer;
      if answer.Broken? { return Some(answer.failure), reply, z, u; }
      Advance(Got(reply));
      r, reply := ReadOnce(key);
      u := reply;
    }

    /** Lines 231-236, after the record was marked: the intent is saved, then the one request is sent. */
    method Create(key: string) returns (r: Option<Failure>, ghost reply: Reply)
      requires Valid() && key in records && client.pc == Marked(key)
      requires records[key].id == "" && records[key].attempted
      modifies this, http
      ensures Underway() && http.requests == old(http.requests) + [Request.Create(old(records)[key].filename)]
      ensures events == old(events) + [PublishClient.Save, Post] + (if r.Some? then [] else [Got(reply)])
      ensures saved == old(records)
      ensures r.Some? ==> Fails(key, reply, r.value) && records == old(records)
      ensures r.None? ==> Valid() && client.pc == Closing(key) && key in records && records[key].id != ""
      ensures Finished(key, r) == old(records)[key := PublishKeys.Answered(kb, old(records)[key], reply)]
    {
      var record := records[key];
      var answer := Send(key);
      reply := answer;
      PublishKeys.AnsweredIs(kb, record, reply);
      if answer.Broken? { return Some(answer.failure), reply; }
      if !answer.Found? || !ValidDocument(kb, answer.doc, record) { return Some(MISMATCH), reply; }
      Accept(key, answer, record.(id := answer.doc.id, owned := true, parse := StatusOf(answer.doc), error := None));
      r := None;
    }

    /** Lines 231-232. */
    method Send(key: string) returns (reply: Reply)
      requires Valid() && key in records && client.pc == Marked(key)
      modifies `saved, `client, `events, `trace, `sent, http
      ensures Valid() && saved == records && client == old(client).(disk := records, pc := Awaiting(key))
      ensures http.requests == old(http.requests) + [Request.Create(records[key].filename)]
      ensures events == old(events) + [PublishClient.Save, Post]
    {
      Save();
      reply := http.Send(Request.Create(records[key].filename));
      Advance(Post);
    }

    /** Line 236. */
    method Accept(key: string, ghost reply: Reply, record: Record)
      requires Valid() && key in records && client.pc == Awaiting(key)
      requires reply.Found? && ValidDocument(kb, reply.doc, records[key]) && record == Uploaded(reply.doc, records[key])
      modifies `records, `client, `events, `trace, `sent
      ensures Valid() && client == Put(old(client), key, record, Closing(key)) && records == old(records)[key := record]
      ensures events == old(events) + [Got(reply)]
    {
      records := records[key := record];
      Advance(Got(reply));
    }

    /** The local decision about the next desired key. */
    ghost method Take()
      requires Sound(None) && client.pc == Between && client.todo != []
      requires PublishClient.Take(client).mem == records && client.disk == saved
      modifies `client, `events, `trace, `sent
      ensures Valid() && client == PublishClient.Take(old(client)) && events == old(events) + [Local]
    {
      Advance(Local);
    }

    /** The process is about to work on `w`, whose record is `record`. */
    ghost predicate Ready(w: Work, record: Record)
      reads this, http
    {
      && Valid() && client.pc == Between && client.todo != [] && client.todo[0] == w && client.task.Upload?
      && saved == records
      && record == (if w.key in records then records[w.key] else NewRecord(w.item)).(articles := w.item.articles)
    }

    /** The process has finished a key and has the rest of its work before it. */
    ghost predicate Settled(before: Client)
      reads this, http
    {
      && Valid() && client.pc == Between && saved == records
      && client.task == before.task && client.todo == before.todo
    }

    /** The process has finished the work it had next in `before`. */
    ghost predicate Done(before: Client)
      reads this, http
    {
      && Valid() && client.pc == Between && saved == records && client.task == before.task
      && before.todo != [] && client.todo == before.todo[1..]
    }

    method Refuse(w: Work, record: Record)
      requires Ready(w, record) && record.deleted
      modifies this, http
      ensures Done(old(client)) && Continues(old(events)) && http.requests == old(http.requests)
      ensures records
           == old(records)[w.key := record.(error := Some(Failure("mindcreek.previously_retired_content", 0)))]
    {
      PublishKeys.RetiredIs(record);
      records := records[w.key := OnFailure(RETIRED, record)];
      Take();
      Finish(w.key, None, Page([]));
    }

    method ThenFollow(key: string, retryFailed: bool) returns (ghost y: Reply, ghost z: Reply, ghost u: Reply)
      requires Valid() && key in records && client.pc == Reading(key, true) && records[key].id != ""
      requires client.task.Upload? && client.task.retryFailed == retryFailed
      modifies this, http
      ensures Settled(old(client)) && Continues(old(events))
      ensures records == old(records)[key := PublishKeys.Followed(kb, old(records)[key], retryFailed, y, z, u)]
      ensures http.requests
           == old(http.requests) + PublishKeys.FollowRequests(kb, old(records)[key], retryFailed, y, z)
    {
      var failure;
      ghost var reply;
      failure, reply, y, z, u := ReadAgain(key, retryFailed);
      ghost var worked := events;
      Finish(key, failure, reply);
      Further(old(events), worked, events, true);
    }

    method Follow(w: Work, record: Record, retryFailed: bool) returns (ghost y: Reply, ghost z: Reply, ghost u: Reply)
      requires Ready(w, record) && !record.deleted && record.id != "" && client.task.retryFailed == retryFailed
      modifies this, http
      ensures Done(old(client)) && Continues(old(events))
      ensures records == old(records)[w.key := PublishKeys.Followed(kb, record, retryFailed, y, z, u)]
      ensures http.requests == old(http.requests) + PublishKeys.FollowRequests(kb, record, retryFailed, y, z)
    {
      records := records[w.key := record];
      Take();
      ghost var taken := events;
      y, z, u := ThenFollow(w.key, retryFailed);
      Further(old(events), taken, events, true);
    }

    method ThenRecover(key: string)
      requires Valid() && key in records && client.pc == Listing(key, START)
      requires records[key].id == "" && records[key].attempted
      modifies this, http
      ensures Settled(old(client)) && Continues(old(events))
      ensures Listed(old(http.requests), http.requests) && key in records
      ensures records == old(records)[key := records[key]]
      ensures PublishKeys.Scanned(kb, old(records)[key], records[key])
    {
      var failure, reply := Reconcile(key);
      ghost var worked := events;
      Finish(key, failure, reply);
      Further(old(events), worked, events, true);
    }

    method Recover(w: Work, record: Record)
      requires Ready(w, record) && !record.deleted && record.id == "" && record.attempted
      modifies this, http
      ensures Done(old(client)) && Continues(old(events))
      ensures Listed(old(http.requests), http.requests)
      ensures w.key in records && records == old(records)[w.key := records[w.key]]
      ensures PublishKeys.Scanned(kb, record, records[w.key])
    {
      records := records[w.key := record];
      Take();
      ghost var taken, marked := events, records;
      ThenRecover(w.key);
      assert marked[w.key := records[w.key]] == old(records)[w.key := records[w.key]];
      Further(old(events), taken, events, true);
    }

    method ThenStart(key: string) returns (ghost reply: Reply)
      requires Valid() && key in records && client.pc == Marked(key)
      requires records[key].id == "" && records[key].attempted
      modifies this, http
      ensures Settled(old(client)) && Continues(old(events))
      ensures http.requests == old(http.requests) + [Request.Create(old(records)[key].filename)]
      ensures records == old(records)[key := PublishKeys.Answered(kb, old(records)[key], reply)]
    {
      var failure;
      failure, reply := Create(key);
      ghost var worked := events;
      Finish(key, failure, reply);
      Further(old(events), worked, events, true);
    }

    method Start(w: Work, record: Record) returns (ghost reply: Reply)
      requires Ready(w, record) && !record.deleted && record.id == "" && !record.attempted && !client.task.checkOnly
      modifies this, http
      ensures Done(old(client)) && Continues(old(events))
      ensures http.requests == old(http.requests) + [Request.Create(record.filename)]
      ensures records == old(records)[w.key := PublishKeys.Answered(kb, PublishKeys.Intended(record), reply)]
    {
      records := records[w.key := record.(attempted := true, parse := "pending")];
      Take();
      ghost var taken := events;
      reply := ThenStart(w.key);
      Further(old(events), taken, events, true);
    }

    method Leave(w: Work, record: Record)
      requires Ready(w, record) && !record.deleted && record.id == "" && !record.attempted && client.task.checkOnly
      requires w.key in records
      modifies this, http
      ensures Done(old(client)) && Continues(old(events)) && http.requests == old(http.requests)
      ensures records == old(records)[w.key := record.(error := None)]
    {
      records := records[w.key := record.(error := None)];
      Take();
      Finish(w.key, None, Page([]));
    }

    /** Lines 207-242, for one desired key: what is sent for it and what becomes of its record, `y`, `z` and `u` being
        the answers; all other records stay as they are. */
    method UploadOne(w: Work, checkOnly: bool, retryFailed: bool)
      returns (ghost y: Reply, ghost z: Reply, ghost u: Reply)
      requires Valid() && client.pc == Between && client.todo != [] && client.todo[0] == w && saved == records
      requires client.task.Upload? && client.task.checkOnly == checkOnly && client.task.retryFailed == retryFailed
      modifies this, http
      ensures Done(old(client)) && Continues(old(events))
      ensures w.key !in old(records) && checkOnly ==>
                records == old(records) && http.requests == old(http.requests)
      ensures w.key in old(records) || !checkOnly ==>
                && w.key in records && records == old(records)[w.key := records[w.key]]
                && old(http.requests) <= http.requests
                && PublishKeys.KeyDone(kb, checkOnly, retryFailed, PublishKeys.Before(old(records), w), records[w.key],
                                       http.requests[|old(http.requests)|..], y, z, u)
    {
      y, z, u := Page([]), Page([]), Page([]);
      if w.key !in records && checkOnly {
        Take();
        return;
      }
      var record := if w.key in records then records[w.key] else NewRecord(w.item);
      record := record.(articles := w.item.articles);
      if record.deleted { Refuse(w, record); }
      else if record.id != "" { y, z, u := Follow(w, record, retryFailed); }
      else if record.attempted { Recover(w, record); }
      else if !checkOnly { y := Start(w, record); }
      else { Leave(w, record); }
    }

    /** Lines 238-242. */
    method Finish(key: string, failure: Option<Failure>, ghost reply: Reply)
      requires if failure.Some? then Fails(key, reply, failure.value) else Valid() && client.pc == Closing(key)
      modifies this, http
      ensures Valid() && client.pc == Between && saved == records
      ensures client.todo == old(client.todo) && client.task == old(client.task) && Continues(old(events))
      ensures http.requests == old(http.requests)
      ensures records == if failure.Some? then old(Finished(key, failure)) else old(records)
    {
      if failure.Some? {
        records := records[key := OnFailure(failure.value, records[key])];
        Advance(Got(reply));
      }
      Save();
    }

    /** Lines 205 and 266: a command begins by checking that it is authorized. */
    method Admit(ghost t: Task) returns (ok: bool, ghost reply: Reply)
      requires Valid() && client.pc == Off && records == saved && Startable(t)
      modifies `client, `events, `trace, `sent, http
      ensures Valid() && http.requests == old(http.requests) + [Check]
      ensures events == old(events) + [Begin(t), Got(reply)] && ok == !reply.Broken?
      ensures Continues(old(events) + [Begin(t)]) && Unposted(old(events), events)
      ensures PublishUploads.Creations(http.requests) == PublishUploads.Creations(old(http.requests))
      ensures client == Client(saved, saved, t, if t.Upload? then t.work else [], {},
                               if !ok then Off else if t.Upload? then Between else Verifying(t.desired))
    {
      Advance(Begin(t));
      var admission := http.Send(Check);
      reply := admission;
      Advance(Got(admission));
      PublishUploads.CreationsTold(old(http.requests), Some(Check));
      ok := !admission.Broken?;
    }

    /** upload, up to its waiting loop. `ok` is false when the first read is refused. */
    method Upload(work: seq<Work>, checkOnly: bool, retryFailed: bool) returns (ok: bool)
      requires Valid() && client.pc == Off && records == saved
      modifies this, http
      ensures Valid() && client.pc == Off
      ensures Continues(old(events) + [Begin(PublishClient.Upload(work, checkOnly, retryFailed))])
      ensures ok ==> client.todo == [] && events[|events| - 1] == Local && saved == records
      ensures !ok ==> records == old(records) && saved == old(saved) && http.requests == old(http.requests) + [Check]
      ensures checkOnly ==> Unposted(old(events), events)
      ensures checkOnly ==> PublishUploads.Creations(http.requests) == PublishUploads.Creations(old(http.requests))
      ensures ok && !checkOnly && PublishUploads.Once(work) ==>
                PublishUploads.Creations(http.requests)
                == PublishUploads.Creations(old(http.requests)) + PublishUploads.CreationsFor(old(saved), work)
    {
      ghost var reply;
      ok, reply := Admit(PublishClient.Upload(work, checkOnly, retryFailed));
      if !ok { return; }
      ghost var begun := events;
      UploadAdmitted(work, checkOnly, retryFailed);
      if checkOnly { UnpostedFurther(old(events), begun, events); }
      Further(old(events) + [Begin(PublishClient.Upload(work, checkOnly, retryFailed))], begun, events, true);
    }

    method UploadAdmitted(work: seq<Work>, checkOnly: bool, retryFailed: bool)
      requires Valid() && client.pc == Between && saved == records
      requires client.task == PublishClient.Upload(work, checkOnly, retryFailed) && client.todo == work
      modifies this, http
      ensures Valid() && client.pc == Off && client.todo == [] && saved == records
      ensures Continues(old(events)) && |events| > |old(events)| && events[|events| - 1] == Local
      ensures checkOnly ==> Unposted(old(events), events)
      ensures checkOnly ==> PublishUploads.Creations(http.requests) == PublishUploads.Creations(old(http.requests))
      ensures !checkOnly && PublishUploads.Once(work) ==>
                PublishUploads.Creations(http.requests)
                == PublishUploads.Creations(old(http.requests)) + PublishUploads.CreationsFor(old(saved), work)
    {
      ghost var begun, point, path := events, Traces.Point(client, http.requests), trace;
      UploadAll(work, checkOnly, retryFailed);
      CreatedSince(path, begun, point);
    }

    /** Which creation requests were sent since a command was admitted. */
    lemma CreatedSince(path: seq<Traces.Point<Client, Request>>, done: seq<Event>, p: Traces.Point<Client, Request>)
      requires Valid() && client.pc.Off? && Traces.IsTrace(Sequence(kb), Asked, path, done)
      requires path[0] == Traces.Point(start, earlier) && path[|done|] == p && Continues(done)
      requires p.at.pc.Between? && p.at.task.Upload? && p.at.todo == p.at.task.work
      ensures p.at.task.checkOnly ==> Unposted(done, events)
      ensures p.at.task.checkOnly ==>
                PublishUploads.Creations(http.requests) == PublishUploads.Creations(p.sent)
      ensures !p.at.task.checkOnly && PublishUploads.Once(p.at.todo) ==>
                PublishUploads.Creations(http.requests)
                == PublishUploads.Creations(p.sent) + PublishUploads.CreationsFor(p.at.mem, p.at.todo)
    {
      var n := |done|;
      Traces.Same(Sequence(kb), Asked, path, trace, done, events, n);
      Traces.Suffix(Sequence(kb), Asked, trace, events, n);
      var since := events[n..];
      assert PublishUploads.Uninterrupted(since);
      if p.at.task.checkOnly {
        PublishUploads.ChecksCreateNothing(kb, trace[n..], since);
        assert forall i :: n <= i < |events| ==> events[i] == since[i - n];
      } else if PublishUploads.Once(p.at.todo) {
        PublishUploads.CreatesExactly(kb, p.at, p.sent, trace[n..], since);
      }
    }

    /** Lines 206-242. */
    method UploadAll(work: seq<Work>, checkOnly: bool, retryFailed: bool)
      requires Valid() && client.pc == Between && saved == records
      requires client.task == PublishClient.Upload(work, checkOnly, retryFailed) && client.todo == work
      modifies this, http
      ensures Valid() && client.pc == Off && client.todo == [] && saved == records
      ensures Continues(old(events)) && |events| > |old(events)| && events[|events| - 1] == Local
    {
      for i := 0 to |work|
        invariant Valid() && client.pc == Between && client.todo == work[i..]
        invariant client.task == PublishClient.Upload(work, checkOnly, retryFailed)
        invariant Continues(old(events)) && saved == records
      {
        ghost var before := events;
        ghost var y, z, u := UploadOne(work[i], checkOnly, retryFailed);
        Further(old(events), before, events, true);
      }
      Advance(Local);
    }

    /** Where such a read leaves the process. */
    lemma VerifiedAndSaved(c: Client, key: string, rest: seq<string>, reply: Reply)
      requires c.pc == Verifying([key] + rest) && Replaceable(c.mem, key) && Refreshed(kb, reply, c.mem[key]).Ok?
      ensures var r := Refreshed(kb, reply, c.mem[key]).value;
              var read := Next(kb, c, Got(reply));
              var m := c.mem[key := r];
              && read.Some? && Next(kb, read.value, PublishClient.Save)
                 == Some(if r.parse == "completed"
                         then c.(disk := m, mem := m, reread := c.reread + {key}, pc := Verifying(rest))
                         else c.(disk := m, mem := m, pc := Refusing))
    {
      assert ([key] + rest)[1..] == rest;
    }

    /** A prune ends with a read that fails. */
    ghost method Abandon(key: string, e: Event, reply: Reply)
      requires Asking(e) && e in {Got(reply), GotSweep(key, reply)} && key in records
      requires Refreshed(kb, reply, records[key]).Err? && Next(kb, client, e) == Some(client.(pc := Off))
      modifies `client, `events, `trace, `sent
      ensures Valid() && client == old(client).(pc := Off) && Continues(old(events)) && Uninformed(key)
    {
      PublishKeys.ReadExactly(kb, records[key], reply);
      Advance(e);
    }

    /** Lines 268-273, for one desired key. */
    method VerifyOne(key: string, rest: seq<string>) returns (ok: bool)
      requires Valid() && client.pc == Verifying([key] + rest)
      modifies this, http
      ensures Valid() && client.task == old(client.task) && Continues(old(events))
      ensures client.pc == (if ok then Verifying(rest) else Off)
      ensures ok ==> key in client.reread && old(client.reread) <= client.reread && saved == records
      ensures records == old(records) || (key in records && records == old(records)[key := records[key]])
      ensures !ok ==> NotReady(records, key) || Uninformed(key)
    {
      assert ([key] + rest)[1..] == rest;
      if key !in records || records[key].id == "" || records[key].deleted {
        Advance(Local);
        return false;
      }
      ok := VerifyRead(key, rest);
    }

    /** Lines 271-273. */
    method VerifyRead(key: string, rest: seq<string>) returns (ok: bool)
      requires Valid() && client.pc == Verifying([key] + rest) && Replaceable(records, key)
      modifies this, http
      ensures Valid() && client.task == old(client.task) && Continues(old(events))
      ensures client.pc == (if ok then Verifying(rest) else Off)
      ensures ok ==> key in client.reread && old(client.reread) <= client.reread && saved == records
      ensures records == old(records) || (key in records && records == old(records)[key := records[key]])
      ensures !ok ==> NotReady(records, key) || Uninformed(key)
    {
      assert ([key] + rest)[1..] == rest;
      ghost var before := client;
      var failure, reply := Refresh(key, false);
      if failure.Some? {
        Abandon(key, Got(reply), reply);
        return false;
      }
      VerifiedAndSaved(before, key, rest, reply);
      if records[key].parse != "completed" {
        Advance(Local);
        return false;
      }
      return true;
    }

    /** Lines 267-273: true when every desired key has a completed replacement. */
    method VerifyDesired(desired: seq<string>) returns (ok: bool)
      requires Valid() && client.pc == Verifying(desired) && saved == records
      modifies this, http
      ensures Valid() && client.task == old(client.task) && Continues(old(events))
      ensures client.pc == (if ok then Verifying([]) else Off)
      ensures ok ==> saved == records
      ensures ok ==> forall k :: k in desired ==> k in client.reread
      ensures forall k :: k !in desired ==> PublishUploads.SameRecord(old(records), records, k)
      ensures !ok ==> exists k :: k in desired && (NotReady(records, k) || Uninformed(k))
    {
      for i := 0 to |desired|
        invariant Valid() && client.pc == Verifying(desired[i..]) && client.task == old(client.task)
        invariant Continues(old(events)) && saved == records
        invariant forall k :: k in desired[..i] ==> k in client.reread
        invariant forall k :: k !in desired ==> PublishUploads.SameRecord(old(records), records, k)
      {
        assert desired[i..] == [desired[i]] + desired[i + 1..];
        ghost var was := records;
        ok := VerifyOne(desired[i], desired[i + 1..]);
        assert forall k :: k !in desired ==> k != desired[i] && PublishUploads.SameRecord(was, records, k);
        if !ok { return; }
      }
      return true;
    }

    /** Line 277. */
    method SweepOne(key: string) returns (ok: bool)
      requires Valid() && client.pc.Sweeping? && key in client.pc.unread && key in records
      modifies this, http
      ensures Valid() && client.task == old(client.task) && Continues(old(events))
      ensures records.Keys == old(records.Keys)
      ensures ok ==> saved == records
      ensures client.pc
                == (if ok then Sweeping(old(client.pc.unread) - {key}, old(client.pc.candidates) + [key]) else Off)
      ensures !ok ==> Uninformed(key)
    {
      ghost var pc := client.pc;
      var failure, reply := Refresh(key, true);
      if failure.Some? {
        Abandon(key, GotSweep(key, reply), reply);
        return false;
      }
      assert client.pc == Sweeping(pc.unread - {key}, pc.candidates + [key]);
      return true;
    }

    /** Lines 274-278: the obsolete records, each re-read; None when a read fails. */
    method Candidates(desired: seq<string>) returns (found: Option<seq<string>>)
      requires Valid() && client.pc == Verifying([]) && client.task.Prune? && client.task.desired == desired
      requires saved == records
      modifies this, http
      ensures Valid() && client.task == old(client.task) && Continues(old(events))
      ensures records.Keys == old(records.Keys)
      ensures found.Some? ==> saved == records
      ensures found.None? ==> client.pc == Off && exists k :: Uninformed(k)
      ensures found.Some? ==>
                && client.pc == Sweeping({}, found.value)
                && forall k :: k in found.value <==> Obsolete(old(records), desired, k)
    {
      var left := set k | k in records && Obsolete(records, desired, k);
      var candidates: seq<string> := [];
      Advance(Local);
      while left != {}
        invariant Valid() && client.pc == Sweeping(left, candidates) && client.task == old(client.task)
        invariant Continues(old(events)) && records.Keys == old(records.Keys) && saved == records
        invariant forall k :: k in candidates || k in left <==> Obsolete(old(records), desired, k)
        decreases left
      {
        var key :| key in left;
        assert Obsolete(old(records), desired, key);
        var ok := SweepOne(key);
        if !ok { return None; }
        candidates := candidates + [key];
        left := left - {key};
      }
      return Some(candidates);
    }

    /** Line 282. */
    method AskRemoval(key: string, ghost rest: seq<string>) returns (reply: Reply)
      requires Valid() && client.pc == Retiring([key] + rest) && key in records
      modifies `client, `events, `trace, `sent, http
      ensures Valid() && client == old(client).(pc := Leaving([key] + rest)) && events == old(events) + [Delete]
      ensures http.requests == old(http.requests) + [Remove(records[key].id)]
    {
      reply := http.Send(Remove(records[key].id));
      Advance(Delete);
    }

    /** Lines 283-284. */
    method KeepRemoval(key: string, ghost rest: seq<string>, ghost reply: Reply)
      requires Valid() && client.pc == Leaving([key] + rest) && key in records && !reply.Broken?
      modifies `records, `saved, `client, `events, `trace, `sent
      ensures Valid() && client.pc == Retiring(rest) && saved == records
      ensures records == old(records)[key := old(records)[key].(deleted := true)]
      ensures events == old(events) + [Got(reply), PublishClient.Save]
    {
      assert ([key] + rest)[1..] == rest;
      records := records[key := records[key].(deleted := true)];
      Advance(Got(reply));
      Save();
    }

    /** Lines 282-285. */
    method RetireOne(key: string, ghost rest: seq<string>) returns (ok: bool)
      requires Valid() && client.pc == Retiring([key] + rest) && key in records
      modifies this, http
      ensures Valid() && Goes(old(events)) && client.pc == (if ok then Retiring(rest) else Off)
      ensures http.requests == old(http.requests) + [Remove(old(records)[key].id)]
      ensures records == (if ok then old(records)[key := old(records)[key].(deleted := true)] else old(records))
      ensures ok ==> saved == records
      ensures !ok ==> saved == old(saved) && Stopped()
    {
      var answer := AskRemoval(key, rest);
      if answer.Broken? {
        Advance(Got(answer));
        return false;
      }
      KeepRemoval(key, rest, answer);
      return true;
    }

    /** Lines 281-285: one deletion after the other, stopping at the first that is refused. */
    method Retire(candidates: seq<string>) returns (requested: nat)
      requires Valid() && client.pc == Retiring(candidates) && forall k :: k in candidates ==> k in records
      requires saved == records
      modifies this, http
      ensures Valid() && client.pc == Off && Goes(old(events))
      ensures requested <= |candidates|
      ensures forall i :: 0 <= i < requested ==> candidates[i] in saved && saved[candidates[i]].deleted
      ensures requested == |candidates| || Stopped()
    {
      requested := 0;
      while requested < |candidates|
        invariant requested <= |candidates|
        invariant Valid() && client.pc == Retiring(candidates[requested..]) && Goes(old(events))
        invariant saved == records
        invariant forall k :: k in candidates ==> k in records
        invariant forall i :: 0 <= i < requested ==> candidates[i] in records && records[candidates[i]].deleted
      {
        assert candidates[requested..] == [candidates[requested]] + candidates[requested + 1..];
        var ok := RetireOne(candidates[requested], candidates[requested + 1..]);
        if !ok { return; }
        requested := requested + 1;
      }
      Advance(Local);
    }

    /** Lines 266-278: None when prune gives up before choosing what to retire. */
    method Survey(desired: seq<string>, apply: bool) returns (candidates: Option<seq<string>>)
      requires Valid() && client.pc == Off && desired != [] && records == saved
      modifies this, http
      ensures Valid() && Continues(old(events) + [Begin(PublishClient.Prune(desired, apply))])
      ensures candidates.None? ==> client.pc == Off && GivesUp(desired)
      ensures candidates.Some? ==>
                && client.pc == Sweeping({}, candidates.value)
                && client.task == PublishClient.Prune(desired, apply) && saved == records
                && (forall k :: k in candidates.value ==> k in records)
                && forall k :: k in candidates.value <==> Superseded(old(records), desired, k)
    {
      ghost var reply;
      var ok;
      ok, reply := Admit(PublishClient.Prune(desired, apply));
      if !ok { return None; }
      ghost var begun := events;
      candidates := Choose(desired);
      Further(old(events) + [Begin(PublishClient.Prune(desired, apply))], begun, events, true);
    }

    /** Lines 267-278. */
    method Choose(desired: seq<string>) returns (candidates: Option<seq<string>>)
      requires Valid() && client.pc == Verifying(desired) && client.task.Prune? && client.task.desired == desired
      requires saved == records
      modifies this, http
      ensures Valid() && Continues(old(events)) && client.task == old(client.task)
      ensures candidates.None? ==> client.pc == Off && GivesUp(desired)
      ensures candidates.Some? ==>
                && client.pc == Sweeping({}, candidates.value) && saved == records
                && (forall k :: k in candidates.value ==> k in records)
                && forall k :: k in candidates.value <==> Superseded(old(records), desired, k)
    {
      var ok := VerifyDesired(desired);
      if !ok {
        ghost var k :| k in desired && (NotReady(records, k) || Uninformed(k));
        return None;
      }
      ghost var verified, before := events, records;
      candidates := Candidates(desired);
      Further(old(events), verified, events, true);
      assert forall k :: Obsolete(before, desired, k) ==> k in before;
      assert forall k :: k !in desired ==> PublishUploads.SameRecord(old(records), before, k);
      assert forall k :: Obsolete(before, desired, k) <==> Superseded(old(records), desired, k);
    }

    /** prune. `blocked`: the last preparation failed, is incomplete, or left an article with an error. */
    method Prune(desired: seq<string>, blocked: bool, apply: bool)
      returns (candidates: Option<seq<string>>, requested: nat)
      requires Valid() && client.pc == Off && records == saved
      modifies this, http
      ensures Valid() && client.pc == Off
      ensures blocked || desired == [] ==> unchanged(this) && unchanged(http) && candidates.None?
      ensures !(blocked || desired == []) ==> Goes(old(events) + [Begin(PublishClient.Prune(desired, apply))])
      ensures !(blocked || desired == []) && (!apply || candidates.None?) ==>
                Continues(old(events) + [Begin(PublishClient.Prune(desired, apply))])
      ensures !apply || candidates.None? ==> requested == 0
      ensures candidates.Some? ==> requested <= |candidates.value| && Retired(candidates.value[..requested])
      ensures candidates.Some? ==> forall k :: k in candidates.value <==> Superseded(old(records), desired, k)
      ensures candidates.Some? && apply ==> requested == |candidates.value| || Stopped()
      ensures !(blocked || desired == []) && candidates.None? ==> GivesUp(desired)
    {
      requested := 0;
      if blocked || desired == [] { return None, 0; }
      candidates := Survey(desired, apply);
      ghost var surveyed := events;
      if candidates.None? { return; }
      Advance(Local);
      if apply { requested := Retire(candidates.value); }
      assert surveyed <= events;
    }

    ghost predicate Retired(keys: seq<string>)
      reads this
    {
      forall i :: 0 <= i < |keys| ==> keys[i] in saved && saved[keys[i]].deleted
    }

    /** The last thing that happened is that a request failed. */
    ghost predicate Stopped()
      reads this
    {
      events != [] && events[|events| - 1].Got? && events[|events| - 1].reply.Broken?
    }

    /** The last answer was to a read of this document and does not say how far it is. */
    ghost predicate Uninformed(key: string)
      reads this
    {
      && events != [] && key in records
      && exists reply :: events[|events| - 1] in {Got(reply), GotSweep(key, reply)}
           && !PublishKeys.Informs(kb, records[key], reply)
    }

    /** A prune gives up for no other reason. */
    ghost predicate GivesUp(desired: seq<string>)
      reads this
    {
      || Stopped()
      || (exists k :: k in desired && NotReady(records, k))
      || exists k :: Uninformed(k)
    }

    /** The process went on from there, without dying. */
    ghost predicate Goes(before: seq<Event>)
      reads this
    {
      Extended(before, events, false)
    }

    /** And without deleting anything. */
    ghost predicate Continues(before: seq<Event>)
      reads this
    {
      Extended(before, events, true)
    }
  }

  /** An upload of this importer that the service is known to hold and that is no longer wanted. */
  predicate Superseded(records: map<string, Record>, desired: seq<string>, k: string) {
    k in records && records[k].owned && records[k].id != "" && !records[k].deleted && k !in desired
  }

  /** No completed document is known for the key. */
  predicate NotReady(records: map<string, Record>, k: string) {
    k !in records || records[k].id == "" || records[k].deleted || records[k].parse != "completed"
  }

  /** More events, none of which is a new command or a death nor, if `keep` says so, a deletion. */
  ghost predicate Extended(before: seq<Event>, now: seq<Event>, keep: bool) {
    before <= now && forall i :: |before| <= i < |now| ==>
      !now[i].Begin? && !now[i].Stop? && (keep ==> !now[i].Delete?)
  }

  /** Nothing but pages of the listing was asked for since. */
  ghost predicate Listed(before: seq<Request>, now: seq<Request>) {
    before <= now && PublishKeys.OnlyLists(now[|before|..])
  }

  lemma ListedFurther(a: seq<Request>, b: seq<Request>, c: seq<Request>)
    requires Listed(a, b) && Listed(b, c)
    ensures Listed(a, c)
  {
    assert c[|a|..] == b[|a|..] + c[|b|..];
  }

  /** No creation request since. */
  ghost predicate Unposted(before: seq<Event>, now: seq<Event>) {
    before <= now && forall i :: |before| <= i < |now| ==> !now[i].Post?
  }

  lemma UnpostedFurther(a: seq<Event>, b: seq<Event>, c: seq<Event>)
    requires Unposted(a, b) && Unposted(b, c)
    ensures Unposted(a, c)
  {
    assert forall i :: 0 <= i < |b| ==> b[i] == c[i];
  }

  lemma Further(a: seq<Event>, b: seq<Event>, c: seq<Event>, keep: bool)
    requires Extended(a, b, keep) && Extended(b, c, keep)
    ensures Extended(a, c, keep)
  {
    assert forall i :: 0 <= i < |a| ==> a[i] == b[i] == c[i];
  }

  lemma ListingFails(kb: string, c: Client, key: string, scan: Scan, reply: Reply, f: Failure)
    requires c.pc == Listing(key, scan) && key in c.mem && ScanPage(kb, c.mem[key], scan, reply) == Lost(f)
    ensures Next(kb, c, Got(reply)) == Some(Put(c, key, OnFailure(f, c.mem[key]), Closing(key)))
  {
  }

  lemma {:induction false} ErrorStays(kb: string, r: Record, scan: Scan, items: seq<Document>, n: nat)
    requires n <= |items| && ScanItems(kb, r, scan, items[..n]).Err?
    ensures ScanItems(kb, r, scan, items) == ScanItems(kb, r, scan, items[..n])
  {
    if n == |items| {
      assert items[..n] == items;
    } else {
      assert items[..|items| - 1][..n] == items[..n];
      ErrorStays(kb, r, scan, items[..|items| - 1], n);
    }
  }
}
