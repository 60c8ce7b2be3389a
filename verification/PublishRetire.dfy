/** Which documents the importer takes for its own, and which it may delete. */
module PublishRetire {
  import opened Basics
  import opened Names
  import opened Publish
  import opened PublishClient
  import opened PublishWorld

  /** A known id is of a document created for that key, and an owned record was confirmed by the answer to its
      creation request. */
  predicate RecordOk(s: Setting, made: map<string, string>, posted: set<(string, string)>, k: string, r: Record) {
    && Owner(s.installation, r.filename) == Some(k)
    && (r.id != "" ==> r.id in made && made[r.id] == k)
    && (r.owned ==> r.id != "" && (k, r.id) in posted)
  }

  ghost predicate Genuine(s: Setting, made: map<string, string>, posted: set<(string, string)>, m: map<string, Record>)
  {
    forall k :: k in m ==> RecordOk(s, made, posted, k, m[k])
  }

  lemma GenuineGrows(s: Setting, made: map<string, string>, posted: set<(string, string)>,
                     made': map<string, string>, posted': set<(string, string)>, m: map<string, Record>)
    requires Genuine(s, made, posted, m)
    requires forall i :: i in made ==> i in made' && made'[i] == made[i]
    requires posted <= posted'
    ensures Genuine(s, made', posted', m)
  {
    forall k | k in m
      ensures RecordOk(s, made', posted', k, m[k])
    {
      assert RecordOk(s, made, posted, k, m[k]);
    }
  }

  /** The process knows at least what the disk knows. */
  ghost predicate Remembers(c: Client) {
    forall k :: k in c.disk ==>
      && k in c.mem
      && (c.disk[k].id != "" ==> c.mem[k].id == c.disk[k].id)
      && (c.disk[k].deleted ==> c.mem[k].deleted)
  }

  ghost predicate Checked(c: Client, k: string) {
    k in c.reread && k in c.mem && c.mem[k].id != "" && !c.mem[k].deleted && c.mem[k].parse == "completed"
  }

  ghost predicate Distinct(keys: seq<string>) {
    forall i, j :: 0 <= i < j < |keys| ==> keys[i] != keys[j]
  }

  /** A prune that is past its first loop has checked every desired key, and its candidates are obsolete. */
  ghost predicate PruneOk(c: Client) {
    match c.pc
    case Verifying(left) => c.task.Prune? && VerifiedUpTo(c, left)
    case Verified(left) =>
      && c.task.Prune? && left != [] && left[0] in c.mem
      && c.mem[left[0]].id != "" && !c.mem[left[0]].deleted
      && (c.mem[left[0]].parse == "completed" ==> left[0] in c.reread)
      && forall k :: k in c.task.desired ==> k in left || Checked(c, k)
    case Sweeping(unread, candidates) => SweepOk(c, unread, candidates)
    case Swept(unread, candidates) => SweepOk(c, unread, candidates)
    case Retiring(candidates) => SweepOk(c, {}, candidates)
    case Leaving(candidates) => candidates != [] && SweepOk(c, {}, candidates)
    case Gone(candidates) => candidates != [] && SweepOk(c, {}, candidates[1..])
    case _ => true
  }

  ghost predicate VerifiedUpTo(c: Client, left: seq<string>)
    requires c.task.Prune?
  {
    forall k :: k in c.task.desired ==> k in left || Checked(c, k)
  }

  ghost predicate SweepOk(c: Client, unread: set<string>, candidates: seq<string>) {
    && c.task.Prune?
    && VerifiedUpTo(c, [])
    && Distinct(candidates)
    && (forall k :: k in unread ==> k !in candidates && Obsolete(c.mem, c.task.desired, k))
    && (forall k :: k in candidates ==> Obsolete(c.mem, c.task.desired, k))
  }

  ghost predicate ListedOk(w: World) {
    w.client.pc.Listing? ==>
      forall d :: d in w.client.pc.scan.matches ==> d.id in w.server.made && w.server.made[d.id] == w.client.pc.key
  }

  ghost predicate PostedOk(w: World) {
    forall k, i :: (k, i) in w.posted ==> i in w.server.made && w.server.made[i] == k
  }

  ghost predicate Inv(s: Setting, w: World) {
    && PcOk(s.kb, w.client)
    && Genuine(s, w.server.made, w.posted, w.client.disk)
    && Genuine(s, w.server.made, w.posted, w.client.mem)
    && (!w.client.pc.Off? ==> Remembers(w.client))
    && WellNamed(s, w.client.todo)
    && ListedOk(w) && PostedOk(w)
    && PruneOk(w.client)
  }

  // ---- Only one record changes at a time, and it stays genuine ----

  /** The key of the record a client step may change. */
  function Touched(c: Client, e: Event): string {
    match e
    case GotSweep(k, _) => k
    case Local => if c.pc.Between? && c.todo != [] then c.todo[0].key else ""
    case Got(_) =>
      if c.pc.Verifying? && c.pc.left != [] then c.pc.left[0]
      else if c.pc.Leaving? && c.pc.candidates != [] then c.pc.candidates[0]
      else if c.pc.Awaiting? || c.pc.Reading? || c.pc.Reparsing? || c.pc.Listing? then c.pc.key
      else ""
    case _ => ""
  }

  /** `m'` is `m` but for `k`, whose id and retirement are never undone. */
  predicate Extends(m: map<string, Record>, m': map<string, Record>, k: string) {
    && (forall j :: j in m ==> j in m' && (j == k || m'[j] == m[j]))
    && (forall j :: j in m' ==> j in m || j == k)
    && (k in m ==> (m[k].id != "" ==> m'[k].id == m[k].id) && (m[k].deleted ==> m'[k].deleted))
  }

  lemma FrameGot(kb: string, c: Client, reply: Reply)
    requires PcOk(kb, c) && Next(kb, c, Got(reply)).Some?
    ensures var d := Next(kb, c, Got(reply)).value;
            d.disk == c.disk && d.todo == c.todo && Extends(c.mem, d.mem, Touched(c, Got(reply)))
  {
    if c.pc.Awaiting? || c.pc.Listing? || c.pc.Reading? || c.pc.Reparsing? {
      FrameUpload(kb, c, reply);
    } else {
      FramePrune(kb, c, reply);
    }
  }

  lemma FrameUpload(kb: string, c: Client, reply: Reply)
    requires PcOk(kb, c) && Next(kb, c, Got(reply)).Some?
    requires c.pc.Awaiting? || c.pc.Listing? || c.pc.Reading? || c.pc.Reparsing?
    ensures var d := Next(kb, c, Got(reply)).value;
            d.disk == c.disk && d.todo == c.todo && Extends(c.mem, d.mem, c.pc.key)
  {
  }

  lemma FramePrune(kb: string, c: Client, reply: Reply)
    requires Next(kb, c, Got(reply)).Some?
    requires !c.pc.Awaiting? && !c.pc.Listing? && !c.pc.Reading? && !c.pc.Reparsing?
    ensures var d := Next(kb, c, Got(reply)).value;
            d.disk == c.disk && d.todo == c.todo && Extends(c.mem, d.mem, Touched(c, Got(reply)))
  {
  }

  lemma FrameRest(kb: string, c: Client, e: Event)
    requires PcOk(kb, c) && Next(kb, c, e).Some? && !e.Begin? && !e.Save? && !e.Got?
    ensures var d := Next(kb, c, e).value;
            d.disk == c.disk && Extends(c.mem, d.mem, Touched(c, e))
  {
    if e.Local? { FrameLocal(c); }
  }

  lemma FrameLocal(c: Client)
    requires NextLocal(c).Some?
    ensures var d := NextLocal(c).value; d.disk == c.disk && Extends(c.mem, d.mem, Touched(c, Local))
  {
  }

  /** `m'[k]` is the record `m[k]` as far as its document is concerned. */
  predicate SameDocument(m: map<string, Record>, m': map<string, Record>, k: string) {
    k in m && k in m' ==> m'[k].filename == m[k].filename && m'[k].id == m[k].id && m'[k].owned == m[k].owned
  }

  /** Only the answer to the creation request and the listing scan give a record an id or an owner. */
  lemma KeepsIdentity(kb: string, c: Client, e: Event)
    requires PcOk(kb, c) && Next(kb, c, e).Some? && !e.Begin? && !e.Save?
    requires e.Got? ==> !c.pc.Awaiting? && !c.pc.Listing?
    ensures var k, m' := Touched(c, e), Next(kb, c, e).value.mem;
            && SameDocument(c.mem, m', k)
            && (k in m' && k !in c.mem ==>
                  && e.Local? && c.pc.Between? && c.todo != [] && c.todo[0].key == k
                  && m'[k].filename == c.todo[0].item.filename && m'[k].id == "" && !m'[k].owned)
  {
    match e
    case Got(reply) => KeepsGot(kb, c, reply);
    case Local => KeepsLocal(kb, c);
    case _ =>
  }

  lemma KeepsGot(kb: string, c: Client, reply: Reply)
    requires PcOk(kb, c) && Next(kb, c, Got(reply)).Some? && !c.pc.Awaiting? && !c.pc.Listing?
    ensures var k, m' := Touched(c, Got(reply)), Next(kb, c, Got(reply)).value.mem;
            SameDocument(c.mem, m', k) && (k in m' ==> k in c.mem)
  {
  }

  lemma KeepsLocal(kb: string, c: Client)
    requires Next(kb, c, Local).Some?
    ensures var k, m' := Touched(c, Local), Next(kb, c, Local).value.mem;
            && SameDocument(c.mem, m', k)
            && (k in m' && k !in c.mem ==>
                  && c.pc.Between? && c.todo != [] && c.todo[0].key == k
                  && m'[k].filename == c.todo[0].item.filename && m'[k].id == "" && !m'[k].owned)
  {
  }

  /** The parts of a client step. */
  lemma DoStep(s: Setting, w: World, e: Event, t: string)
    requires Step(s, w, Do(e, t)).Some?
    ensures Next(s.kb, w.client, e).Some? && ServerStep(s, w, e, t).Some?
    ensures var v := Step(s, w, Do(e, t)).value;
            && v.client == Next(s.kb, w.client, e).value
            && v.server.made == w.server.made
            && v.posted == w.posted + Confirmed(s, w.client, e)
  {
  }

  lemma AnswerGenuine(s: Setting, w: World, reply: Reply, t: string)
    requires PcOk(s.kb, w.client) && w.client.pc.Awaiting?
    requires RecordOk(s, w.server.made, w.posted, w.client.pc.key, w.client.mem[w.client.pc.key])
    requires Next(s.kb, w.client, Got(reply)).Some? && Answered(s, w.server, w.client.pc, reply, t).Some?
    ensures RecordOk(s, w.server.made, w.posted + Confirmed(s, w.client, Got(reply)), w.client.pc.key,
                     Next(s.kb, w.client, Got(reply)).value.mem[w.client.pc.key])
  {
    var k, posted := w.client.pc.key, w.posted + Confirmed(s, w.client, Got(reply));
    var r := w.client.mem[k];
    var r' := Next(s.kb, w.client, Got(reply)).value.mem[k];
    match Validated(s.kb, reply, r)
    case Ok(d) =>
      assert r' == Uploaded(d, r) && (k, d.id) in posted;
      assert Truthful(s, w.server, d);
    case Err(f) =>
      assert r' == OnFailure(f, r);
  }

  lemma ListingGenuine(s: Setting, w: World, items: seq<Document>)
    requires PcOk(s.kb, w.client) && w.client.pc.Listing? && ListedOk(w)
    requires Owner(s.installation, w.client.mem[w.client.pc.key].filename) == Some(w.client.pc.key)
    requires forall i :: 0 <= i < |items| ==> Truthful(s, w.server, items[i])
    ensures var k := w.client.pc.key;
            var v := ScanPage(s.kb, w.client.mem[k], w.client.pc.scan, Page(items));
            && (v.Bound? ==> v.doc.id != "" && v.doc.id in w.server.made && w.server.made[v.doc.id] == k)
            && (v.More? ==> forall d :: d in v.scan.matches ==> d.id in w.server.made && w.server.made[d.id] == k)
  {
    var k := w.client.pc.key;
    var r, scan := w.client.mem[k], w.client.pc.scan;
    ScanKeeps(s.kb, r, scan, items);
    var after := ScanItems(s.kb, r, scan, items);
    if after.Ok? {
      forall d | d in after.value.matches
        ensures d.id in w.server.made && w.server.made[d.id] == k
      {
        var i :| 0 <= i < |after.value.matches| && after.value.matches[i] == d;
        assert ValidDocument(s.kb, d, r);
        if d !in scan.matches {
          var j :| 0 <= j < |items| && items[j] == d;
          assert Truthful(s, w.server, d);
        }
      }
    }
  }

  /** The record a client step changes is genuine afterwards. */
  ghost predicate StaysGenuine(s: Setting, w: World, e: Event)
    requires Next(s.kb, w.client, e).Some?
  {
    var m', k := Next(s.kb, w.client, e).value.mem, Touched(w.client, e);
    k in m' ==> RecordOk(s, w.server.made, w.posted + Confirmed(s, w.client, e), k, m'[k])
  }

  lemma TouchedGenuine(s: Setting, w: World, e: Event, t: string)
    requires PcOk(s.kb, w.client) && Genuine(s, w.server.made, w.posted, w.client.mem) && ListedOk(w)
    requires WellNamed(s, w.client.todo)
    requires Next(s.kb, w.client, e).Some? && ServerStep(s, w, e, t).Some? && !e.Begin? && !e.Save?
    ensures StaysGenuine(s, w, e)
  {
    if e.Got? && w.client.pc.Awaiting? {
      GenuineAnswer(s, w, e.reply, t);
    } else if e.Got? && w.client.pc.Listing? {
      GenuineListing(s, w, e.reply, t);
    } else {
      GenuineRest(s, w, e);
    }
  }

  lemma GenuineAnswer(s: Setting, w: World, reply: Reply, t: string)
    requires PcOk(s.kb, w.client) && Genuine(s, w.server.made, w.posted, w.client.mem) && w.client.pc.Awaiting?
    requires Next(s.kb, w.client, Got(reply)).Some? && Answered(s, w.server, w.client.pc, reply, t).Some?
    ensures StaysGenuine(s, w, Got(reply))
  {
    KnownGenuine(s, w, w.client.pc.key);
    AnswerGenuine(s, w, reply, t);
    OwnStays(s, w, reply, Next(s.kb, w.client, Got(reply)).value.mem[w.client.pc.key]);
  }

  lemma GenuineListing(s: Setting, w: World, reply: Reply, t: string)
    requires PcOk(s.kb, w.client) && Genuine(s, w.server.made, w.posted, w.client.mem) && ListedOk(w)
    requires w.client.pc.Listing?
    requires Next(s.kb, w.client, Got(reply)).Some? && Answered(s, w.server, w.client.pc, reply, t).Some?
    ensures StaysGenuine(s, w, Got(reply))
  {
    PageIsOwn(s, w, reply, t);
    OwnPageStays(s, w, reply);
  }

  /** What a page binds the record to is a document created for it. */
  ghost predicate BindsOwn(s: Setting, w: World, reply: Reply)
    requires w.client.pc.Listing? && w.client.pc.key in w.client.mem
  {
    var k := w.client.pc.key;
    var v := ScanPage(s.kb, w.client.mem[k], w.client.pc.scan, reply);
    v.Bound? ==> v.doc.id != "" && v.doc.id in w.server.made && w.server.made[v.doc.id] == k
  }

  lemma PageIsOwn(s: Setting, w: World, reply: Reply, t: string)
    requires PcOk(s.kb, w.client) && Genuine(s, w.server.made, w.posted, w.client.mem) && ListedOk(w)
    requires w.client.pc.Listing? && Answered(s, w.server, w.client.pc, reply, t).Some?
    ensures BindsOwn(s, w, reply)
  {
    KnownGenuine(s, w, w.client.pc.key);
    if reply.Page? { ListingGenuine(s, w, reply.items); }
  }

  lemma OwnPageStays(s: Setting, w: World, reply: Reply)
    requires PcOk(s.kb, w.client) && Genuine(s, w.server.made, w.posted, w.client.mem) && w.client.pc.Listing?
    requires Next(s.kb, w.client, Got(reply)).Some? && BindsOwn(s, w, reply)
    ensures StaysGenuine(s, w, Got(reply))
  {
    var k := w.client.pc.key;
    var r' := Next(s.kb, w.client, Got(reply)).value.mem[k];
    KnownGenuine(s, w, k);
    RecordGrows(s, w.server.made, w.posted, Confirmed(s, w.client, Got(reply)), k, w.client.mem[k]);
    OwnStays(s, w, reply, r');
  }

  lemma KnownGenuine(s: Setting, w: World, k: string)
    requires Genuine(s, w.server.made, w.posted, w.client.mem) && k in w.client.mem
    ensures RecordOk(s, w.server.made, w.posted, k, w.client.mem[k])
  {
  }

  lemma OwnStays(s: Setting, w: World, reply: Reply, r': Record)
    requires w.client.pc.Listing? || w.client.pc.Awaiting?
    requires Next(s.kb, w.client, Got(reply)).Some?
    requires w.client.pc.key in Next(s.kb, w.client, Got(reply)).value.mem
    requires r' == Next(s.kb, w.client, Got(reply)).value.mem[w.client.pc.key]
    requires RecordOk(s, w.server.made, w.posted + Confirmed(s, w.client, Got(reply)), w.client.pc.key, r')
    ensures StaysGenuine(s, w, Got(reply))
  {
    assert Touched(w.client, Got(reply)) == w.client.pc.key;
  }

  lemma GenuineRest(s: Setting, w: World, e: Event)
    requires PcOk(s.kb, w.client) && Genuine(s, w.server.made, w.posted, w.client.mem)
    requires WellNamed(s, w.client.todo) && Next(s.kb, w.client, e).Some? && !e.Begin? && !e.Save?
    requires e.Got? ==> !w.client.pc.Awaiting? && !w.client.pc.Listing?
    ensures StaysGenuine(s, w, e)
  {
    var k, m' := Touched(w.client, e), Next(s.kb, w.client, e).value.mem;
    OtherwiseGenuine(s, w, e);
    if k in m' { RecordGrows(s, w.server.made, w.posted, Confirmed(s, w.client, e), k, m'[k]); }
  }

  lemma RecordGrows(s: Setting, made: map<string, string>, posted: set<(string, string)>, more: set<(string, string)>,
                    k: string, r: Record)
    requires RecordOk(s, made, posted, k, r)
    ensures RecordOk(s, made, posted + more, k, r)
  {
  }

  lemma OtherwiseGenuine(s: Setting, w: World, e: Event)
    requires PcOk(s.kb, w.client) && Genuine(s, w.server.made, w.posted, w.client.mem)
    requires WellNamed(s, w.client.todo) && Next(s.kb, w.client, e).Some? && !e.Begin? && !e.Save?
    requires e.Got? ==> !w.client.pc.Awaiting? && !w.client.pc.Listing?
    ensures var m', k := Next(s.kb, w.client, e).value.mem, Touched(w.client, e);
            k in m' ==> RecordOk(s, w.server.made, w.posted, k, m'[k])
  {
    var k := Touched(w.client, e);
    KeepsIdentity(s.kb, w.client, e);
    if k in w.client.mem {
      assert RecordOk(s, w.server.made, w.posted, k, w.client.mem[k]);
    }
  }

  lemma ExtendsGenuine(s: Setting, made: map<string, string>, posted: set<(string, string)>,
                       m: map<string, Record>, m': map<string, Record>, k: string)
    requires Genuine(s, made, posted, m) && Extends(m, m', k)
    requires k in m' ==> RecordOk(s, made, posted, k, m'[k])
    ensures Genuine(s, made, posted, m')
  {
    forall j | j in m'
      ensures RecordOk(s, made, posted, j, m'[j])
    {
      if j in m { assert RecordOk(s, made, posted, j, m[j]); }
    }
  }

  lemma RecordsKept(s: Setting, w: World, e: Event, t: string)
    requires Inv(s, w) && Step(s, w, Do(e, t)).Some? && !e.Begin? && !e.Save?
    ensures var v := Step(s, w, Do(e, t)).value;
            && Genuine(s, v.server.made, v.posted, v.client.disk)
            && Genuine(s, v.server.made, v.posted, v.client.mem)
            && (!v.client.pc.Off? ==> Remembers(v.client))
  {
    var v, c := Step(s, w, Do(e, t)).value, w.client;
    DoStep(s, w, e, t);
    GenuineGrows(s, w.server.made, w.posted, v.server.made, v.posted, c.disk);
    GenuineGrows(s, w.server.made, w.posted, v.server.made, v.posted, c.mem);
    if e.Got? {
      FrameGot(s.kb, c, e.reply);
    } else {
      FrameRest(s.kb, c, e);
    }
    TouchedGenuine(s, w, e, t);
    ExtendsGenuine(s, v.server.made, v.posted, c.mem, v.client.mem, Touched(c, e));
    if c.pc.Off? { OffStays(s.kb, c, e); }
    ExtendsRemembers(c, v.client, Touched(c, e));
  }

  lemma OffStays(kb: string, c: Client, e: Event)
    requires Next(kb, c, e).Some? && !e.Begin? && c.pc.Off?
    ensures Next(kb, c, e).value.pc.Off?
  {
  }

  lemma ExtendsRemembers(c: Client, d: Client, k: string)
    requires !c.pc.Off? ==> Remembers(c)
    requires d.disk == c.disk && Extends(c.mem, d.mem, k) && (c.pc.Off? ==> d.pc.Off?)
    ensures !d.pc.Off? ==> Remembers(d)
  {
  }

  // ---- Prune ----

  lemma PruneStep(kb: string, c: Client, e: Event)
    requires PruneOk(c) && Next(kb, c, e).Some?
    ensures PruneOk(Next(kb, c, e).value)
  {
    if e.Got? && c.pc.Leaving? {
      PruneLeaves(kb, c, e.reply);
    } else if e.Got? && c.pc.Verifying? {
      PruneVerifies(kb, c, e.reply);
    } else if e.GotSweep? {
      PruneSweeps(kb, c, e.key, e.reply);
    } else if e.Save? || e.Local? {
      PruneMoves(kb, c, e);
    } else {
    }
  }

  lemma PruneLeaves(kb: string, c: Client, reply: Reply)
    requires PruneOk(c) && c.pc.Leaving? && Next(kb, c, Got(reply)).Some?
    ensures PruneOk(Next(kb, c, Got(reply)).value)
  {
    var d, k := Next(kb, c, Got(reply)).value, c.pc.candidates[0];
    assert Obsolete(c.mem, c.task.desired, k);
    if d.pc.Gone? {
      forall j | j in c.task.desired
        ensures Checked(d, j)
      {
        assert Checked(c, j) && j != k;
      }
      forall j | j in c.pc.candidates[1..]
        ensures Obsolete(d.mem, d.task.desired, j)
      {
        assert Obsolete(c.mem, c.task.desired, j) && j != k;
      }
    }
  }

  lemma PruneVerifies(kb: string, c: Client, reply: Reply)
    requires PruneOk(c) && c.pc.Verifying? && Next(kb, c, Got(reply)).Some?
    ensures PruneOk(Next(kb, c, Got(reply)).value)
  {
    var d := Next(kb, c, Got(reply)).value;
    if d.pc.Verified? {
      forall j | j in c.task.desired && j !in c.pc.left
        ensures Checked(d, j)
      {
        assert Checked(c, j);
      }
    }
  }

  lemma PruneSweeps(kb: string, c: Client, k: string, reply: Reply)
    requires PruneOk(c) && Next(kb, c, GotSweep(k, reply)).Some?
    ensures PruneOk(Next(kb, c, GotSweep(k, reply)).value)
  {
    var d := Next(kb, c, GotSweep(k, reply)).value;
    assert Obsolete(c.mem, c.task.desired, k);
    if d.pc.Swept? {
      forall j | j in c.task.desired
        ensures Checked(d, j)
      {
        assert Checked(c, j) && j != k;
      }
      forall j | j in c.pc.unread || j in c.pc.candidates
        ensures Obsolete(d.mem, d.task.desired, j)
      {
        assert Obsolete(c.mem, c.task.desired, j);
      }
    }
  }

  lemma PruneMoves(kb: string, c: Client, e: Event)
    requires PruneOk(c) && Next(kb, c, e).Some? && (e.Save? || e.Local?)
    ensures PruneOk(Next(kb, c, e).value)
  {
    var d := Next(kb, c, e).value;
    if c.pc.Verified? && d.pc.Verifying? {
      forall j | j in c.task.desired && j !in d.pc.left
        ensures Checked(d, j)
      {
        if j == c.pc.left[0] { assert Checked(d, j); } else { assert Checked(c, j); }
      }
    } else if c.pc.Verifying? && d.pc.Sweeping? {
      assert forall j :: j in c.task.desired ==> Checked(c, j);
    }
  }

  lemma ReportsKept(s: Setting, w: World, e: Event, t: string)
    requires Inv(s, w) && Step(s, w, Do(e, t)).Some?
    ensures ListedOk(Step(s, w, Do(e, t)).value) && PostedOk(Step(s, w, Do(e, t)).value)
  {
    DoStep(s, w, e, t);
    ListedKept(s, w, e, t);
    if Confirmed(s, w.client, e) != {} {
      ConfirmedMade(s, w, e, t);
    }
  }

  /** A confirmed id is of a document created for the key. */
  lemma ConfirmedMade(s: Setting, w: World, e: Event, t: string)
    requires PcOk(s.kb, w.client) && Genuine(s, w.server.made, w.posted, w.client.mem)
    requires Confirmed(s, w.client, e) != {} && ServerStep(s, w, e, t).Some?
    ensures forall k, i :: (k, i) in Confirmed(s, w.client, e) ==> i in w.server.made && w.server.made[i] == k
  {
    var k := w.client.pc.key;
    KnownGenuine(s, w, k);
    var d := Validated(s.kb, e.reply, w.client.mem[k]).value;
    OwnMade(s, w.server, w.posted, k, w.client.mem[k], d);
  }

  lemma OwnMade(s: Setting, server: Server, posted: set<(string, string)>, k: string, r: Record, d: Document)
    requires RecordOk(s, server.made, posted, k, r) && d.name == r.filename && Truthful(s, server, d)
    ensures d.id in server.made && server.made[d.id] == k
  {
  }

  lemma ListedKept(s: Setting, w: World, e: Event, t: string)
    requires PcOk(s.kb, w.client) && ListedOk(w) && Genuine(s, w.server.made, w.posted, w.client.mem)
    requires Next(s.kb, w.client, e).Some? && ServerStep(s, w, e, t).Some?
    ensures var d := Next(s.kb, w.client, e).value;
            d.pc.Listing? ==>
              forall x :: x in d.pc.scan.matches ==> x.id in w.server.made && w.server.made[x.id] == d.pc.key
  {
    var d := Next(s.kb, w.client, e).value;
    if d.pc.Listing? {
      EntersListing(s.kb, w.client, e);
      if d.pc.scan.matches != [] {
        var k := w.client.pc.key;
        assert RecordOk(s, w.server.made, w.posted, k, w.client.mem[k]);
        ListingGenuine(s, w, e.reply.items);
      }
    }
  }

  lemma EntersListing(kb: string, c: Client, e: Event)
    requires PcOk(kb, c) && Next(kb, c, e).Some? && Next(kb, c, e).value.pc.Listing?
    ensures var pc := Next(kb, c, e).value.pc;
            pc.scan.matches == []
            || (e.Got? && e.reply.Page? && c.pc.Listing? && c.pc.key == pc.key
                && ScanPage(kb, c.mem[pc.key], c.pc.scan, e.reply) == More(pc.scan))
  {
  }

  lemma InvStep(s: Setting, w: World, l: Label)
    requires Inv(s, w) && Step(s, w, l).Some?
    ensures Inv(s, Step(s, w, l).value)
  {
    var v := Step(s, w, l).value;
    if l.Do? {
      DoStep(s, w, l.event, l.ticket);
      PcOkNext(s.kb, w.client, l.event);
      PruneStep(s.kb, w.client, l.event);
      ReportsKept(s, w, l.event, l.ticket);
      if l.event.Begin? || l.event.Save? {
        StartOrSave(s, w, l.event, l.ticket);
      } else {
        RecordsKept(s, w, l.event, l.ticket);
        TodoKept(s, w.client, l.event);
      }
    } else {
      GenuineGrows(s, w.server.made, w.posted, v.server.made, v.posted, w.client.disk);
      GenuineGrows(s, w.server.made, w.posted, v.server.made, v.posted, w.client.mem);
    }
  }

  lemma LocalTodo(c: Client)
    requires NextLocal(c).Some?
    ensures NextLocal(c).value.todo == c.todo || (c.todo != [] && NextLocal(c).value.todo == c.todo[1..])
  {
  }

  lemma SaveTodo(c: Client)
    requires NextSave(c).Some?
    ensures NextSave(c).value.todo == c.todo
  {
  }

  lemma GotTodo(kb: string, c: Client, reply: Reply)
    requires NextGot(kb, c, reply).Some?
    ensures NextGot(kb, c, reply).value.todo == c.todo
  {
  }

  lemma TodoKept(s: Setting, c: Client, e: Event)
    requires WellNamed(s, c.todo) && Next(s.kb, c, e).Some? && !e.Begin?
    ensures WellNamed(s, Next(s.kb, c, e).value.todo)
  {
    match e {
      case Local => LocalTodo(c);
      case Save => SaveTodo(c);
      case Got(reply) => GotTodo(s.kb, c, reply);
      case _ =>
    }
  }

  lemma StartOrSave(s: Setting, w: World, e: Event, t: string)
    requires Inv(s, w) && Next(s.kb, w.client, e).Some? && ServerStep(s, w, e, t).Some? && (e.Begin? || e.Save?)
    ensures var d := Next(s.kb, w.client, e).value;
            && (d.disk == w.client.disk || d.disk == w.client.mem)
            && (d.mem == w.client.disk || d.mem == w.client.mem)
            && Remembers(d) && WellNamed(s, d.todo) && Confirmed(s, w.client, e) == {}
  {
    if e.Save? {
      Saves(s.kb, w.client);
    }
  }

  lemma Saves(kb: string, c: Client)
    requires Next(kb, c, Save).Some?
    ensures var d := Next(kb, c, Save).value; d.disk == c.mem && d.mem == c.mem && d.todo == c.todo
  {
  }

  // ---- Main results ----

  lemma {:induction false} InvRun(s: Setting, w: World, labels: seq<Label>)
    requires Inv(s, w) && Run(s, w, labels).Some?
    ensures Inv(s, Run(s, w, labels).value)
    decreases |labels|
  {
    if labels != [] {
      InvStep(s, w, labels[0]);
      InvRun(s, Step(s, w, labels[0]).value, labels[1..]);
    }
  }

  ghost predicate Reachable(s: Setting, w: World) {
    exists labels :: Run(s, CREATION, labels) == Some(w)
  }

  lemma ReachableInv(s: Setting, w: World)
    requires Reachable(s, w)
    ensures Inv(s, w)
  {
    var labels :| Run(s, CREATION, labels) == Some(w);
    InvRun(s, CREATION, labels);
  }

  /** In no run do two content keys hold the same remote id. */
  lemma DistinctIds(s: Setting, w: World, a: string, b: string)
    requires Reachable(s, w) && a != b && a in w.client.disk && b in w.client.disk
    requires w.client.disk[a].id != ""
    ensures w.client.disk[a].id != w.client.disk[b].id
  {
    ReachableInv(s, w);
    assert RecordOk(s, w.server.made, w.posted, a, w.client.disk[a]);
    assert RecordOk(s, w.server.made, w.posted, b, w.client.disk[b]);
  }

  /** Every deletion request is for a document that the answer to a creation request of this installation
      confirmed, that belongs to no desired key, and is sent only by a process that has read every desired
      key's document as completed. */
  lemma DeletesGuarded(s: Setting, w: World, t: string)
    requires Reachable(s, w) && Step(s, w, Do(Delete, t)).Some?
    ensures w.client.pc.Retiring? && w.client.pc.candidates != [] && w.client.task.Prune?
    ensures var k := w.client.pc.candidates[0];
            && k in w.client.mem && k !in w.client.task.desired
            && (k, w.client.mem[k].id) in w.posted
            && w.client.mem[k].id in w.server.made && w.server.made[w.client.mem[k].id] == k
            && forall d :: d in w.client.task.desired ==>
                 Checked(w.client, d) && w.client.mem[d].id != w.client.mem[k].id
  {
    ReachableInv(s, w);
    DoStep(s, w, Delete, t);
    var k := w.client.pc.candidates[0];
    assert Obsolete(w.client.mem, w.client.task.desired, k);
    assert RecordOk(s, w.server.made, w.posted, k, w.client.mem[k]);
    forall d | d in w.client.task.desired
      ensures Checked(w.client, d) && w.client.mem[d].id != w.client.mem[k].id
    {
      assert Checked(w.client, d);
      assert RecordOk(s, w.server.made, w.posted, d, w.client.mem[d]);
    }
  }

  /** A key counts as read only after its own document was read as completed by this very process. */
  lemma RereadMeansRead(s: Setting, w: World, l: Label, k: string)
    requires Step(s, w, l).Some? && k in Step(s, w, l).value.client.reread
    ensures (k in w.client.reread && !(l.Do? && l.event.Begin?))
         || (&& l.Do? && l.event.Got? && l.event.reply.Found?
             && w.client.pc.Verifying? && w.client.pc.left != [] && w.client.pc.left[0] == k && k in w.client.mem
             && l.event.reply.doc.id == w.client.mem[k].id
             && l.event.reply.doc.name == w.client.mem[k].filename
             && l.event.reply.doc.status == Some("completed"))
  {
    if l.Do? {
      DoStep(s, w, l.event, l.ticket);
      RereadGrows(s.kb, w.client, l.event, k);
    }
  }

  lemma RereadGrows(kb: string, c: Client, e: Event, k: string)
    requires Next(kb, c, e).Some? && k in Next(kb, c, e).value.reread
    ensures (k in c.reread && !e.Begin?)
         || (&& e.Got? && c.pc.Verifying? && c.pc.left != [] && c.pc.left[0] == k && k in c.mem
             && Refreshed(kb, e.reply, c.mem[k]).Ok? && Refreshed(kb, e.reply, c.mem[k]).value.parse == "completed"
             && c.mem[k].id != "")
  {
    match e {
      case Local =>
        if c.pc.Between? && c.todo != [] { TakeReread(c); }
      case _ =>
    }
  }

  lemma TakeReread(c: Client)
    requires c.todo != []
    ensures Take(c).reread == c.reread
  {
  }

  /** Content whose document was retired is never uploaded again. */
  lemma {:induction false} RetiredForever(s: Setting, w: World, labels: seq<Label>, k: string)
    requires Inv(s, w) && k in w.client.disk && w.client.disk[k].deleted
    requires Run(s, w, labels).Some?
    ensures var v := Run(s, w, labels).value.client;
            k in v.disk && v.disk[k].deleted && v.pc != Posting(k)
    decreases |labels|
  {
    if labels != [] {
      var v := Step(s, w, labels[0]).value;
      InvStep(s, w, labels[0]);
      if labels[0].Do? {
        DoStep(s, w, labels[0].event, labels[0].ticket);
        DiskKeeps(s.kb, w.client, labels[0].event, k);
      }
      RetiredForever(s, v, labels[1..], k);
    }
  }

  lemma DiskKeeps(kb: string, c: Client, e: Event, k: string)
    requires Next(kb, c, e).Some? && (!c.pc.Off? ==> Remembers(c))
    requires k in c.disk && c.disk[k].deleted
    ensures var d := Next(kb, c, e).value; k in d.disk && d.disk[k].deleted
  {
  }
}
