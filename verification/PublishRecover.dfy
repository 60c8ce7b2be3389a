/** publish.py, the run after an interrupted upload: it scans every page of the listing and binds the record to the
    document that the lost answer would have named. */
module PublishRecover {
  import opened Basics
  import opened Publish
  import opened PublishClient

  /** The client after it has read a listing that does not change meanwhile, page by page. */
  function AfterPages(kb: string, c: Client, listing: seq<Document>): Option<Client>
    requires c.pc.Listing?
    decreases |listing|
  {
    var items := if |listing| < PAGE_SIZE then listing else listing[..PAGE_SIZE];
    var next := Next(kb, c, Got(Page(items)));
    if next.None? || !next.value.pc.Listing? then next
    else if items == [] then None
    else AfterPages(kb, next.value, listing[|items|..])
  }

  /** The pages lead the client exactly where the scan of the whole listing says. */
  lemma {:induction false} PagesLead(kb: string, c: Client, listing: seq<Document>)
    requires c.pc.Listing? && c.pc.key in c.mem
    ensures var k, v := c.pc.key, ScanListing(kb, c.mem[c.pc.key], c.pc.scan, listing);
            && !v.More?
            && AfterPages(kb, c, listing)
            == Some(if v.Bound? then Put(c, k, Reconciled(v.doc, c.mem[k]), Rebound(k))
                    else Put(c, k, OnFailure(v.failure, c.mem[k]), Closing(k)))
    decreases |listing|
  {
    var items := if |listing| < PAGE_SIZE then listing else listing[..PAGE_SIZE];
    PageLeads(kb, c, items);
    var v := ScanPage(kb, c.mem[c.pc.key], c.pc.scan, Page(items));
    if v.More? {
      var next := c.(pc := Listing(c.pc.key, v.scan));
      PagesLead(kb, next, listing[|items|..]);
    }
  }

  lemma PageLeads(kb: string, c: Client, items: seq<Document>)
    requires c.pc.Listing? && c.pc.key in c.mem
    ensures var k, v := c.pc.key, ScanPage(kb, c.mem[c.pc.key], c.pc.scan, Page(items));
            && (v.More? ==> |items| >= PAGE_SIZE)
            && Next(kb, c, Got(Page(items)))
            == Some(if v.More? then c.(pc := Listing(k, v.scan))
                    else if v.Bound? then Put(c, k, Reconciled(v.doc, c.mem[k]), Rebound(k))
                    else Put(c, k, OnFailure(v.failure, c.mem[k]), Closing(k)))
  {
  }

  /** The next key of a run is one whose upload was interrupted. */
  predicate Interrupted(c: Client) {
    && c.pc == Between && c.todo != [] && c.todo[0].key in c.mem
    && var r := c.mem[c.todo[0].key]; r.attempted && r.id == "" && !r.deleted
  }

  /** A stable listing of fewer than a million documents shows the document of the record, and only it under its
      name. */
  ghost predicate Shows(kb: string, listing: seq<Document>, r: Record, mine: Document) {
    && Stable(listing) && mine in listing && ValidDocument(kb, mine, r) && |listing| < MAX_PAGES * PAGE_SIZE
    && forall d :: d in listing && d.name == r.filename ==> d == mine
  }

  /** The next run after an interrupted upload that the service did accept asks for the listing and nothing else, and
      stores exactly the document's id, leaving every other record as it was. */
  lemma InterruptedIsBound(kb: string, c: Client, listing: seq<Document>, mine: Document)
    requires Interrupted(c) && Shows(kb, listing, c.mem[c.todo[0].key], mine)
    ensures var k := c.todo[0].key;
            var asking := Next(kb, c, Local);
            && asking.Some? && asking.value.pc == Listing(k, START)
            && var bound := AfterPages(kb, asking.value, listing);
            && bound.Some? && bound.value.pc == Rebound(k)
            && var saved := Next(kb, bound.value, PublishClient.Save);
            && saved.Some? && k in saved.value.disk
            && saved.value.disk[k].id == mine.id && !saved.value.disk[k].owned
            && saved.value.disk[k].attempted && saved.value.disk[k].error == None
            && forall other :: other != k ==>
                 (other in saved.value.disk <==> other in c.mem)
                     && (other in c.mem ==> saved.value.disk[other] == c.mem[other])
  {
    var k := c.todo[0].key;
    var r := c.mem[k].(articles := c.todo[0].item.articles);
    var asking := Next(kb, c, Local).value;
    assert asking.mem[k] == r && asking.pc == Listing(k, START);
    ReconcileBinds(kb, r, listing, mine);
    PagesLead(kb, asking, listing);
    BoundIsSaved(kb, asking, k, Reconciled(mine, r));
  }

  lemma BoundIsSaved(kb: string, c: Client, k: string, r: Record)
    ensures var bound := Put(c, k, r, Rebound(k));
            Next(kb, bound, PublishClient.Save) == Some(bound.(disk := bound.mem, pc := Closing(k)))
  {
  }

  /** When a page of the scan cannot be read, what is stored decides the next run: it uploads the content again exactly
      when the failure carries one of the listed statuses, and otherwise starts the scan over. */
  lemma FailedPageForgets(kb: string, c: Client, f: Failure, later: Client)
    requires c.pc.Listing? && c.pc.key in c.mem && later.pc == Between && later.todo != []
    requires var r := c.mem[c.pc.key]; r.attempted && r.id == "" && !r.deleted
    requires later.todo[0].key == c.pc.key && later.task.Upload? && !later.task.checkOnly
    requires var failed := Next(kb, c, Got(Broken(f)));
             && failed.Some? && var saved := Next(kb, failed.value, PublishClient.Save);
             saved.Some? && later.mem == saved.value.disk
    ensures var next := Next(kb, later, Local);
            && next.Some?
            && (next.value.pc == Marked(c.pc.key) <==> Definitive(f.status))
            && (next.value.pc == Listing(c.pc.key, START) <==> !Definitive(f.status))
  {
    var k := c.pc.key;
    var r := OnFailure(f, c.mem[k]);
    assert Next(kb, c, Got(Broken(f))) == Some(Put(c, k, r, Closing(k)));
    assert later.mem[k] == r;
  }

  /** Without the document the run stores no id and keeps the mark: it still does not post. */
  lemma InterruptedStaysUnknown(kb: string, c: Client, listing: seq<Document>)
    requires Interrupted(c) && Stable(listing)
    requires forall d :: d in listing ==> d.name != c.mem[c.todo[0].key].filename
    ensures var k := c.todo[0].key;
            var asking := Next(kb, c, Local);
            && asking.Some? && asking.value.pc == Listing(k, START)
            && var left := AfterPages(kb, asking.value, listing);
            && left.Some? && left.value.pc == Closing(k) && k in left.value.mem
            && left.value.mem[k].id == "" && left.value.mem[k].attempted && left.value.mem[k].error.Some?
  {
    var k := c.todo[0].key;
    var r := c.mem[k].(articles := c.todo[0].item.articles);
    var asking := Next(kb, c, Local).value;
    assert asking.mem[k] == r && asking.pc == Listing(k, START);
    NothingFound(kb, r, listing);
    PagesLead(kb, asking, listing);
  }

  lemma NothingFound(kb: string, r: Record, listing: seq<Document>)
    requires Stable(listing) && forall d :: d in listing ==> d.name != r.filename
    ensures ScanListing(kb, r, START, listing) in {Lost(UNRESOLVED), Lost(PAGE_LIMIT)}
  {
    ScanStable(kb, r, START, listing);
    var named := Named(listing, r.filename);
    if named != [] { NamedMember(listing, r.filename, named[0]); }
    assert START.matches + named == [];
  }
}
