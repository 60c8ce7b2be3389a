/** publish.py: what one reply does to one upload record, and the scan over the listing
    that finds an upload again. */
module Publish {
  import opened Basics

  /** ImportFailure: a code, and the HTTP status when the failure is an HTTP error (otherwise 0). */
  datatype Failure = Failure(code: string, status: int)

  /** The statuses taken as a definitive rejection of a write. */
  predicate Definitive(status: int) {
    status in {400, 401, 403, 404, 405, 413, 415, 422, 429}
  }

  predicate AnyDefinitive(statuses: set<int>) {
    exists status :: status in statuses && Definitive(status)
  }

  /** An entry of state["uploads"][destination]; `id == ""` means that no remote id is known. */
  datatype Record = Record(
    filename: string, bytes: int, articles: seq<string>,
    owned: bool, attempted: bool, parse: string,
    id: string, error: Option<Failure>, deleted: bool, reconciled: bool)

  /** A value of Workspace.desired(). */
  datatype Item = Item(filename: string, bytes: int, articles: seq<string>)

  /** A document as the service describes it; `status` is absent when it is not a string. */
  datatype Document = Document(id: string, kb: string, name: string, size: int, status: Option<string>)

  /** `Broken` is every ImportFailure raised by the request itself: transport, HTTP status,
      invalid JSON, or success not true. */
  datatype Reply = Found(doc: Document) | Page(items: seq<Document>) | Broken(failure: Failure)

  const MISMATCH := Failure("mindcreek.document_identity_mismatch", 0)
  const RETIRED := Failure("mindcreek.previously_retired_content", 0)
  const UNRESOLVED := Failure("mindcreek.upload_unresolved", 0)
  const PAGE_LIMIT := Failure("mindcreek.page_limit", 0)
  const PAGE_SIZE := 100
  const MAX_PAGES := 10000

  function NewRecord(item: Item): Record {
    Record(item.filename, item.bytes, item.articles, false, false, "not_uploaded", "", None, false, false)
  }

  predicate ValidDocument(kb: string, d: Document, r: Record) {
    d.id != "" && d.kb == kb && d.name == r.filename && d.size == r.bytes && (r.id == "" || r.id == d.id)
  }

  /** validate_document applied to the body of a reply. */
  function Validated(kb: string, reply: Reply, r: Record): Result<Document, Failure> {
    match reply
    case Broken(f) => Err(f)
    case Page(_) => Err(MISMATCH)
    case Found(d) => if ValidDocument(kb, d, r) then Ok(d) else Err(MISMATCH)
  }

  /** refresh, up to its save. */
  function Refreshed(kb: string, reply: Reply, r: Record): Result<Record, Failure> {
    match Validated(kb, reply, r)
    case Err(f) => Err(f)
    case Ok(d) =>
      if d.status.None? then Err(Failure("mindcreek.parse_status_missing", 0))
      else Ok(r.(parse := d.status.value, error := None))
  }

  /** The record after the answer to the creation request was accepted. */
  function Uploaded(d: Document, r: Record): Record {
    r.(id := d.id, owned := true, parse := StatusOf(d), error := None)
  }

  /** The record after reconciliation found its document. */
  function Reconciled(d: Document, r: Record): Record {
    r.(id := d.id, owned := false, reconciled := true, parse := StatusOf(d), error := None)
  }

  function StatusOf(d: Document): string {
    if d.status.Some? then d.status.value else "pending"
  }

  /** The handler at lines 238-241. */
  function OnFailure(f: Failure, r: Record): Record {
    r.(error := Some(f),
       attempted := if r.id == "" && Definitive(f.status) then false else r.attempted)
  }

  // ---- The listing scan of reconcile ----

  /** `page` is the next page to request. */
  datatype Scan = Scan(page: nat, seen: set<string>, matches: seq<Document>)

  datatype Verdict = More(scan: Scan) | Bound(doc: Document) | Lost(failure: Failure)

  const START := Scan(1, {}, [])

  function ScanItem(kb: string, r: Record, scan: Scan, d: Document): Result<Scan, Failure> {
    if d.id == "" || d.id in scan.seen then Err(Failure("mindcreek.unstable_pagination", 0))
    else
      var next := scan.(seen := scan.seen + {d.id});
      if d.name != r.filename then Ok(next)
      else if ValidDocument(kb, d, r) then Ok(next.(matches := scan.matches + [d]))
      else Err(MISMATCH)
  }

  function ScanItems(kb: string, r: Record, scan: Scan, items: seq<Document>): Result<Scan, Failure> {
    if items == [] then Ok(scan)
    else
      match ScanItems(kb, r, scan, items[..|items| - 1])
      case Err(f) => Err(f)
      case Ok(s) => ScanItem(kb, r, s, items[|items| - 1])
  }

  function ScanPage(kb: string, r: Record, scan: Scan, reply: Reply): Verdict {
    match reply
    case Broken(f) => Lost(f)
    case Found(_) => Lost(Failure("mindcreek.invalid_list", 0))
    case Page(items) =>
      match ScanItems(kb, r, scan, items)
      case Err(f) => Lost(f)
      case Ok(s) =>
        if |items| < PAGE_SIZE then Conclude(s.matches)
        else if s.page >= MAX_PAGES then Lost(PAGE_LIMIT)
        else More(s.(page := s.page + 1))
  }

  function Conclude(matches: seq<Document>): Verdict {
    if |matches| > 1 then Lost(Failure("mindcreek.ambiguous_upload", 0))
    else if |matches| == 1 then Bound(matches[0])
    else Lost(UNRESOLVED)
  }

  /** Scanning the pages of a whole listing that does not change meanwhile. */
  function ScanListing(kb: string, r: Record, scan: Scan, listing: seq<Document>): Verdict
    decreases |listing|
  {
    var items := if |listing| < PAGE_SIZE then listing else listing[..PAGE_SIZE];
    match ScanPage(kb, r, scan, Page(items))
    case More(s) => ScanListing(kb, r, s, listing[|items|..])
    case v => v
  }

  // ---- What reconciliation finds ----

  /** A listing as the service promises it: every document once, with an id. */
  ghost predicate Stable(listing: seq<Document>) {
    && (forall i :: 0 <= i < |listing| ==> listing[i].id != "")
    && (forall i, j :: 0 <= i < j < |listing| ==> listing[i].id != listing[j].id)
  }

  function Named(listing: seq<Document>, name: string): seq<Document> {
    if listing == [] then []
    else
      var d := listing[|listing| - 1];
      Named(listing[..|listing| - 1], name) + (if d.name == name then [d] else [])
  }

  function Ids(listing: seq<Document>): set<string> {
    set d | d in listing :: d.id
  }

  lemma {:induction false} NamedAppend(a: seq<Document>, b: seq<Document>, name: string)
    ensures Named(a + b, name) == Named(a, name) + Named(b, name)
  {
    if b == [] {
      assert a + b == a;
    } else {
      assert (a + b)[..|a + b| - 1] == a + b[..|b| - 1];
      NamedAppend(a, b[..|b| - 1], name);
    }
  }

  lemma {:induction false} NamedMember(listing: seq<Document>, name: string, d: Document)
    ensures d in Named(listing, name) <==> d in listing && d.name == name
  {
    if listing != [] {
      NamedMember(listing[..|listing| - 1], name, d);
      assert listing == listing[..|listing| - 1] + [listing[|listing| - 1]];
    }
  }

  /** One page of a stable listing whose matches all validate extends the scan by exactly its matches. */
  lemma {:induction false} ScanItemsStable(kb: string, r: Record, scan: Scan, items: seq<Document>)
    requires Stable(items) && scan.seen !! Ids(items)
    requires forall d :: d in items && d.name == r.filename ==> ValidDocument(kb, d, r)
    ensures ScanItems(kb, r, scan, items)
         == Ok(Scan(scan.page, scan.seen + Ids(items), scan.matches + Named(items, r.filename)))
  {
    if items == [] {
      assert scan.seen + Ids(items) == scan.seen && scan.matches + [] == scan.matches;
    } else {
      var front, last := items[..|items| - 1], items[|items| - 1];
      assert items == front + [last];
      ScanItemsStable(kb, r, scan, front);
      assert Ids(items) == Ids(front) + {last.id};
      assert last.id in Ids(items) && last.id !in Ids(front);
      var s := Scan(scan.page, scan.seen + Ids(front), scan.matches + Named(front, r.filename));
      assert s.seen + {last.id} == scan.seen + Ids(items);
      assert last in items;
      assert ScanItem(kb, r, s, last) == Ok(Scan(s.page, s.seen + {last.id},
          if last.name == r.filename then s.matches + [last] else s.matches));
      assert scan.matches + (Named(front, r.filename) + [last]) == s.matches + [last];
      assert scan.matches + (Named(front, r.filename) + []) == s.matches;
    }
  }

  lemma PageIs(kb: string, r: Record, scan: Scan, items: seq<Document>, next: Scan)
    requires ScanItems(kb, r, scan, items) == Ok(next) && next.page == scan.page <= MAX_PAGES
    ensures ScanPage(kb, r, scan, Page(items))
         == if |items| < PAGE_SIZE then Conclude(next.matches)
            else if scan.page == MAX_PAGES then Lost(PAGE_LIMIT)
            else More(Scan(scan.page + 1, next.seen, next.matches))
  {
  }

  /** What one page of a stable listing leads to. */
  lemma PageStable(kb: string, r: Record, scan: Scan, items: seq<Document>)
    requires Stable(items) && scan.seen !! Ids(items) && |items| <= PAGE_SIZE && 1 <= scan.page <= MAX_PAGES
    requires forall d :: d in items && d.name == r.filename ==> ValidDocument(kb, d, r)
    ensures var matches := scan.matches + Named(items, r.filename);
            ScanPage(kb, r, scan, Page(items))
            == if |items| < PAGE_SIZE then Conclude(matches)
               else if scan.page == MAX_PAGES then Lost(PAGE_LIMIT)
               else More(Scan(scan.page + 1, scan.seen + Ids(items), matches))
  {
    ScanItemsStable(kb, r, scan, items);
    PageIs(kb, r, scan, items, Scan(scan.page, scan.seen + Ids(items), scan.matches + Named(items, r.filename)));
  }

  /** The rest of a stable listing is stable, and shows none of the documents on the page before it. */
  lemma StableSplit(items: seq<Document>, rest: seq<Document>)
    requires Stable(items + rest)
    ensures Stable(items) && Stable(rest) && Ids(items) !! Ids(rest) && Ids(items + rest) == Ids(items) + Ids(rest)
  {
    var listing := items + rest;
    forall i | 0 <= i < |items|
      ensures items[i] == listing[i]
    {
    }
    forall i | 0 <= i < |rest|
      ensures rest[i] == listing[|items| + i]
    {
    }
  }

  lemma ListingNext(kb: string, r: Record, scan: Scan, items: seq<Document>, rest: seq<Document>)
    requires |items| <= PAGE_SIZE && (|items| < PAGE_SIZE ==> rest == [])
    ensures ScanListing(kb, r, scan, items + rest)
         == var v := ScanPage(kb, r, scan, Page(items)); if v.More? then ScanListing(kb, r, v.scan, rest) else v
  {
    var listing := items + rest;
    assert (if |listing| < PAGE_SIZE then listing else listing[..PAGE_SIZE]) == items;
    assert listing[|items|..] == rest;
  }

  /** One page of a stable listing, and what is left for the pages after it. */
  lemma PageThenRest(kb: string, r: Record, scan: Scan, items: seq<Document>, rest: seq<Document>)
    requires Stable(items + rest) && scan.seen !! Ids(items + rest) && 1 <= scan.page <= MAX_PAGES
    requires forall d :: d in items + rest && d.name == r.filename ==> ValidDocument(kb, d, r)
    requires |items| <= PAGE_SIZE && (|items| < PAGE_SIZE ==> rest == [])
    ensures var matches := scan.matches + Named(items, r.filename);
            ScanListing(kb, r, scan, items + rest)
            == if |items| < PAGE_SIZE then Conclude(matches)
               else if scan.page == MAX_PAGES then Lost(PAGE_LIMIT)
               else ScanListing(kb, r, Scan(scan.page + 1, scan.seen + Ids(items), matches), rest)
    ensures Stable(rest) && scan.seen + Ids(items) !! Ids(rest)
  {
    StableSplit(items, rest);
    PageStable(kb, r, scan, items);
    ListingNext(kb, r, scan, items, rest);
  }

  /** Every page is looked at: the verdict on a stable listing depends on all its documents with the name. */
  lemma {:induction false} ScanStable(kb: string, r: Record, scan: Scan, listing: seq<Document>)
    requires Stable(listing) && scan.seen !! Ids(listing)
    requires forall d :: d in listing && d.name == r.filename ==> ValidDocument(kb, d, r)
    requires 1 <= scan.page <= MAX_PAGES
    ensures ScanListing(kb, r, scan, listing)
         == (if |listing| < (MAX_PAGES - scan.page + 1) * PAGE_SIZE
             then Conclude(scan.matches + Named(listing, r.filename)) else Lost(PAGE_LIMIT))
    decreases |listing|
  {
    var n := if |listing| < PAGE_SIZE then |listing| else PAGE_SIZE;
    var items, rest := listing[..n], listing[n..];
    assert listing == items + rest;
    PageThenRest(kb, r, scan, items, rest);
    NamedAppend(items, rest, r.filename);
    var matches := scan.matches + Named(items, r.filename);
    assert scan.matches + Named(listing, r.filename) == matches + Named(rest, r.filename);
    if n < PAGE_SIZE {
      assert rest == [] && matches + Named(rest, r.filename) == matches;
    } else if scan.page < MAX_PAGES {
      ScanStable(kb, r, Scan(scan.page + 1, scan.seen + Ids(items), matches), rest);
    }
  }

  /** After an interrupted upload, a stable listing that shows the document once binds the record to exactly
      that document, wherever it stands in the listing, precisely when the listing has fewer than a
      million entries. */
  lemma ReconcileBinds(kb: string, r: Record, listing: seq<Document>, mine: Document)
    requires Stable(listing) && mine in listing && ValidDocument(kb, mine, r)
    requires forall d :: d in listing && d.name == r.filename ==> d == mine
    ensures ScanListing(kb, r, START, listing) == Bound(mine) <==> |listing| < MAX_PAGES * PAGE_SIZE
  {
    ScanStable(kb, r, START, listing);
    var named := Named(listing, r.filename);
    NamedOnce(listing, r.filename, mine);
    assert START.matches + named == [mine];
  }

  lemma {:induction false} NamedOnce(listing: seq<Document>, name: string, mine: Document)
    requires Stable(listing) && mine.name == name
    requires forall d :: d in listing && d.name == name ==> d == mine
    ensures Named(listing, name) == (if mine in listing then [mine] else [])
  {
    if listing != [] {
      var front, last := listing[..|listing| - 1], listing[|listing| - 1];
      assert listing == front + [last];
      NamedOnce(front, name, mine);
    }
  }

  /** Without the document in a stable listing nothing is bound. */
  lemma ReconcileNeverInvents(kb: string, r: Record, listing: seq<Document>)
    requires Stable(listing) && forall d :: d in listing ==> d.name != r.filename
    ensures !ScanListing(kb, r, START, listing).Bound?
  {
    ScanStable(kb, r, START, listing);
    var named := Named(listing, r.filename);
    if named != [] {
      NamedMember(listing, r.filename, named[0]);
    }
    assert START.matches + named == [];
  }
}
