/** publish.py, reconcile: exactly when the scan over a listing, stable or not, binds a record. */
module PublishScan {
  import opened Basics
  import opened Publish

  /** Every document of the record's name on these pages is one for this record. */
  ghost predicate AllFit(kb: string, r: Record, items: seq<Document>) {
    forall d :: d in items && d.name == r.filename ==> ValidDocument(kb, d, r)
  }

  /** A page without a failure repeats nothing, and all its documents of the name fit. */
  lemma {:induction false} PageIsStable(kb: string, r: Record, scan: Scan, items: seq<Document>)
    requires ScanItems(kb, r, scan, items).Ok?
    ensures Stable(items) && scan.seen !! Ids(items) && AllFit(kb, r, items)
    decreases |items|
  {
    if items != [] {
      var n := |items| - 1;
      var front, last := items[..n], items[n];
      assert items == front + [last];
      PageIsStable(kb, r, scan, front);
      ScanItemsStable(kb, r, scan, front);
      assert last.id !in scan.seen + Ids(front) && last.id != "";
      forall i | 0 <= i < n
        ensures items[i].id != last.id
      {
        assert items[i] in front;
      }
    }
  }

  lemma StableJoin(items: seq<Document>, rest: seq<Document>)
    requires Stable(items) && Stable(rest) && Ids(items) !! Ids(rest)
    ensures Stable(items + rest) && Ids(items + rest) == Ids(items) + Ids(rest)
  {
    var all := items + rest;
    forall i, j | 0 <= i < j < |all|
      ensures all[i].id != all[j].id
    {
      if i < |items| <= j { assert all[i].id in Ids(items) && all[j].id in Ids(rest); }
    }
  }

  /** So does a whole listing that binds. */
  lemma {:induction false} BoundIsStable(kb: string, r: Record, scan: Scan, listing: seq<Document>)
    requires ScanListing(kb, r, scan, listing).Bound?
    ensures Stable(listing) && scan.seen !! Ids(listing) && AllFit(kb, r, listing)
    decreases |listing|
  {
    var n := if |listing| < PAGE_SIZE then |listing| else PAGE_SIZE;
    var items, rest := listing[..n], listing[n..];
    assert listing == items + rest;
    ListingNext(kb, r, scan, items, rest);
    PageIsStable(kb, r, scan, items);
    if n < PAGE_SIZE {
      assert rest == [] && items == listing;
    } else {
      RestIsStable(kb, r, scan, items, rest);
    }
  }

  lemma RestIsStable(kb: string, r: Record, scan: Scan, items: seq<Document>, rest: seq<Document>)
    requires |items| == PAGE_SIZE && ScanListing(kb, r, scan, items + rest).Bound?
    requires Stable(items) && scan.seen !! Ids(items) && AllFit(kb, r, items)
    ensures Stable(items + rest) && scan.seen !! Ids(items + rest) && AllFit(kb, r, items + rest)
    decreases |rest| + 1
  {
    ListingNext(kb, r, scan, items, rest);
    ScanItemsStable(kb, r, scan, items);
    var v := ScanPage(kb, r, scan, Page(items));
    assert v.More? && v.scan.seen == scan.seen + Ids(items);
    BoundIsStable(kb, r, v.scan, rest);
    StableJoin(items, rest);
  }

  /** After an interrupted upload a listing of any kind binds the record to a document if and only if it has an id for
      every document, none of them twice, and fewer than a million documents; and it shows this document, with the
      record's file name, its size and this knowledge base, and no other of that name. */
  lemma BoundExactly(kb: string, r: Record, listing: seq<Document>, d: Document)
    requires r.id == ""
    ensures ScanListing(kb, r, START, listing) == Bound(d)
       <==> && Stable(listing) && |listing| < 1_000_000
            && d in listing && d.name == r.filename && d.size == r.bytes && d.kb == kb
            && forall other :: other in listing && other.name == r.filename ==> other == d
  {
    if ScanListing(kb, r, START, listing) == Bound(d) {
      BoundIsStable(kb, r, START, listing);
      ScanStable(kb, r, START, listing);
      var named := Named(listing, r.filename);
      assert START.matches + named == named;
      assert named == [d];
      forall other
        ensures other in listing && other.name == r.filename <==> other == d
      {
        NamedMember(listing, r.filename, other);
      }
    } else if Stable(listing) && |listing| < 1_000_000 && d in listing && d.name == r.filename && d.size == r.bytes
              && d.kb == kb && (forall other :: other in listing && other.name == r.filename ==> other == d) {
      ReconcileBinds(kb, r, listing, d);
    }
  }
}
