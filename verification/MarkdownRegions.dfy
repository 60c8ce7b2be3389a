/** content.py, markdown_regions and markdown: fenced code, code spans and escapes are kept apart from the text in
    which images are looked for. */
module MarkdownRegions {
  import opened Basics
  import opened Fences
  import opened Spans

  datatype Region = Region(guarded: bool, text: string)

  // ---- The regions ----

  function Cut(text: string, pieces: seq<Piece>): seq<Region>
    requires forall i :: 0 <= i < |pieces| ==> pieces[i].lo <= pieces[i].hi <= |text|
  {
    seq(|pieces|, i requires 0 <= i < |pieces| => Region(pieces[i].guarded, text[pieces[i].lo..pieces[i].hi]))
  }

  lemma {:induction false} TilesInside(text: string, pieces: seq<Piece>, lo: nat, hi: nat)
    requires Tiles(text, pieces, lo, hi)
    ensures forall i :: 0 <= i < |pieces| ==> pieces[i].lo < pieces[i].hi <= |text|
    decreases |pieces|
  {
    if pieces != [] {
      TilesInside(text, pieces[1..], pieces[0].hi, hi);
      assert forall i :: 1 <= i < |pieces| ==> pieces[i] == pieces[1..][i - 1];
    }
  }

  /** `regions` are the escapes, code spans and live stretches of a text outside fences. */
  ghost predicate SpanRegions(text: string, regions: seq<Region>) {
    exists pieces :: Tiles(text, pieces, 0, |text|) && Inside(text, pieces) && regions == Cut(text, pieces)
  }

  predicate Inside(text: string, pieces: seq<Piece>) {
    forall i :: 0 <= i < |pieces| ==> pieces[i].lo < pieces[i].hi <= |text|
  }

  function Guarded(lines: seq<string>): seq<Region> {
    seq(|lines|, i requires 0 <= i < |lines| => Region(true, lines[i]))
  }

  function EndOf(blocks: seq<(nat, nat)>): nat {
    if blocks == [] then 0 else blocks[|blocks| - 1].1
  }

  /** Block `i` comes after the one before it, or after line `p`. */
  predicate Follows(blocks: seq<(nat, nat)>, p: nat, i: nat, n: nat)
    requires i < |blocks|
  {
    (if i == 0 then p else blocks[i - 1].1) <= blocks[i].0 < blocks[i].1 <= n
  }

  predicate Ordered(n: nat, blocks: seq<(nat, nat)>) {
    forall i {:trigger Follows(blocks, 0, i, n)} :: 0 <= i < |blocks| ==> Follows(blocks, 0, i, n)
  }

  /** `regions` are those of the lines up to the end of the blocks: every line of a block is one guarded region,
      the lines between are cut into spans as one text. */
  ghost predicate Renders(lines: seq<string>, blocks: seq<(nat, nat)>, regions: seq<Region>)
    requires Ordered(|lines|, blocks)
    decreases |blocks|
  {
    if blocks == [] then regions == []
    else
      var n := |blocks| - 1;
      OrderedFront(lines, blocks);
      exists head, prose ::
        && Renders(lines, blocks[..n], head)
        && SpanRegions(Join(lines[EndOf(blocks[..n])..blocks[n].0]), prose)
        && regions == head + prose + Guarded(lines[blocks[n].0..blocks[n].1])
  }

  lemma OrderedFront(lines: seq<string>, blocks: seq<(nat, nat)>)
    requires Ordered(|lines|, blocks) && blocks != []
    ensures Ordered(|lines|, blocks[..|blocks| - 1])
    ensures EndOf(blocks[..|blocks| - 1]) <= blocks[|blocks| - 1].0 < blocks[|blocks| - 1].1 <= |lines|
  {
    var front, n := blocks[..|blocks| - 1], |lines|;
    assert Follows(blocks, 0, |front|, n);
    forall i | 0 <= i < |front|
      ensures Follows(front, 0, i, n)
    {
      assert Follows(blocks, 0, i, n);
    }
  }

  lemma {:induction false} BlocksFollow(marks: seq<Option<Marker>>, p: nat, i: nat)
    requires p <= |marks| && i < |Blocks(marks, p)|
    ensures Follows(Blocks(marks, p), p, i, |marks|)
    decreases i
  {
    var f := FirstOpening(marks, p);
    var end := FenceEnd(marks, f + 1, marks[f].value);
    assert Blocks(marks, p) == [(f, end)] + Blocks(marks, end);
    if i > 0 { BlocksFollow(marks, end, i - 1); }
  }

  lemma BlocksOrdered(marks: seq<Option<Marker>>)
    ensures Ordered(|marks|, Blocks(marks, 0)) && EndOf(Blocks(marks, 0)) <= |marks|
  {
    var b := Blocks(marks, 0);
    forall i | 0 <= i < |b|
      ensures Follows(b, 0, i, |marks|)
    {
      BlocksFollow(marks, 0, i);
    }
    if b != [] { assert Follows(b, 0, |b| - 1, |marks|); }
  }

  function BlocksOf(lines: seq<string>): (blocks: seq<(nat, nat)>)
    ensures Ordered(|lines|, blocks) && EndOf(blocks) <= |lines|
  {
    BlocksOrdered(Markers(lines));
    Blocks(Markers(lines), 0)
  }

  /** The blocks line by line, and the spans of what is between and after them. */
  ghost predicate Assembled(lines: seq<string>, blocks: seq<(nat, nat)>, regions: seq<Region>) {
    && Ordered(|lines|, blocks) && EndOf(blocks) <= |lines|
    && exists head, prose ::
      Renders(lines, blocks, head) && SpanRegions(Join(lines[EndOf(blocks)..]), prose) && regions == head + prose
  }

  /** The regions of a text. */
  ghost predicate IsRegions(lines: seq<string>, regions: seq<Region>) {
    Assembled(lines, BlocksOf(lines), regions)
  }

  // ---- There is exactly one such list, and it loses nothing ----

  lemma SpanRegionsUnique(text: string, a: seq<Region>, b: seq<Region>)
    requires SpanRegions(text, a) && SpanRegions(text, b)
    ensures a == b
  {
    var p :| Tiles(text, p, 0, |text|) && Inside(text, p) && a == Cut(text, p);
    var q :| Tiles(text, q, 0, |text|) && Inside(text, q) && b == Cut(text, q);
    TilesUnique(text, p, q, 0);
  }

  lemma {:induction false} RendersUnique(lines: seq<string>, blocks: seq<(nat, nat)>, a: seq<Region>, b: seq<Region>)
    requires Ordered(|lines|, blocks) && Renders(lines, blocks, a) && Renders(lines, blocks, b)
    ensures a == b
    decreases |blocks|
  {
    if blocks != [] {
      OrderedFront(lines, blocks);
      var n := |blocks| - 1;
      var front, text := blocks[..n], Join(lines[EndOf(blocks[..n])..blocks[n].0]);
      var tail := Guarded(lines[blocks[n].0..blocks[n].1]);
      var h, p :| Renders(lines, front, h) && SpanRegions(text, p) && a == h + p + tail;
      var h', p' :| Renders(lines, front, h') && SpanRegions(text, p') && b == h' + p' + tail;
      RendersUnique(lines, front, h, h');
      SpanRegionsUnique(text, p, p');
    }
  }

  lemma RegionsUnique(lines: seq<string>, a: seq<Region>, b: seq<Region>)
    requires IsRegions(lines, a) && IsRegions(lines, b)
    ensures a == b
  {
    var blocks := BlocksOf(lines);
    var text := Join(lines[EndOf(blocks)..]);
    var h, p :| Renders(lines, blocks, h) && SpanRegions(text, p) && a == h + p;
    var h', p' :| Renders(lines, blocks, h') && SpanRegions(text, p') && b == h' + p';
    RendersUnique(lines, blocks, h, h');
    SpanRegionsUnique(text, p, p');
  }

  function Texts(regions: seq<Region>): seq<string> {
    seq(|regions|, i requires 0 <= i < |regions| => regions[i].text)
  }

  lemma TextsAppend(a: seq<Region>, b: seq<Region>)
    ensures Texts(a + b) == Texts(a) + Texts(b)
    ensures Join(Texts(a + b)) == Join(Texts(a)) + Join(Texts(b))
  {
    assert Texts(a + b) == Texts(a) + Texts(b);
    JoinAppend(Texts(a), Texts(b));
  }

  lemma InsideRest(text: string, pieces: seq<Piece>)
    requires pieces != [] && Inside(text, pieces)
    ensures Inside(text, pieces[1..])
  {
  }

  lemma CutFirst(text: string, pieces: seq<Piece>)
    requires pieces != [] && Inside(text, pieces) && Inside(text, pieces[1..])
    ensures Join(Texts(Cut(text, pieces))) == text[pieces[0].lo..pieces[0].hi] + Join(Texts(Cut(text, pieces[1..])))
  {
    var p, rest := pieces[0], pieces[1..];
    var first := [Region(p.guarded, text[p.lo..p.hi])];
    assert Cut(text, pieces) == first + Cut(text, rest);
    TextsAppend(first, Cut(text, rest));
    JoinOne(text[p.lo..p.hi]);
    assert Texts(first) == [text[p.lo..p.hi]];
  }

  lemma {:induction false} CutLossless(text: string, pieces: seq<Piece>, lo: nat, hi: nat)
    requires lo <= hi <= |text| && Tiles(text, pieces, lo, hi) && Inside(text, pieces)
    ensures Join(Texts(Cut(text, pieces))) == text[lo..hi]
    decreases |pieces|
  {
    if pieces != [] {
      var rest := pieces[1..];
      TilesUp(text, rest, pieces[0].hi, hi);
      InsideRest(text, pieces);
      CutLossless(text, rest, pieces[0].hi, hi);
      CutFirst(text, pieces);
      assert text[lo..hi] == text[lo..pieces[0].hi] + text[pieces[0].hi..hi];
    }
  }

  lemma {:induction false} TilesUp(text: string, pieces: seq<Piece>, lo: nat, hi: nat)
    requires Tiles(text, pieces, lo, hi)
    ensures lo <= hi
    decreases |pieces|
  {
    if pieces != [] { TilesUp(text, pieces[1..], pieces[0].hi, hi); }
  }

  lemma SpanLossless(text: string, regions: seq<Region>)
    requires SpanRegions(text, regions)
    ensures Join(Texts(regions)) == text
  {
    var pieces :| Tiles(text, pieces, 0, |text|) && Inside(text, pieces) && regions == Cut(text, pieces);
    CutLossless(text, pieces, 0, |text|);
  }

  lemma {:induction false} RendersLossless(lines: seq<string>, blocks: seq<(nat, nat)>, regions: seq<Region>)
    requires Ordered(|lines|, blocks) && Renders(lines, blocks, regions)
    ensures EndOf(blocks) <= |lines| && Join(Texts(regions)) == Join(lines[..EndOf(blocks)])
    decreases |blocks|
  {
    if blocks != [] {
      OrderedFront(lines, blocks);
      var n := |blocks| - 1;
      var front, b, e := blocks[..n], blocks[n].0, blocks[n].1;
      var head, prose :| Renders(lines, front, head) && SpanRegions(Join(lines[EndOf(front)..b]), prose)
        && regions == head + prose + Guarded(lines[b..e]);
      RendersLossless(lines, front, head);
      SpanLossless(Join(lines[EndOf(front)..b]), prose);
      BlockLossless(lines, EndOf(front), b, e, head, prose);
    }
  }

  lemma BlockLossless(lines: seq<string>, from: nat, b: nat, e: nat, head: seq<Region>, prose: seq<Region>)
    requires from <= b <= e <= |lines|
    requires Join(Texts(head)) == Join(lines[..from]) && Join(Texts(prose)) == Join(lines[from..b])
    ensures Join(Texts(head + prose + Guarded(lines[b..e]))) == Join(lines[..e])
  {
    TextsAppend(head, prose);
    TextsAppend(head + prose, Guarded(lines[b..e]));
    assert Texts(Guarded(lines[b..e])) == lines[b..e];
    JoinAppend(lines[..from], lines[from..b]);
    assert lines[..from] + lines[from..b] == lines[..b];
    JoinAppend(lines[..b], lines[b..e]);
    assert lines[..b] + lines[b..e] == lines[..e];
  }

  /** Joining the regions of a text gives the text back. */
  lemma RegionsLossless(content: string, regions: seq<Region>)
    requires IsRegions(Lines(content), regions)
    ensures Join(Texts(regions)) == content
  {
    var lines := Lines(content);
    var blocks := BlocksOf(lines);
    var end := EndOf(blocks);
    var head, prose :| Renders(lines, blocks, head) && SpanRegions(Join(lines[end..]), prose)
        && regions == head + prose;
    RendersLossless(lines, blocks, head);
    SpanLossless(Join(lines[end..]), prose);
    TextsAppend(head, prose);
    JoinAppend(lines[..end], lines[end..]);
    assert lines[..end] + lines[end..] == lines;
    LinesJoin(content);
  }

  // ---- The loop over the lines ----

  /** One more block: the prose before it, then its lines. */
  lemma RendersAppend(lines: seq<string>, done: seq<(nat, nat)>, head: seq<Region>, b: nat, e: nat, prose: seq<Region>)
    requires Ordered(|lines|, done) && Renders(lines, done, head)
    requires EndOf(done) <= b < e <= |lines| && SpanRegions(Join(lines[EndOf(done)..b]), prose)
    ensures Ordered(|lines|, done + [(b, e)])
    ensures Renders(lines, done + [(b, e)], head + prose + Guarded(lines[b..e]))
  {
    OrderedAppend(|lines|, done, b, e);
    var blocks := done + [(b, e)];
    var n := |done|;
    assert blocks[..n] == done && blocks[n] == (b, e);
    assert Renders(lines, blocks[..n], head) && SpanRegions(Join(lines[EndOf(blocks[..n])..blocks[n].0]), prose)
      && head + prose + Guarded(lines[b..e]) == head + prose + Guarded(lines[blocks[n].0..blocks[n].1]);
  }

  lemma OrderedAppend(n: nat, done: seq<(nat, nat)>, b: nat, e: nat)
    requires Ordered(n, done) && EndOf(done) <= b < e <= n
    ensures Ordered(n, done + [(b, e)])
  {
    var blocks := done + [(b, e)];
    forall i | 0 <= i < |blocks|
      ensures Follows(blocks, 0, i, n)
    {
      if i < |done| { assert Follows(done, 0, i, n); }
    }
  }

  /** The spans of a stretch of text outside fences, as regions. */
  method SpansOf(text: string) returns (regions: seq<Region>)
    ensures SpanRegions(text, regions)
  {
    var pieces := Scan(text);
    TilesInside(text, pieces, 0, |text|);
    regions := Cut(text, pieces);
  }

  lemma BlocksNext(marks: seq<Option<Marker>>, from: nat, b: nat, e: nat)
    requires from <= b < |marks| && Opens(marks[b]) && (forall i :: from <= i < b ==> !Opens(marks[i]))
    requires e == FenceEnd(marks, b + 1, marks[b].value)
    ensures Blocks(marks, from) == [(b, e)] + Blocks(marks, e)
  {
    assert FirstOpening(marks, from) == b;
  }

  /** The blocks that end before line `i` are done, and no fence opens between them and `i`. */
  predicate Scanned(marks: seq<Option<Marker>>, i: nat, done: seq<(nat, nat)>) {
    && EndOf(done) <= i <= |marks| && Ordered(|marks|, done)
    && Blocks(marks, 0) == done + Blocks(marks, EndOf(done))
    && forall j :: EndOf(done) <= j < i ==> !Opens(marks[j])
  }

  /** Line `i` comes inside the fence `f`, which began at line `b`. */
  predicate InFence(marks: seq<Option<Marker>>, i: nat, done: seq<(nat, nat)>, b: nat, f: Marker) {
    && b < i <= |marks| && Scanned(marks, b, done)
    && Opens(marks[b]) && f == marks[b].value && FenceEnd(marks, i, f) == FenceEnd(marks, b + 1, f)
  }

  lemma BlocksSplit(marks: seq<Option<Marker>>, done: seq<(nat, nat)>, from: nat, b: nat, e: nat)
    requires from <= b < e <= |marks| && Blocks(marks, 0) == done + Blocks(marks, from)
    requires Blocks(marks, from) == [(b, e)] + Blocks(marks, e)
    ensures Blocks(marks, 0) == done + [(b, e)] + Blocks(marks, e)
  {
    var all, rest := Blocks(marks, 0), Blocks(marks, e);
    assert all == done + ([(b, e)] + rest);
  }

  /** The fence that ends before line `e` is one more block. */
  lemma ScannedBlock(marks: seq<Option<Marker>>, e: nat, done: seq<(nat, nat)>, b: nat)
    requires b < e <= |marks| && Scanned(marks, b, done)
    requires Opens(marks[b]) && FenceEnd(marks, b + 1, marks[b].value) == e
    ensures Scanned(marks, e, done + [(b, e)])
  {
    BlocksNext(marks, EndOf(done), b, e);
    BlocksSplit(marks, done, EndOf(done), b, e);
    OrderedAppend(|marks|, done, b, e);
    assert EndOf(done + [(b, e)]) == e;
  }

  /** Reading the line that closes the fence. */
  lemma ReadClosing(marks: seq<Option<Marker>>, i: nat, done: seq<(nat, nat)>, b: nat, f: Marker)
    requires i < |marks| && InFence(marks, i, done, b, f) && Closes(marks[i], f)
    ensures Scanned(marks, i + 1, done + [(b, i + 1)])
  {
    ScannedBlock(marks, i + 1, done, b);
  }

  /** Running out of lines inside a fence. */
  lemma ReadEnd(marks: seq<Option<Marker>>, done: seq<(nat, nat)>, b: nat, f: Marker)
    requires InFence(marks, |marks|, done, b, f)
    ensures Scanned(marks, |marks|, done + [(b, |marks|)])
  {
    ScannedBlock(marks, |marks|, done, b);
  }

  lemma ReadInside(marks: seq<Option<Marker>>, i: nat, done: seq<(nat, nat)>, b: nat, f: Marker)
    requires i < |marks| && InFence(marks, i, done, b, f) && !Closes(marks[i], f)
    ensures InFence(marks, i + 1, done, b, f)
  {
  }

  /** What the loop has put out at line `i` outside a fence, `pending` being the lines since the last block. */
  ghost predicate Outside(lines: seq<string>, i: nat, done: seq<(nat, nat)>, regions: seq<Region>,
                          pending: seq<string>) {
    && EndOf(done) <= i <= |lines| && Ordered(|lines|, done) && Renders(lines, done, regions)
    && pending == lines[EndOf(done)..i]
  }

  /** What it has put out inside the fence that began at line `b`. */
  ghost predicate Within(lines: seq<string>, i: nat, done: seq<(nat, nat)>, regions: seq<Region>, b: nat) {
    && EndOf(done) <= b < i <= |lines| && Ordered(|lines|, done)
    && exists head, prose ::
      && Renders(lines, done, head) && SpanRegions(Join(lines[EndOf(done)..b]), prose)
      && regions == head + prose + Guarded(lines[b..i])
  }

  lemma PutFence(lines: seq<string>, i: nat, done: seq<(nat, nat)>, regions: seq<Region>, pending: seq<string>,
                 spans: seq<Region>)
    requires i < |lines| && Outside(lines, i, done, regions, pending) && SpanRegions(Join(pending), spans)
    ensures Within(lines, i + 1, done, regions + spans + [Region(true, lines[i])], i)
  {
    assert Guarded(lines[i..i + 1]) == [Region(true, lines[i])];
  }

  lemma GuardedNext(lines: seq<string>, b: nat, i: nat)
    requires b <= i < |lines|
    ensures Guarded(lines[b..i + 1]) == Guarded(lines[b..i]) + [Region(true, lines[i])]
  {
    var a, c := lines[b..i], lines[b..i + 1];
    assert c == a + [lines[i]];
    assert Guarded(a + [lines[i]]) == Guarded(a) + [Region(true, lines[i])];
  }

  lemma PutInside(lines: seq<string>, i: nat, done: seq<(nat, nat)>, regions: seq<Region>, b: nat)
    requires i < |lines| && Within(lines, i, done, regions, b)
    ensures Within(lines, i + 1, done, regions + [Region(true, lines[i])], b)
  {
    var head, prose :| Renders(lines, done, head) && SpanRegions(Join(lines[EndOf(done)..b]), prose)
      && regions == head + prose + Guarded(lines[b..i]);
    GuardedNext(lines, b, i);
    assert regions + [Region(true, lines[i])] == head + prose + Guarded(lines[b..i + 1]);
  }

  lemma PutBlock(lines: seq<string>, i: nat, done: seq<(nat, nat)>, regions: seq<Region>, b: nat)
    requires Within(lines, i, done, regions, b)
    ensures Outside(lines, i, done + [(b, i)], regions, [])
  {
    var head, prose :| Renders(lines, done, head) && SpanRegions(Join(lines[EndOf(done)..b]), prose)
      && regions == head + prose + Guarded(lines[b..i]);
    RendersAppend(lines, done, head, b, i, prose);
  }

  lemma Finished(lines: seq<string>, marks: seq<Option<Marker>>, done: seq<(nat, nat)>, regions: seq<Region>,
                 pending: seq<string>, spans: seq<Region>)
    requires |marks| == |lines| && Scanned(marks, |lines|, done)
    requires Outside(lines, |lines|, done, regions, pending) && SpanRegions(Join(pending), spans)
    ensures Assembled(lines, Blocks(marks, 0), regions + spans)
  {
    assert FirstOpening(marks, EndOf(done)) == |marks|;
    assert Blocks(marks, 0) == done;
    assert pending == lines[EndOf(done)..];
  }

  /** The state of the loop at line `i`: `done` blocks, and the first line `b` of the one it is in. */
  ghost predicate At(lines: seq<string>, marks: seq<Option<Marker>>, i: nat, regions: seq<Region>, pending: seq<string>,
                     fence: Option<Marker>, done: seq<(nat, nat)>, b: nat) {
    && |marks| == |lines|
    && if fence.None? then Scanned(marks, i, done) && Outside(lines, i, done, regions, pending)
    else InFence(marks, i, done, b, fence.value) && Within(lines, i, done, regions, b) && pending == []
  }

  ghost predicate Progress(lines: seq<string>, marks: seq<Option<Marker>>, i: nat, regions: seq<Region>,
                           pending: seq<string>, fence: Option<Marker>) {
    exists done, b :: At(lines, marks, i, regions, pending, fence, done, b)
  }

  lemma BegunScanned(marks: seq<Option<Marker>>)
    ensures Scanned(marks, 0, [])
  {
    var all := Blocks(marks, 0);
    assert [] + all == all;
  }

  lemma Begun(lines: seq<string>, marks: seq<Option<Marker>>)
    requires |marks| == |lines|
    ensures Progress(lines, marks, 0, [], [], None)
  {
    BegunScanned(marks);
    assert Outside(lines, 0, [], [], []);
    assert At(lines, marks, 0, [], [], None, [], 0);
  }

  lemma CloseAt(lines: seq<string>, marks: seq<Option<Marker>>, i: nat, regions: seq<Region>, f: Marker,
                done: seq<(nat, nat)>, b: nat)
    requires i < |lines| == |marks| && At(lines, marks, i, regions, [], Some(f), done, b) && Closes(marks[i], f)
    ensures At(lines, marks, i + 1, regions + [Region(true, lines[i])], [], None, done + [(b, i + 1)], b)
  {
    PutClosing(lines, i, done, regions, b);
    ReadClosing(marks, i, done, b, f);
  }

  lemma AfterClosing(lines: seq<string>, marks: seq<Option<Marker>>, i: nat, regions: seq<Region>, f: Marker)
    requires i < |lines| == |marks| && Progress(lines, marks, i, regions, [], Some(f)) && Closes(marks[i], f)
    ensures Progress(lines, marks, i + 1, regions + [Region(true, lines[i])], [], None)
  {
    var done, b :| At(lines, marks, i, regions, [], Some(f), done, b);
    CloseAt(lines, marks, i, regions, f, done, b);
  }

  lemma PutClosing(lines: seq<string>, i: nat, done: seq<(nat, nat)>, regions: seq<Region>, b: nat)
    requires i < |lines| && Within(lines, i, done, regions, b)
    ensures Outside(lines, i + 1, done + [(b, i + 1)], regions + [Region(true, lines[i])], [])
  {
    PutInside(lines, i, done, regions, b);
    PutBlock(lines, i + 1, done, regions + [Region(true, lines[i])], b);
  }

  lemma AfterFenced(lines: seq<string>, marks: seq<Option<Marker>>, i: nat, regions: seq<Region>, f: Marker)
    requires i < |lines| == |marks| && Progress(lines, marks, i, regions, [], Some(f)) && !Closes(marks[i], f)
    ensures Progress(lines, marks, i + 1, regions + [Region(true, lines[i])], [], Some(f))
  {
    var done, b :| At(lines, marks, i, regions, [], Some(f), done, b);
    PutInside(lines, i, done, regions, b);
    ReadInside(marks, i, done, b, f);
    assert At(lines, marks, i + 1, regions + [Region(true, lines[i])], [], Some(f), done, b);
  }

  lemma AfterOpening(lines: seq<string>, marks: seq<Option<Marker>>, i: nat, regions: seq<Region>, pending: seq<string>,
                     spans: seq<Region>)
    requires i < |lines| == |marks| && Progress(lines, marks, i, regions, pending, None)
    requires Opens(marks[i]) && SpanRegions(Join(pending), spans)
    ensures Progress(lines, marks, i + 1, regions + spans + [Region(true, lines[i])], [], marks[i])
  {
    var done, b :| At(lines, marks, i, regions, pending, None, done, b);
    PutFence(lines, i, done, regions, pending, spans);
    var next := regions + spans + [Region(true, lines[i])];
    assert At(lines, marks, i + 1, next, [], marks[i], done, i);
  }

  lemma ReadProse(marks: seq<Option<Marker>>, i: nat, done: seq<(nat, nat)>)
    requires i < |marks| && Scanned(marks, i, done) && !Opens(marks[i])
    ensures Scanned(marks, i + 1, done)
  {
  }

  lemma PutProse(lines: seq<string>, i: nat, done: seq<(nat, nat)>, regions: seq<Region>, pending: seq<string>)
    requires i < |lines| && Outside(lines, i, done, regions, pending)
    ensures Outside(lines, i + 1, done, regions, pending + [lines[i]])
  {
    assert lines[EndOf(done)..i + 1] == lines[EndOf(done)..i] + [lines[i]];
  }

  lemma AfterProse(lines: seq<string>, marks: seq<Option<Marker>>, i: nat, regions: seq<Region>, pending: seq<string>)
    requires i < |lines| == |marks| && Progress(lines, marks, i, regions, pending, None) && !Opens(marks[i])
    ensures Progress(lines, marks, i + 1, regions, pending + [lines[i]], None)
  {
    var done, b :| At(lines, marks, i, regions, pending, None, done, b);
    ReadProse(marks, i, done);
    PutProse(lines, i, done, regions, pending);
    assert At(lines, marks, i + 1, regions, pending + [lines[i]], None, done, b);
  }

  /** A fence that is still open ends with the text. */
  lemma EndAt(lines: seq<string>, marks: seq<Option<Marker>>, regions: seq<Region>, f: Marker, done: seq<(nat, nat)>,
              b: nat)
    requires At(lines, marks, |lines|, regions, [], Some(f), done, b)
    ensures At(lines, marks, |lines|, regions, [], None, done + [(b, |lines|)], b)
  {
    ReadEnd(marks, done, b, f);
    PutBlock(lines, |lines|, done, regions, b);
  }

  lemma FinishedAt(lines: seq<string>, marks: seq<Option<Marker>>, regions: seq<Region>, pending: seq<string>,
                   done: seq<(nat, nat)>, b: nat, spans: seq<Region>)
    requires At(lines, marks, |lines|, regions, pending, None, done, b) && SpanRegions(Join(pending), spans)
    ensures Assembled(lines, Blocks(marks, 0), regions + spans)
  {
    Finished(lines, marks, done, regions, pending, spans);
  }

  lemma AfterAll(lines: seq<string>, marks: seq<Option<Marker>>, regions: seq<Region>, pending: seq<string>,
                 fence: Option<Marker>, spans: seq<Region>)
    requires Progress(lines, marks, |lines|, regions, pending, fence) && SpanRegions(Join(pending), spans)
    ensures Assembled(lines, Blocks(marks, 0), regions + spans)
  {
    var done, b :| At(lines, marks, |lines|, regions, pending, fence, done, b);
    if fence.Some? {
      EndAt(lines, marks, regions, fence.value, done, b);
      FinishedAt(lines, marks, regions, pending, done + [(b, |lines|)], b, spans);
    } else {
      FinishedAt(lines, marks, regions, pending, done, b, spans);
    }
  }

  lemma AfterLine(lines: seq<string>, marks: seq<Option<Marker>>, i: nat, regions: seq<Region>, f: Marker, closes: bool)
    requires i < |lines| == |marks| && Progress(lines, marks, i, regions, [], Some(f)) && closes == Closes(marks[i], f)
    ensures Progress(lines, marks, i + 1, regions + [Region(true, lines[i])], [], if closes then None else Some(f))
  {
    if closes { AfterClosing(lines, marks, i, regions, f); } else { AfterFenced(lines, marks, i, regions, f); }
  }

  /** One line of the loop. */
  method Read(lines: seq<string>, i: nat, regions: seq<Region>, pending: seq<string>, fence: Option<Marker>,
              ghost marks: seq<Option<Marker>>)
    returns (regions': seq<Region>, pending': seq<string>, fence': Option<Marker>)
    requires i < |lines| == |marks| && marks[i] == MarkerOf(lines[i])
    requires Progress(lines, marks, i, regions, pending, fence) && (fence.Some? ==> pending == [])
    ensures Progress(lines, marks, i + 1, regions', pending', fence') && (fence'.Some? ==> pending' == [])
  {
    var marker := MarkerOf(lines[i]);
    regions', pending', fence' := regions, pending, fence;
    if fence.Some? {
      AfterLine(lines, marks, i, regions, fence.value, Closes(marker, fence.value));
      regions' := regions + [Region(true, lines[i])];
      if Closes(marker, fence.value) { fence' := None; }
    } else if Opens(marker) {
      var spans := SpansOf(Join(pending));
      AfterOpening(lines, marks, i, regions, pending, spans);
      regions' := regions + spans + [Region(true, lines[i])];
      pending', fence' := [], marker;
    } else {
      AfterProse(lines, marks, i, regions, pending);
      pending' := pending + [lines[i]];
    }
  }

  method RegionsOf(lines: seq<string>) returns (regions: seq<Region>)
    ensures IsRegions(lines, regions)
  {
    var pending: seq<string>, fence: Option<Marker> := [], None;
    ghost var marks := Markers(lines);
    regions := [];
    Begun(lines, marks);
    for i := 0 to |lines|
      invariant Progress(lines, marks, i, regions, pending, fence) && (fence.Some? ==> pending == [])
    {
      regions, pending, fence := Read(lines, i, regions, pending, fence, marks);
    }
    var spans := SpansOf(Join(pending));
    AfterAll(lines, marks, regions, pending, fence, spans);
    regions := regions + spans;
  }

  method Regions(content: string) returns (regions: seq<Region>)
    ensures IsRegions(Lines(content), regions)
    ensures Join(Texts(regions)) == content
  {
    regions := RegionsOf(Lines(content));
    RegionsLossless(content, regions);
  }
}
