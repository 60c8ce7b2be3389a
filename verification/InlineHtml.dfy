/** Sections 6.5 and 6.6 of CommonMark 0.31 give autolinks and HTML tags the same precedence as code spans: whichever
    begins first wins. content.py knows neither, so a backtick inside a tag can open a code span; exactly when that
    makes a difference. */
module InlineHtml {
  import opened Basics
  import opened Spans
  import SpanBoundaries

  /** Where an autolink or a tag begins, and its end. */
  type Raw = nat -> Option<nat>

  /** Each begins with an opening and ends with a closing angle bracket. */
  ghost predicate RawOk(text: string, raw: Raw) {
    forall i: nat :: raw(i).Some? ==> RawAt(text, i, raw(i).value)
  }

  predicate RawAt(text: string, i: nat, e: nat) {
    i + 1 < e <= |text| && text[i] == '<' && text[e - 1] == '>'
  }

  /** The first one at or after `i`. */
  function FindRaw(raw: Raw, i: nat, limit: nat): (at: nat)
    requires i <= limit
    ensures i <= at <= limit && (at < limit ==> raw(at).Some?)
    decreases limit - i
  {
    if i == limit || raw(i).Some? then i else FindRaw(raw, i + 1, limit)
  }

  /** The escapes and code spans from `i` on, when tags and autolinks are passed over as a whole. */
  ghost function CmGuards(text: string, raw: Raw, i: nat): seq<Piece>
    requires RawOk(text, raw) && i <= |text|
    decreases |text| - i
  {
    var at, r := FindToken(text, i), FindRaw(raw, i, |text|);
    if r < at then
      assert RawAt(text, r, raw(r).value);
      CmGuards(text, raw, raw(r).value)
    else if at == |text| then []
    else
      var end := EndAt(text, at);
      if end.Some? then [Piece(true, at, end.value)] + CmGuards(text, raw, end.value)
      else CmGuards(text, raw, RunEnd(text, at))
  }

  /** The tags and autolinks passed over. */
  ghost function CmRaws(text: string, raw: Raw, i: nat): seq<(nat, nat)>
    requires RawOk(text, raw) && i <= |text|
    decreases |text| - i
  {
    var at, r := FindToken(text, i), FindRaw(raw, i, |text|);
    if r < at then
      assert RawAt(text, r, raw(r).value);
      [(r, raw(r).value)] + CmRaws(text, raw, raw(r).value)
    else if at == |text| then []
    else
      var end := EndAt(text, at);
      CmRaws(text, raw, if end.Some? then end.value else RunEnd(text, at))
  }

  /** None of these pieces begins inside one of those tags and autolinks. */
  predicate NoneInside(pieces: seq<Piece>, raws: seq<(nat, nat)>) {
    forall k, j :: 0 <= k < |pieces| && 0 <= j < |raws| ==> !(raws[j].0 <= pieces[k].lo < raws[j].1)
  }

  lemma {:induction false} CmGuardsFrom(text: string, raw: Raw, i: nat, k: nat)
    requires RawOk(text, raw) && i <= |text| && k < |CmGuards(text, raw, i)|
    ensures i <= CmGuards(text, raw, i)[k].lo
    decreases |text| - i
  {
    var at, r := FindToken(text, i), FindRaw(raw, i, |text|);
    if r < at {
      assert RawAt(text, r, raw(r).value);
      CmGuardsFrom(text, raw, raw(r).value, k);
    } else {
      var end := EndAt(text, at);
      if end.None? {
        CmGuardsFrom(text, raw, RunEnd(text, at), k);
      } else if k > 0 {
        CmGuardsFrom(text, raw, end.value, k - 1);
      }
    }
  }

  lemma {:induction false} CmRawsFrom(text: string, raw: Raw, i: nat, j: nat)
    requires RawOk(text, raw) && i <= |text| && j < |CmRaws(text, raw, i)|
    ensures i <= CmRaws(text, raw, i)[j].0
    decreases |text| - i
  {
    var at, r := FindToken(text, i), FindRaw(raw, i, |text|);
    if r < at {
      assert RawAt(text, r, raw(r).value);
      if j > 0 { CmRawsFrom(text, raw, raw(r).value, j - 1); }
    } else {
      var end := EndAt(text, at);
      CmRawsFrom(text, raw, if end.Some? then end.value else RunEnd(text, at), j);
    }
  }

  lemma {:induction false} RunStopsBefore(text: string, i: nat, e: nat)
    requires i <= e < |text| && !Tick(text, e)
    ensures RunEnd(text, i) <= e
    decreases e - i
  {
    if Tick(text, i) { RunStopsBefore(text, i + 1, e); }
  }

  /** When nothing protected begins before the end of a tag, looking from there on finds the same. */
  lemma {:induction false} SameFrom(text: string, i: nat, e: nat)
    requires i <= e <= |text| && e > 0 && text[e - 1] == '>'
    requires NextGuarded(text, i).None? || NextGuarded(text, i).value.lo >= e
    ensures NextGuarded(text, i) == NextGuarded(text, e)
    decreases e - i
  {
    var at := FindToken(text, i);
    if at >= e {
      SpanBoundaries.TokenLater(text, i, e);
    } else {
      RunStopsBefore(text, at, e - 1);
      SameFrom(text, RunEnd(text, at), e);
    }
  }

  lemma GuardsSame(text: string, i: nat, e: nat)
    requires i <= |text| && e <= |text| && NextGuarded(text, i) == NextGuarded(text, e)
    ensures Guards(text, i) == Guards(text, e)
  {
  }

  /** The claim at a place between tokens. */
  ghost predicate AgreesFrom(text: string, raw: Raw, i: nat)
    requires RawOk(text, raw) && i <= |text|
  {
    CmGuards(text, raw, i) == Guards(text, i) <==> NoneInside(Guards(text, i), CmRaws(text, raw, i))
  }

  /** Past a tag. */
  lemma AgreesOverRaw(text: string, raw: Raw, i: nat, r: nat, e: nat)
    requires RawOk(text, raw) && i <= r < e <= |text| && r == FindRaw(raw, i, |text|) < FindToken(text, i)
    requires raw(r) == Some(e) && AgreesFrom(text, raw, e)
    ensures AgreesFrom(text, raw, i)
  {
    assert RawAt(text, r, e);
    var next, raws := NextGuarded(text, i), CmRaws(text, raw, e);
    if next.Some? && next.value.lo < e {
      FirstInside(text, raw, i, r, e);
    } else {
      SameFrom(text, i, e);
      GuardsSame(text, i, e);
      InsideCons(text, e, r, raws);
    }
  }

  /** A protected piece that begins in the tag: CommonMark has none there. */
  lemma FirstInside(text: string, raw: Raw, i: nat, r: nat, e: nat)
    requires RawOk(text, raw) && i <= r < e <= |text| && r == FindRaw(raw, i, |text|) < FindToken(text, i)
    requires raw(r) == Some(e) && NextGuarded(text, i).Some? && NextGuarded(text, i).value.lo < e
    ensures CmGuards(text, raw, i) != Guards(text, i) && !NoneInside(Guards(text, i), CmRaws(text, raw, i))
  {
    assert RawAt(text, r, e);
    NextAfterToken(text, i);
    var next := NextGuarded(text, i).value;
    assert Guards(text, i)[0] == next && CmRaws(text, raw, i)[0] == (r, e);
    assert CmGuards(text, raw, i) == CmGuards(text, raw, e);
    if CmGuards(text, raw, e) != [] { CmGuardsFrom(text, raw, e, 0); }
  }

  lemma NextAfterToken(text: string, i: nat)
    requires i <= |text|
    ensures NextGuarded(text, i).Some? ==> FindToken(text, i) <= NextGuarded(text, i).value.lo
  {
  }

  /** Pieces from `e` on are not in a tag that ends there. */
  lemma InsideCons(text: string, e: nat, r: nat, raws: seq<(nat, nat)>)
    requires e <= |text|
    ensures NoneInside(Guards(text, e), [(r, e)] + raws) <==> NoneInside(Guards(text, e), raws)
  {
    var all := [(r, e)] + raws;
    forall k | 0 <= k < |Guards(text, e)|
      ensures e <= Guards(text, e)[k].lo
    {
      SpanBoundaries.GuardsWithin(text, e, k);
    }
    assert forall j :: 0 <= j < |raws| ==> all[j + 1] == raws[j];
  }

  /** Past an escape or a code span. */
  lemma AgreesOverPiece(text: string, raw: Raw, i: nat, at: nat, e: nat)
    requires RawOk(text, raw) && i <= at < e <= |text| && at == FindToken(text, i) <= FindRaw(raw, i, |text|)
    requires EndAt(text, at) == Some(e) && AgreesFrom(text, raw, e)
    ensures AgreesFrom(text, raw, i)
  {
    var p, rest, raws := Piece(true, at, e), Guards(text, e), CmRaws(text, raw, e);
    assert Guards(text, i) == [p] + rest && CmGuards(text, raw, i) == [p] + CmGuards(text, raw, e);
    assert CmRaws(text, raw, i) == raws;
    forall j | 0 <= j < |raws|
      ensures at < raws[j].0
    {
      CmRawsFrom(text, raw, e, j);
    }
    ConsInside(p, rest, raws);
    assert ([p] + rest)[1..] == rest && ([p] + CmGuards(text, raw, e))[1..] == CmGuards(text, raw, e);
  }

  lemma ConsInside(p: Piece, rest: seq<Piece>, raws: seq<(nat, nat)>)
    requires forall j :: 0 <= j < |raws| ==> p.lo < raws[j].0
    ensures NoneInside([p] + rest, raws) <==> NoneInside(rest, raws)
  {
    var all := [p] + rest;
    assert forall k :: 0 <= k < |rest| ==> all[k + 1] == rest[k];
  }

  lemma {:induction false} AgreesAll(text: string, raw: Raw, i: nat)
    requires RawOk(text, raw) && i <= |text|
    ensures AgreesFrom(text, raw, i)
    decreases |text| - i
  {
    var at, r := FindToken(text, i), FindRaw(raw, i, |text|);
    if r < at {
      assert RawAt(text, r, raw(r).value);
      AgreesAll(text, raw, raw(r).value);
      AgreesOverRaw(text, raw, i, r, raw(r).value);
    } else if at < |text| {
      var end := EndAt(text, at);
      if end.Some? {
        AgreesAll(text, raw, end.value);
        AgreesOverPiece(text, raw, i, at, end.value);
      } else {
        AgreesAll(text, raw, RunEnd(text, at));
        GuardsSame(text, i, RunEnd(text, at));
      }
    }
  }

  /** In one block content.py protects what CommonMark does if and only if none of its escapes and code spans begins
      inside a tag or an autolink. */
  lemma TagsAgreeExactly(text: string, raw: Raw)
    requires RawOk(text, raw)
    ensures CmGuards(text, raw, 0) == Guards(text, 0) <==> NoneInside(Guards(text, 0), CmRaws(text, raw, 0))
  {
    AgreesAll(text, raw, 0);
  }

  // ---- An input at which they differ ----

  /** An open tag with one attribute whose value is a backtick, an image, and another backtick. */
  const TAGGED := "<a href=\"`\">![x](u)`"

  /** A form of open tag in section 6.6: a name up to `n`, an attribute name up to `m`, and a quoted value up to `q`. */
  predicate TagWithValue(text: string, i: nat, n: nat, m: nat, q: nat) {
    && i + 1 < n && n + 1 < m && m + 1 < q && q + 1 < |text|
    && text[i] == '<' && text[n] == ' ' && text[m] == '=' && text[m + 1] == '"' && text[q] == '"' && text[q + 1] == '>'
    && (forall j :: i < j < m && j != n ==> 'a' <= text[j] <= 'z')
    && (forall j :: m + 1 < j < q ==> text[j] != '"')
  }

  function TagOnly(): Raw {
    (i: nat) => if i == 0 then Some(12) else None
  }

  /** The backtick in the tag and the one after the image are one code span to content.py, so the image is not live; in
      CommonMark the tag wins, the last backtick stands alone and nothing is protected. */
  lemma TagDiffers()
    ensures TagWithValue(TAGGED, 0, 2, 7, 10) && RawOk(TAGGED, TagOnly())
    ensures forall p :: !SpanBoundaries.Boundary(TAGGED, p)
    ensures CodeSpan(TAGGED, 9, 20) && Guards(TAGGED, 0) != [] && Guards(TAGGED, 0)[0] == Piece(true, 9, 20)
    ensures CmGuards(TAGGED, TagOnly(), 0) == []
  {
    TaggedForm();
    TaggedRaw();
    TaggedSpan();
    TaggedCm();
  }

  lemma TaggedForm()
    ensures TagWithValue(TAGGED, 0, 2, 7, 10)
    ensures forall p :: !SpanBoundaries.Boundary(TAGGED, p)
  {
    assert |TAGGED| == 20;
    assert forall i :: 0 <= i < 20 ==> TAGGED[i] != '\n';
  }

  lemma TaggedRaw()
    ensures RawOk(TAGGED, TagOnly())
  {
    assert RawAt(TAGGED, 0, 12);
  }

  lemma TaggedSpan()
    ensures CodeSpan(TAGGED, 9, 20) && Guards(TAGGED, 0) != [] && Guards(TAGGED, 0)[0] == Piece(true, 9, 20)
  {
    SpanBoundaries.TokenIs(TAGGED, 0, 9);
    assert RunEnd(TAGGED, 10) == 10 && RunEnd(TAGGED, 9) == 10;
    TaggedClosing(10);
    ClosingIsFirst(TAGGED, 10, 1);
  }

  lemma {:induction false} TaggedClosing(i: nat)
    requires 10 <= i <= 19
    ensures FindClosing(TAGGED, i, 1) == Some(19)
    decreases 19 - i
  {
    if i < 19 {
      assert !MaximalRun(TAGGED, i, 1) by { assert !Tick(TAGGED, i); }
      TaggedClosing(i + 1);
    } else {
      assert MaximalRun(TAGGED, 19, 1) by { assert Tick(TAGGED, 19) && !Tick(TAGGED, 18) && !Tick(TAGGED, 20); }
    }
  }

  lemma {:induction false} NoTagAfter(i: nat, limit: nat)
    requires 0 < i <= limit
    ensures FindRaw(TagOnly(), i, limit) == limit
    decreases limit - i
  {
    if i < limit { NoTagAfter(i + 1, limit); }
  }

  lemma TaggedCm()
    requires RawOk(TAGGED, TagOnly())
    ensures CmGuards(TAGGED, TagOnly(), 0) == []
  {
    SpanBoundaries.TokenIs(TAGGED, 0, 9);
    SpanBoundaries.TokenIs(TAGGED, 12, 19);
    NoTagAfter(12, 20);
    assert RunEnd(TAGGED, 20) == 20 && RunEnd(TAGGED, 19) == 20;
    assert FindClosing(TAGGED, 20, 1) == None;
    assert CmGuards(TAGGED, TagOnly(), 20) == [];
    assert CmGuards(TAGGED, TagOnly(), 12) == CmGuards(TAGGED, TagOnly(), 20);
  }
}
