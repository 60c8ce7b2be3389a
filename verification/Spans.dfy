/** content.py, spans within markdown_regions: escaped punctuation and code spans of a stretch of text. */
module Spans {
  import opened Basics

  /** `text[lo..hi]`, protected from interpretation or live. */
  datatype Piece = Piece(guarded: bool, lo: nat, hi: nat)

  predicate Punctuation(c: char) {
    c in "!\"#$%&'()*+,-./:;<=>?@[]\\^_`{|}~"
  }

  predicate EscapeAt(text: string, i: nat) {
    i + 1 < |text| && text[i] == '\\' && Punctuation(text[i + 1])
  }

  predicate Tick(text: string, i: nat) {
    i < |text| && text[i] == '`'
  }

  /** The end of the run of backticks that starts at `i`. */
  function RunEnd(text: string, i: nat): (end: nat)
    requires i <= |text|
    ensures i <= end <= |text| && !Tick(text, end) && (Tick(text, i) ==> i < end)
    decreases |text| - i
  {
    if Tick(text, i) then RunEnd(text, i + 1) else i
  }

  lemma {:induction false} RunIs(text: string, i: nat)
    requires i <= |text|
    ensures forall j :: i <= j < RunEnd(text, i) ==> Tick(text, j)
    decreases |text| - i
  {
    if Tick(text, i) { RunIs(text, i + 1); }
  }

  /** A backtick string of length `n`, as long as it can be. */
  predicate MaximalRun(text: string, p: nat, n: nat) {
    && p + n <= |text|
    && (forall j :: p <= j < p + n ==> Tick(text, j))
    && (p > 0 ==> !Tick(text, p - 1))
    && !Tick(text, p + n)
  }

  /** The next escape or backtick at or after `i`; the length of the text when there is none. */
  function FindToken(text: string, i: nat): (at: nat)
    requires i <= |text|
    ensures i <= at <= |text| && (at < |text| ==> Tick(text, at) || EscapeAt(text, at))
    decreases |text| - i
  {
    if i == |text| || Tick(text, i) || EscapeAt(text, i) then i else FindToken(text, i + 1)
  }

  lemma {:induction false} TokenIsFirst(text: string, i: nat)
    requires i <= |text|
    ensures forall j :: i <= j < FindToken(text, i) ==> !Tick(text, j) && !EscapeAt(text, j)
    decreases |text| - i
  {
    if i < |text| && !Tick(text, i) && !EscapeAt(text, i) { TokenIsFirst(text, i + 1); }
  }

  /** The first backtick string of length exactly `n` at or after `i`. */
  function FindClosing(text: string, i: nat, n: nat): (at: Option<nat>)
    requires i <= |text| && n > 0
    ensures at.Some? ==> i <= at.value && at.value + n <= |text|
    decreases |text| - i
  {
    if i == |text| then None
    else if MaximalRun(text, i, n) then Some(i)
    else FindClosing(text, i + 1, n)
  }

  /** It is the first such string, and when there is none, none follows. */
  lemma {:induction false} ClosingIsFirst(text: string, i: nat, n: nat)
    requires i <= |text| && n > 0
    ensures var at := FindClosing(text, i, n);
            && (at.Some? ==> MaximalRun(text, at.value, n) && NoClosing(text, i, at.value, n))
            && (at.None? ==> NoClosing(text, i, |text|, n))
    decreases |text| - i
  {
    if i < |text| && !MaximalRun(text, i, n) { ClosingIsFirst(text, i + 1, n); }
  }

  /** No backtick string of length `n` starts in the range. */
  predicate NoClosing(text: string, from: nat, to: nat, n: nat) {
    forall p :: from <= p < to ==> !MaximalRun(text, p, n)
  }

  /** The end of the protected piece that the token at `at` begins; `None` for a backtick string that is not closed. */
  function EndAt(text: string, at: nat): (end: Option<nat>)
    requires at < |text| && (Tick(text, at) || EscapeAt(text, at))
    ensures end.Some? ==> at < end.value <= |text|
  {
    if text[at] != '`' then Some(at + 2)
    else
      var n := RunEnd(text, at) - at;
      var closing := FindClosing(text, at + n, n);
      if closing.None? then None else Some(closing.value + n)
  }

  /** The first protected piece at or after `i`, where a token may begin. */
  function NextGuarded(text: string, i: nat): (p: Option<Piece>)
    requires i <= |text|
    ensures p.Some? ==> p.value.guarded && i <= p.value.lo < p.value.hi <= |text|
    decreases |text| - i
  {
    var at := FindToken(text, i);
    if at == |text| then None
    else
      var end := EndAt(text, at);
      if end.Some? then Some(Piece(true, at, end.value)) else NextGuarded(text, RunEnd(text, at))
  }

  /** All protected pieces from `i` on. */
  function Guards(text: string, i: nat): seq<Piece>
    requires i <= |text|
    decreases |text| - i
  {
    var p := NextGuarded(text, i);
    if p.None? then [] else [p.value] + Guards(text, p.value.hi)
  }

  function OnlyGuarded(pieces: seq<Piece>): seq<Piece> {
    if pieces == [] then []
    else OnlyGuarded(pieces[..|pieces| - 1]) + if pieces[|pieces| - 1].guarded then [pieces[|pieces| - 1]] else []
  }

  // ---- What the pieces must be ----

  /** A code span as content.py finds it: an opening backtick string, and the first later one of the same length,
      wherever in the text that is. */
  ghost predicate CodeSpan(text: string, lo: nat, hi: nat) {
    lo < |text| && Tick(text, lo)
    && var n := RunEnd(text, lo) - lo;
       lo + 2 * n <= hi <= |text| && MaximalRun(text, hi - n, n) && NoClosing(text, lo + n, hi - n, n)
  }

  /** Live text holds no escape, and none of its backtick strings is closed anywhere later. */
  ghost predicate Live(text: string, lo: nat, hi: nat) {
    forall i: nat :: lo <= i < hi <= |text| ==> LiveAt(text, lo, hi, i)
  }

  ghost predicate LiveAt(text: string, lo: nat, hi: nat, i: nat)
    requires i < |text|
  {
    && !EscapeAt(text, i)
    && (Tick(text, i) && (i == lo || (i > 0 && !Tick(text, i - 1))) ==>
          RunEnd(text, i) <= hi && NoClosing(text, RunEnd(text, i), |text|, RunEnd(text, i) - i))
  }

  ghost predicate PieceOk(text: string, p: Piece) {
    && p.lo < p.hi <= |text|
    && if p.guarded then (EscapeAt(text, p.lo) && p.hi == p.lo + 2) || CodeSpan(text, p.lo, p.hi)
       else Live(text, p.lo, p.hi)
  }

  /** The pieces follow one another from `lo` to `hi`, without two live ones in a row. */
  ghost predicate Tiles(text: string, pieces: seq<Piece>, lo: nat, hi: nat) {
    if pieces == [] then lo == hi
    else
      && pieces[0].lo == lo && PieceOk(text, pieces[0])
      && (|pieces| > 1 ==> pieces[0].guarded || pieces[1].guarded)
      && Tiles(text, pieces[1..], pieces[0].hi, hi)
  }

  lemma {:induction false} TilesAppend(text: string, pieces: seq<Piece>, lo: nat, p: Piece)
    requires Tiles(text, pieces, lo, p.lo) && PieceOk(text, p)
    requires pieces != [] ==> pieces[|pieces| - 1].guarded || p.guarded
    ensures Tiles(text, pieces + [p], lo, p.hi)
    decreases |pieces|
  {
    if pieces == [] {
      assert (pieces + [p])[1..] == [];
    } else {
      assert (pieces + [p])[1..] == pieces[1..] + [p];
      TilesAppend(text, pieces[1..], pieces[0].hi, p);
    }
  }

  /** The pieces of a text are determined by what they must be. */
  lemma {:induction false} TilesUnique(text: string, a: seq<Piece>, b: seq<Piece>, lo: nat)
    requires lo <= |text| && Tiles(text, a, lo, |text|) && Tiles(text, b, lo, |text|)
    ensures a == b
    decreases |a|
  {
    if a == [] || b == [] {
      assert a == b;
    } else {
      FirstUnique(text, a, b, lo);
      TilesUnique(text, a[1..], b[1..], a[0].hi);
      assert a == [a[0]] + a[1..] && b == [b[0]] + b[1..];
    }
  }

  lemma FirstUnique(text: string, a: seq<Piece>, b: seq<Piece>, lo: nat)
    requires lo < |text| && Tiles(text, a, lo, |text|) && Tiles(text, b, lo, |text|) && a != [] && b != []
    ensures a[0] == b[0]
  {
    var p, q := a[0], b[0];
    if p.guarded && q.guarded {
      if CodeSpan(text, lo, p.hi) && CodeSpan(text, lo, q.hi) { CodeSpanUnique(text, lo, p.hi, q.hi); }
    } else if p.guarded {
      GuardedNotLive(text, p, q.lo, q.hi);
    } else if q.guarded {
      GuardedNotLive(text, q, p.lo, p.hi);
    } else {
      LiveEnds(text, a, q);
      LiveEnds(text, b, p);
    }
  }

  lemma CodeSpanUnique(text: string, lo: nat, hi: nat, hi': nat)
    requires CodeSpan(text, lo, hi) && CodeSpan(text, lo, hi')
    ensures hi == hi'
  {
    var n := RunEnd(text, lo) - lo;
    assert MaximalRun(text, hi - n, n) && MaximalRun(text, hi' - n, n);
  }

  /** A guarded piece cannot begin inside live text, except within one of its backtick strings. */
  lemma GuardedNotLive(text: string, p: Piece, lo: nat, hi: nat)
    requires PieceOk(text, p) && p.guarded && lo <= p.lo < hi <= |text|
    requires EscapeAt(text, p.lo) || p.lo == lo || !Tick(text, p.lo - 1)
    ensures !Live(text, lo, hi)
  {
    if EscapeAt(text, p.lo) {
      assert !LiveAt(text, lo, hi, p.lo);
    } else {
      var end := RunEnd(text, p.lo);
      assert MaximalRun(text, p.hi - (end - p.lo), end - p.lo);
      assert !NoClosing(text, end, |text|, end - p.lo);
      assert !LiveAt(text, lo, hi, p.lo);
    }
  }

  /** Live text does not end in the middle of a backtick string. */
  lemma LiveEndsRun(text: string, lo: nat, hi: nat)
    requires lo < hi <= |text| && Live(text, lo, hi)
    ensures Tick(text, hi - 1) ==> !Tick(text, hi)
  {
    if Tick(text, hi - 1) {
      var i := RunStart(text, lo, hi - 1);
      RunEndIs(text, i, hi - 1);
      assert LiveAt(text, lo, hi, i);
    }
  }

  lemma TilesSecond(text: string, a: seq<Piece>, lo: nat)
    requires a != [] && Tiles(text, a, lo, |text|)
    ensures if |a| > 1 then a[1].lo == a[0].hi && PieceOk(text, a[1]) && (a[0].guarded || a[1].guarded)
            else a[0].hi == |text|
  {
    var rest := a[1..];
    assert Tiles(text, rest, a[0].hi, |text|);
    if |a| > 1 { assert rest[0] == a[1]; }
  }

  /** Live text ends where the pieces put the next guarded one, no later. */
  lemma LiveEnds(text: string, a: seq<Piece>, q: Piece)
    requires a != [] && Tiles(text, a, q.lo, |text|) && PieceOk(text, q) && !q.guarded && !a[0].guarded
    ensures q.hi <= a[0].hi
  {
    TilesSecond(text, a, q.lo);
    LiveEndsRun(text, q.lo, a[0].hi);
    if |a| > 1 && a[0].hi < q.hi {
      GuardedNotLive(text, a[1], q.lo, q.hi);
    }
  }

  /** The first of the backticks that lead up to `j`, not before `lo`. */
  function RunStart(text: string, lo: nat, j: nat): (i: nat)
    requires lo <= j < |text| && Tick(text, j)
    ensures lo <= i <= j && (forall k :: i <= k <= j ==> Tick(text, k)) && (i == lo || !Tick(text, i - 1))
    decreases j
  {
    if j > lo && Tick(text, j - 1) then RunStart(text, lo, j - 1) else j
  }

  lemma {:induction false} RunEndIs(text: string, i: nat, j: nat)
    requires i <= j < |text| && forall k :: i <= k <= j ==> Tick(text, k)
    ensures RunEnd(text, i) > j
    decreases j - i
  {
    if i < j { RunEndIs(text, i + 1, j); }
  }

  /** Live text goes on over characters that begin no token, and over a backtick string that is not closed. */
  lemma LiveGoesOn(text: string, lo: nat, index: nat, at: nat)
    requires lo <= index <= at <= |text| && Live(text, lo, index)
    requires forall j :: index <= j < at ==> !Tick(text, j) && !EscapeAt(text, j)
    ensures Live(text, lo, at)
  {
    forall i: nat | lo <= i < at
      ensures LiveAt(text, lo, at, i)
    {
      if i < index { assert LiveAt(text, lo, index, i); }
    }
  }

  lemma LiveOverRun(text: string, lo: nat, at: nat)
    requires lo <= at < |text| && Live(text, lo, at) && Tick(text, at) && (at == lo || !Tick(text, at - 1))
    requires NoClosing(text, RunEnd(text, at), |text|, RunEnd(text, at) - at)
    ensures Live(text, lo, RunEnd(text, at))
  {
    var end := RunEnd(text, at);
    RunIs(text, at);
    forall i: nat | lo <= i < end
      ensures LiveAt(text, lo, end, i)
    {
      if i < at {
        assert LiveAt(text, lo, at, i);
      } else {
        assert Tick(text, i);
      }
    }
  }

  // ---- The scanner ----

  /** What is done when the scanner looks for a token at `index`, and live text is open from `start` on. */
  ghost predicate Progress(text: string, pieces: seq<Piece>, start: nat, index: nat) {
    && start <= index <= |text| && Tiles(text, pieces, 0, start)
    && (pieces != [] ==> pieces[|pieces| - 1].guarded)
    && Live(text, start, index) && (start < index && Tick(text, index - 1) ==> !Tick(text, index))
  }

  /** A backtick string that nothing closes is live. */
  lemma PassOver(text: string, pieces: seq<Piece>, start: nat, index: nat, at: nat)
    requires Progress(text, pieces, start, index) && at == FindToken(text, index) < |text| && Tick(text, at)
    requires NoClosing(text, RunEnd(text, at), |text|, RunEnd(text, at) - at)
    ensures Progress(text, pieces, start, RunEnd(text, at))
  {
    TokenIsFirst(text, index);
    LiveGoesOn(text, start, index, at);
    LiveOverRun(text, start, at);
  }

  function LivePiece(start: nat, at: nat): seq<Piece> {
    if start < at then [Piece(false, start, at)] else []
  }

  /** A protected piece ends the live text before it. */
  lemma PutGuarded(text: string, pieces: seq<Piece>, start: nat, index: nat, at: nat, end: nat)
    requires Progress(text, pieces, start, index) && at == FindToken(text, index) < |text|
    requires PieceOk(text, Piece(true, at, end))
    ensures Progress(text, pieces + LivePiece(start, at) + [Piece(true, at, end)], end, end)
  {
    TokenIsFirst(text, index);
    LiveGoesOn(text, start, index, at);
    var before := pieces + LivePiece(start, at);
    if start < at {
      TilesAppend(text, pieces, 0, Piece(false, start, at));
    } else {
      assert before == pieces;
    }
    TilesAppend(text, before, 0, Piece(true, at, end));
  }

  lemma PutRest(text: string, pieces: seq<Piece>, start: nat, index: nat)
    requires Progress(text, pieces, start, index) && FindToken(text, index) == |text|
    ensures Tiles(text, pieces + LivePiece(start, |text|), 0, |text|)
  {
    TokenIsFirst(text, index);
    LiveGoesOn(text, start, index, |text|);
    if start < |text| {
      TilesAppend(text, pieces, 0, Piece(false, start, |text|));
    } else {
      assert pieces + LivePiece(start, |text|) == pieces;
    }
  }

  lemma {:induction false} OnlyGuardedAppend(a: seq<Piece>, b: seq<Piece>)
    ensures OnlyGuarded(a + b) == OnlyGuarded(a) + OnlyGuarded(b)
    decreases |b|
  {
    if b == [] {
      assert a + b == a;
    } else {
      assert (a + b)[..|a + b| - 1] == a + b[..|b| - 1];
      OnlyGuardedAppend(a, b[..|b| - 1]);
    }
  }

  /** Putting a protected piece, and the live text before it, uses up the first of the protected pieces ahead. */
  lemma PutAhead(all: seq<Piece>, pieces: seq<Piece>, live: seq<Piece>, p: Piece, rest: seq<Piece>)
    requires all == OnlyGuarded(pieces) + ([p] + rest) && OnlyGuarded(live) == [] && p.guarded
    ensures all == OnlyGuarded(pieces + live + [p]) + rest
  {
    OnlyGuardedAppend(pieces, live);
    OnlyGuardedAppend(pieces + live, [p]);
    assert [p][..0] == [];
  }

  lemma PutAll(all: seq<Piece>, pieces: seq<Piece>, live: seq<Piece>)
    requires all == OnlyGuarded(pieces) + [] && OnlyGuarded(live) == []
    ensures all == OnlyGuarded(pieces + live)
  {
    OnlyGuardedAppend(pieces, live);
  }

  lemma LiveIsNotGuarded(start: nat, at: nat)
    ensures OnlyGuarded(LivePiece(start, at)) == []
  {
    var live := LivePiece(start, at);
    if live != [] { assert live[..0] == []; }
  }

  lemma SameNext(text: string, i: nat, j: nat)
    requires i <= |text| && j <= |text| && NextGuarded(text, i) == NextGuarded(text, j)
    ensures Guards(text, i) == Guards(text, j)
  {
  }

  /** A closed token begins a piece. */
  lemma ClosedAt(text: string, at: nat)
    requires at < |text| && (Tick(text, at) || EscapeAt(text, at)) && EndAt(text, at).Some?
    ensures PieceOk(text, Piece(true, at, EndAt(text, at).value))
  {
    if text[at] == '`' {
      var n := RunEnd(text, at) - at;
      ClosingIsFirst(text, at + n, n);
      SpanAt(text, at, n, FindClosing(text, at + n, n).value);
    }
  }

  lemma SpanAt(text: string, at: nat, n: nat, closing: nat)
    requires at < |text| && Tick(text, at) && RunEnd(text, at) == at + n <= closing
    requires MaximalRun(text, closing, n) && NoClosing(text, at + n, closing, n)
    ensures CodeSpan(text, at, closing + n)
  {
    assert closing + n - n == closing;
  }

  lemma NextAfter(text: string, index: nat, at: nat)
    requires index <= |text| && at == FindToken(text, index) < |text|
    ensures NextGuarded(text, index)
         == if EndAt(text, at).Some?
            then Some(Piece(true, at, EndAt(text, at).value))
            else NextGuarded(text, RunEnd(text, at))
  {
  }

  /** Where the scanner stands: what is done, and that it and what lies ahead make all protected pieces. */
  ghost predicate Scanning(text: string, pieces: seq<Piece>, start: nat, index: nat) {
    Progress(text, pieces, start, index) && Guards(text, 0) == OnlyGuarded(pieces) + Guards(text, index)
  }

  lemma ScanPast(text: string, pieces: seq<Piece>, start: nat, index: nat, at: nat)
    requires Scanning(text, pieces, start, index) && at == FindToken(text, index) < |text| && EndAt(text, at).None?
    ensures Scanning(text, pieces, start, RunEnd(text, at)) && index < RunEnd(text, at)
  {
    ClosingIsFirst(text, RunEnd(text, at), RunEnd(text, at) - at);
    PassOver(text, pieces, start, index, at);
    NextAfter(text, index, at);
    SameNext(text, index, RunEnd(text, at));
  }

  lemma ScanPut(text: string, pieces: seq<Piece>, start: nat, index: nat, at: nat)
    requires Scanning(text, pieces, start, index) && at == FindToken(text, index) < |text| && EndAt(text, at).Some?
    ensures var end := EndAt(text, at).value;
            Scanning(text, pieces + LivePiece(start, at) + [Piece(true, at, end)], end, end)
  {
    var end := EndAt(text, at).value;
    ClosedAt(text, at);
    PutGuarded(text, pieces, start, index, at, end);
    NextAfter(text, index, at);
    LiveIsNotGuarded(start, at);
    PutAhead(Guards(text, 0), pieces, LivePiece(start, at), Piece(true, at, end), Guards(text, end));
  }

  lemma ScanRest(text: string, pieces: seq<Piece>, start: nat, index: nat)
    requires Scanning(text, pieces, start, index) && FindToken(text, index) == |text|
    ensures Tiles(text, pieces + LivePiece(start, |text|), 0, |text|)
    ensures OnlyGuarded(pieces + LivePiece(start, |text|)) == Guards(text, 0)
  {
    PutRest(text, pieces, start, index);
    LiveIsNotGuarded(start, |text|);
    PutAll(Guards(text, 0), pieces, LivePiece(start, |text|));
  }

  /** Lines 170 and 174: the live text before a protected piece, if there is any. */
  method PutLive(pieces: seq<Piece>, start: nat, at: nat) returns (r: seq<Piece>)
    ensures r == pieces + LivePiece(start, at)
  {
    r := pieces;
    if start < at { r := r + [Piece(false, start, at)]; }
  }

  method Scan(text: string) returns (pieces: seq<Piece>)
    ensures Tiles(text, pieces, 0, |text|)
    ensures OnlyGuarded(pieces) == Guards(text, 0)
  {
    pieces := [];
    var start: nat, index: nat := 0, 0;
    while true
      invariant Scanning(text, pieces, start, index)
      decreases |text| - index
    {
      var at := FindToken(text, index);
      if at == |text| { break; }
      var end := EndAt(text, at);
      if end.None? {
        ScanPast(text, pieces, start, index, at);
        index := RunEnd(text, at);
        continue;
      }
      ScanPut(text, pieces, start, index, at);
      var before := PutLive(pieces, start, at);
      pieces := before + [Piece(true, at, end.value)];
      start, index := end.value, end.value;
    }
    ScanRest(text, pieces, start, index);
    pieces := PutLive(pieces, start, |text|);
  }
}
