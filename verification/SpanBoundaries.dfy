/** content.py cuts all prose between two fences as one text, while section 6.1 of CommonMark 0.31 looks for code spans
    within one block: when cutting at line boundaries gives the same protected pieces. */
module SpanBoundaries {
  import opened Basics
  import opened Spans

  /** A place between two lines: no token reaches from the character before it to the one after. */
  predicate Boundary(text: string, p: nat) {
    0 < p <= |text| && text[p - 1] == '\n'
  }

  // ---- The text before a boundary, on its own ----

  lemma {:induction false} TokensBefore(text: string, p: nat, i: nat)
    requires Boundary(text, p) && i <= p
    ensures FindToken(text[..p], i) == if FindToken(text, i) < p then FindToken(text, i) else p
    decreases p - i
  {
    var pre := text[..p];
    if i < p {
      assert Tick(pre, i) <==> Tick(text, i);
      assert EscapeAt(pre, i) <==> EscapeAt(text, i);
      TokensBefore(text, p, i + 1);
    }
  }

  lemma {:induction false} RunBefore(text: string, p: nat, i: nat)
    requires Boundary(text, p) && i < p
    ensures RunEnd(text, i) < p && RunEnd(text[..p], i) == RunEnd(text, i)
    decreases p - i
  {
    if Tick(text, i) { RunBefore(text, p, i + 1); }
  }

  /** A backtick string that begins before a boundary ends before it. */
  lemma RunStops(text: string, p: nat, q: nat, n: nat)
    requires Boundary(text, p) && q < p && q + n <= |text| && forall j :: q <= j < q + n ==> Tick(text, j)
    ensures q + n < p
  {
    assert !Tick(text, p - 1);
  }

  lemma RunsBefore(text: string, p: nat, q: nat, n: nat)
    requires Boundary(text, p) && q < p && n > 0
    ensures MaximalRun(text[..p], q, n) <==> MaximalRun(text, q, n)
  {
    var pre := text[..p];
    forall j | 0 <= j < p
      ensures Tick(pre, j) <==> Tick(text, j)
    {
    }
    if MaximalRun(pre, q, n) {
      RunStops(text, p, q, n);
      assert !Tick(pre, q + n);
    }
    if MaximalRun(text, q, n) { RunStops(text, p, q, n); }
  }

  lemma {:induction false} ClosingBefore(text: string, p: nat, i: nat, n: nat)
    requires Boundary(text, p) && i <= p && n > 0
    ensures var closing := FindClosing(text, i, n);
            FindClosing(text[..p], i, n) == if closing.Some? && closing.value < p then closing else None
    decreases p - i
  {
    if i < p {
      RunsBefore(text, p, i, n);
      ClosingBefore(text, p, i + 1, n);
    }
  }

  lemma TokenBefore(text: string, p: nat, j: nat)
    requires Boundary(text, p) && j < p
    ensures Tick(text[..p], j) <==> Tick(text, j)
    ensures EscapeAt(text[..p], j) <==> EscapeAt(text, j)
  {
  }

  lemma EndBefore(text: string, p: nat, at: nat)
    requires Boundary(text, p) && at < p && (Tick(text, at) || EscapeAt(text, at))
    ensures Tick(text[..p], at) || EscapeAt(text[..p], at)
    ensures EndAt(text[..p], at) == Until(EndAt(text, at), p)
  {
    TokenBefore(text, p, at);
    if text[at] == '`' { RunEndBefore(text, text[..p], p, at); }
  }

  lemma RunEndBefore(text: string, pre: string, p: nat, at: nat)
    requires Boundary(text, p) && pre == text[..p] && at < p && Tick(text, at) && Tick(pre, at)
    ensures EndAt(pre, at) == Until(EndAt(text, at), p)
  {
    RunBefore(text, p, at);
    var n := RunEnd(text, at) - at;
    ClosedBefore(text, pre, p, at + n, n);
    EndOfRun(text, at, n);
    EndOfRun(pre, at, n);
  }

  lemma ClosedBefore(text: string, pre: string, p: nat, i: nat, n: nat)
    requires Boundary(text, p) && pre == text[..p] && i <= p && n > 0
    ensures MovedEnd(FindClosing(pre, i, n), n) == Until(MovedEnd(FindClosing(text, i, n), n), p)
  {
    ClosingBefore(text, p, i, n);
    ClosingIsFirst(text, i, n);
    if FindClosing(text, i, n).Some? { ClosingFits(text, p, FindClosing(text, i, n).value, n); }
  }

  /** The end, if it is not after `p`. */
  function Until(end: Option<nat>, p: nat): Option<nat> {
    if end.Some? && end.value <= p then end else None
  }

  lemma EndOfRun(text: string, at: nat, n: nat)
    requires at < |text| && Tick(text, at) && RunEnd(text, at) == at + n
    ensures EndAt(text, at) == MovedEnd(FindClosing(text, at + n, n), n)
  {
  }

  lemma ClosingFits(text: string, p: nat, q: nat, n: nat)
    requires Boundary(text, p) && MaximalRun(text, q, n) && n > 0
    ensures q < p <==> q + n <= p
  {
    if q < p { RunStops(text, p, q, n); }
  }

  /** Nothing before `p` begins a token, so looking from `p` on finds the same. */
  lemma {:induction false} TokenLater(text: string, i: nat, p: nat)
    requires i <= p <= |text| && FindToken(text, i) >= p
    ensures FindToken(text, p) == FindToken(text, i)
    decreases p - i
  {
    if i < p { TokenLater(text, i + 1, p); }
  }

  // ---- The text after a boundary, on its own ----

  function Moved(p: Piece, d: nat): Piece {
    Piece(p.guarded, p.lo + d, p.hi + d)
  }

  function Shift(pieces: seq<Piece>, d: nat): seq<Piece> {
    seq(|pieces|, i requires 0 <= i < |pieces| => Moved(pieces[i], d))
  }

  lemma {:induction false} TokensAfter(text: string, p: nat, i: nat)
    requires p <= |text| && i <= |text| - p
    ensures FindToken(text, p + i) == p + FindToken(text[p..], i)
    decreases |text| - i
  {
    var suf := text[p..];
    if i < |suf| {
      assert suf[i] == text[p + i];
      assert Tick(suf, i) <==> Tick(text, p + i);
      assert EscapeAt(suf, i) <==> EscapeAt(text, p + i) by {
        if i + 1 < |suf| { assert suf[i + 1] == text[p + i + 1]; }
      }
      TokensAfter(text, p, i + 1);
      assert p + (i + 1) == (p + i) + 1;
    }
  }

  lemma {:induction false} RunAfter(text: string, p: nat, i: nat)
    requires p <= |text| && i <= |text| - p
    ensures RunEnd(text, p + i) == p + RunEnd(text[p..], i)
    decreases |text| - i
  {
    assert Tick(text[p..], i) <==> Tick(text, p + i);
    if Tick(text, p + i) {
      RunAfter(text, p, i + 1);
      assert p + (i + 1) == (p + i) + 1;
    }
  }

  lemma RunsAfter(text: string, p: nat, q: nat, n: nat)
    requires Boundary(text, p) && q <= |text| - p
    ensures MaximalRun(text[p..], q, n) <==> MaximalRun(text, p + q, n)
  {
    var suf := text[p..];
    assert forall j :: 0 <= j <= |suf| ==> (Tick(suf, j) <==> Tick(text, p + j));
    if MaximalRun(suf, q, n) {
      forall j | p + q <= j < p + q + n
        ensures Tick(text, j)
      {
        assert Tick(suf, j - p);
      }
      if q == 0 { assert !Tick(text, p - 1); } else { assert !Tick(suf, q - 1); }
    }
    if MaximalRun(text, p + q, n) {
      forall j | q <= j < q + n
        ensures Tick(suf, j)
      {
        assert Tick(text, p + j);
      }
    }
  }

  function MovedEnd(end: Option<nat>, d: nat): Option<nat> {
    if end.None? then None else Some(end.value + d)
  }

  lemma {:induction false} ClosingAfter(text: string, p: nat, i: nat, n: nat)
    requires Boundary(text, p) && i <= |text| - p && n > 0
    ensures FindClosing(text, p + i, n) == MovedEnd(FindClosing(text[p..], i, n), p)
    decreases |text| - i
  {
    if i < |text| - p {
      RunsAfter(text, p, i, n);
      ClosingAfter(text, p, i + 1, n);
      assert p + (i + 1) == (p + i) + 1;
    }
  }

  lemma TokenAfter(text: string, p: nat, i: nat)
    requires Boundary(text, p) && i < |text| - p
    ensures Tick(text[p..], i) <==> Tick(text, p + i)
    ensures EscapeAt(text[p..], i) <==> EscapeAt(text, p + i)
  {
    var suf := text[p..];
    assert suf[i] == text[p + i] && (i + 1 < |suf| ==> suf[i + 1] == text[p + i + 1]);
  }

  lemma EndAfter(text: string, p: nat, at: nat)
    requires Boundary(text, p) && at < |text| - p && (Tick(text, p + at) || EscapeAt(text, p + at))
    ensures Tick(text[p..], at) || EscapeAt(text[p..], at)
    ensures EndAt(text, p + at) == MovedEnd(EndAt(text[p..], at), p)
  {
    var suf := text[p..];
    TokenAfter(text, p, at);
    assert suf[at] == text[p + at];
    if text[p + at] == '`' { RunEndAfter(text, suf, p, at); }
  }

  lemma RunEndAfter(text: string, suf: string, p: nat, at: nat)
    requires Boundary(text, p) && suf == text[p..] && at < |suf| && Tick(text, p + at) && Tick(suf, at)
    ensures EndAt(text, p + at) == MovedEnd(EndAt(suf, at), p)
  {
    RunAfter(text, p, at);
    var n := RunEnd(suf, at) - at;
    EndOfRun(suf, at, n);
    EndOfRun(text, p + at, n);
    ClosingAfter(text, p, at + n, n);
    assert p + (at + n) == (p + at) + n;
  }

  // ---- The scanner over its tokens ----

  /** The first closed token from `i` on, as a piece: `token` finds tokens, `end` their ends, `run` the ends of those
      that are not closed. */
  function Seek(token: nat -> nat, end: nat -> Option<nat>, run: nat -> nat, i: nat, limit: nat): Option<Piece>
    decreases limit - i
  {
    var at := token(i);
    if !(i <= at < limit) then None
    else if end(at).Some? then Some(Piece(true, at, end(at).value))
    else if run(at) <= at then None
    else Seek(token, end, run, run(at), limit)
  }

  function TokenOf(text: string): nat -> nat {
    (i: nat) => if i <= |text| then FindToken(text, i) else i
  }

  function EndOf(text: string): nat -> Option<nat> {
    (at: nat) => if at < |text| && (Tick(text, at) || EscapeAt(text, at)) then EndAt(text, at) else None
  }

  function RunOf(text: string): nat -> nat {
    (at: nat) => if at < |text| then RunEnd(text, at) else at
  }

  lemma {:induction false} NextSeeks(text: string, i: nat)
    requires i <= |text|
    ensures NextGuarded(text, i) == Seek(TokenOf(text), EndOf(text), RunOf(text), i, |text|)
    decreases |text| - i
  {
    var at := FindToken(text, i);
    if at < |text| && EndAt(text, at).None? { NextSeeks(text, RunEnd(text, at)); }
  }

  function MovedPiece(p: Option<Piece>, d: nat): Option<Piece> {
    if p.None? then None else Some(Moved(p.value, d))
  }

  /** One scanner at `d + j` does what another does at `j`. */
  ghost predicate MovedAt(token: nat -> nat, end: nat -> Option<nat>, run: nat -> nat,
                          token': nat -> nat, end': nat -> Option<nat>, run': nat -> nat, d: nat, j: nat) {
    token(d + j) == d + token'(j) && end(d + j) == MovedEnd(end'(j), d) && run(d + j) == d + run'(j)
  }

  ghost predicate AllMoved(token: nat -> nat, end: nat -> Option<nat>, run: nat -> nat,
                           token': nat -> nat, end': nat -> Option<nat>, run': nat -> nat, d: nat, limit: nat) {
    forall j: nat {:trigger MovedAt(token, end, run, token', end', run', d, j)} ::
      j <= limit ==> MovedAt(token, end, run, token', end', run', d, j) && run'(j) <= limit
  }

  lemma {:induction false} SeekMoved(token: nat -> nat, end: nat -> Option<nat>, run: nat -> nat,
                                     token': nat -> nat, end': nat -> Option<nat>, run': nat -> nat, d: nat, i: nat,
                                     limit: nat)
    requires i <= limit
    requires AllMoved(token, end, run, token', end', run', d, limit)
    ensures Seek(token, end, run, d + i, d + limit) == MovedPiece(Seek(token', end', run', i, limit), d)
    decreases limit - i
  {
    assert MovedAt(token, end, run, token', end', run', d, i);
    var at := token'(i);
    if i <= at < limit {
      assert MovedAt(token, end, run, token', end', run', d, at);
      if end'(at).None? && run'(at) > at {
        SeekMoved(token, end, run, token', end', run', d, run'(at), limit);
      }
    }
  }

  /** Before `p`, one scanner does what another does, except that it sees nothing that ends after `p`. */
  ghost predicate KeptAt(token: nat -> nat, end: nat -> Option<nat>, run: nat -> nat,
                         token': nat -> nat, end': nat -> Option<nat>, run': nat -> nat, p: nat, j: nat) {
    && j <= token(j) && token'(j) == (if token(j) < p then token(j) else p)
    && (token(j) >= p ==> token(p) == token(j))
    && end'(j) == Until(end(j), p) && run'(j) == run(j)
  }

  /** A token begins where it is found, ends later, and if it is not closed its run ends before `p`. */
  ghost predicate TokenOk(token: nat -> nat, end: nat -> Option<nat>, run: nat -> nat, p: nat, j: nat) {
    var at := token(j);
    (end(at).Some? ==> end(at).value > at) && (at < p && end(at).None? ==> at < run(at) < p)
  }

  ghost predicate AllKept(token: nat -> nat, end: nat -> Option<nat>, run: nat -> nat,
                          token': nat -> nat, end': nat -> Option<nat>, run': nat -> nat, p: nat) {
    forall j: nat {:trigger KeptAt(token, end, run, token', end', run', p, j)} ::
      j < p ==> KeptAt(token, end, run, token', end', run', p, j)
  }

  ghost predicate AllOk(token: nat -> nat, end: nat -> Option<nat>, run: nat -> nat, p: nat, limit: nat) {
    forall j: nat {:trigger TokenOk(token, end, run, p, j)} :: j <= limit ==> TokenOk(token, end, run, p, j)
  }

  /** What is found before `p` agrees with what the part before it finds, and beyond `p` with what is found from `p`
      on. */
  lemma {:induction false} SeekBefore(token: nat -> nat, end: nat -> Option<nat>, run: nat -> nat,
                                      token': nat -> nat, end': nat -> Option<nat>, run': nat -> nat, p: nat, i: nat,
                                      limit: nat)
    requires i <= p <= limit
    requires AllKept(token, end, run, token', end', run', p) && AllOk(token, end, run, p, limit) && token'(p) >= p
    ensures var next := Seek(token, end, run, i, limit);
            && (next.Some? && next.value.hi <= p ==> Seek(token', end', run', i, p) == next)
            && (next.None? || next.value.lo >= p ==>
                Seek(token', end', run', i, p) == None && Seek(token, end, run, p, limit) == next)
    decreases p - i
  {
    assert TokenOk(token, end, run, p, i);
    var at := token(i);
    if i < p {
      assert KeptAt(token, end, run, token', end', run', p, i);
      if at < p {
        assert KeptAt(token, end, run, token', end', run', p, at);
        if end(at).None? {
          SeekBefore(token, end, run, token', end', run', p, run(at), limit);
        }
      } else {
        assert Seek(token, end, run, i, limit) == Seek(token, end, run, p, limit);
        SeekLater(token, end, run, p, limit);
      }
    } else {
      SeekLater(token, end, run, p, limit);
    }
  }

  /** What is found from `p` on ends after `p`. */
  lemma {:induction false} SeekLater(token: nat -> nat, end: nat -> Option<nat>, run: nat -> nat, p: nat, limit: nat)
    requires p <= limit
    requires AllOk(token, end, run, p, limit)
    ensures Seek(token, end, run, p, limit).Some? ==> Seek(token, end, run, p, limit).value.hi > p
  {
    SeekEnds(token, end, run, p, p, limit);
  }

  lemma {:induction false} SeekEnds(token: nat -> nat, end: nat -> Option<nat>, run: nat -> nat, p: nat, i: nat,
                                    limit: nat)
    requires i <= limit
    requires AllOk(token, end, run, p, limit)
    ensures Seek(token, end, run, i, limit).Some? ==> Seek(token, end, run, i, limit).value.hi > i
    decreases limit - i
  {
    assert TokenOk(token, end, run, p, i);
    var at := token(i);
    if i <= at < limit && end(at).None? && run(at) > at && run(at) <= limit {
      SeekEnds(token, end, run, p, run(at), limit);
    }
  }

  lemma ShiftCons(q: Piece, rest: seq<Piece>, d: nat)
    ensures Shift([q] + rest, d) == [Moved(q, d)] + Shift(rest, d)
  {
  }

  /** The pieces that `next` finds one after the other, up to `limit`. */
  function Chain(next: nat -> Option<Piece>, i: nat, limit: nat): seq<Piece>
    decreases limit - i
  {
    var p := next(i);
    if p.None? || !(i < p.value.hi <= limit) then [] else [p.value] + Chain(next, p.value.hi, limit)
  }

  function NextOf(text: string): nat -> Option<Piece> {
    (i: nat) => if i <= |text| then NextGuarded(text, i) else None
  }

  lemma {:induction false} GuardsChain(text: string, i: nat)
    requires i <= |text|
    ensures Guards(text, i) == Chain(NextOf(text), i, |text|)
    decreases |text| - i
  {
    if NextGuarded(text, i).Some? { GuardsChain(text, NextGuarded(text, i).value.hi); }
  }

  ghost predicate NextMoved(next: nat -> Option<Piece>, other: nat -> Option<Piece>, d: nat, j: nat) {
    next(d + j) == MovedPiece(other(j), d)
  }

  ghost predicate AllNextMoved(next: nat -> Option<Piece>, other: nat -> Option<Piece>, d: nat, limit: nat) {
    forall j: nat {:trigger NextMoved(next, other, d, j)} :: j <= limit ==> NextMoved(next, other, d, j)
  }

  lemma {:induction false} ChainMoved(next: nat -> Option<Piece>, other: nat -> Option<Piece>, d: nat, i: nat,
                                      limit: nat)
    requires i <= limit
    requires AllNextMoved(next, other, d, limit)
    ensures Chain(next, d + i, d + limit) == Shift(Chain(other, i, limit), d)
    decreases limit - i
  {
    var p := other(i);
    assert NextMoved(next, other, d, i);
    if p.Some? && i < p.value.hi <= limit {
      ChainMoved(next, other, d, p.value.hi, limit);
      ShiftCons(p.value, Chain(other, p.value.hi, limit), d);
    }
  }

  /** What `next` finds before `p` agrees with what `before` finds there, and beyond `p` with what it finds from `p`
      on. */
  ghost predicate Meets(next: nat -> Option<Piece>, before: nat -> Option<Piece>, p: nat, i: nat) {
    && (next(i).Some? && next(i).value.hi <= p ==> before(i) == next(i))
    && (next(i).None? || next(i).value.lo >= p ==> before(i) == None && next(p) == next(i))
  }

  /** Without a piece that crosses, the two parts are found one after the other. */
  lemma {:induction false} ChainApart(next: nat -> Option<Piece>, before: nat -> Option<Piece>, p: nat, i: nat,
                                      limit: nat)
    requires i <= p <= limit && (forall j: nat :: i <= j <= p ==> Meets(next, before, p, j))
    requires forall j: nat :: i <= j <= limit && next(j).Some? ==> j <= next(j).value.lo < next(j).value.hi <= limit
    requires !Crosses(Chain(next, i, limit), p)
    ensures Chain(next, i, limit) == Chain(before, i, p) + Chain(next, p, limit)
    decreases p - i
  {
    assert Meets(next, before, p, i);
    var q := next(i);
    if q.Some? && q.value.lo < p {
      var rest := Chain(next, q.value.hi, limit);
      var all := Chain(next, i, limit);
      assert all == [q.value] + rest && all[0] == q.value;
      NoCrossing(all, p);
      ChainApart(next, before, p, q.value.hi, limit);
      assert Chain(before, i, p) == [q.value] + Chain(before, q.value.hi, p);
    }
  }

  lemma NoCrossing(all: seq<Piece>, p: nat)
    requires all != [] && !Crosses(all, p)
    ensures !Crosses(all[1..], p) && (all[0].lo < p ==> all[0].hi <= p)
  {
    forall j | 0 <= j < |all| - 1
      ensures !(all[1..][j].lo < p < all[1..][j].hi)
    {
      assert all[1..][j] == all[j + 1];
    }
  }

  // ---- The whole text and its two parts ----

  /** A protected piece reaches over the boundary. */
  predicate Crosses(pieces: seq<Piece>, p: nat) {
    exists i :: 0 <= i < |pieces| && pieces[i].lo < p < pieces[i].hi
  }

  lemma MovesAt(text: string, suf: string, p: nat, j: nat)
    requires Boundary(text, p) && suf == text[p..] && j <= |suf|
    ensures MovedAt(TokenOf(text), EndOf(text), RunOf(text), TokenOf(suf), EndOf(suf), RunOf(suf), p, j)
    ensures RunOf(suf)(j) <= |suf|
  {
    TokensAfter(text, p, j);
    if j < |suf| {
      RunAfter(text, p, j);
      EndMoved(text, suf, p, j);
    }
  }

  lemma EndMoved(text: string, suf: string, p: nat, j: nat)
    requires Boundary(text, p) && suf == text[p..] && j < |suf|
    ensures EndOf(text)(p + j) == MovedEnd(EndOf(suf)(j), p)
  {
    TokenAfter(text, p, j);
    if Tick(text, p + j) || EscapeAt(text, p + j) { EndAfter(text, p, j); }
  }

  lemma AllMove(text: string, suf: string, p: nat)
    requires Boundary(text, p) && suf == text[p..]
    ensures AllMoved(TokenOf(text), EndOf(text), RunOf(text), TokenOf(suf), EndOf(suf), RunOf(suf), p, |suf|)
  {
    forall j: nat | j <= |suf|
      ensures MovedAt(TokenOf(text), EndOf(text), RunOf(text), TokenOf(suf), EndOf(suf), RunOf(suf), p, j)
              && RunOf(suf)(j) <= |suf|
    {
      MovesAt(text, suf, p, j);
    }
  }

  lemma SeekAfterwards(text: string, suf: string, p: nat, i: nat)
    requires Boundary(text, p) && suf == text[p..] && i <= |suf|
    ensures Seek(TokenOf(text), EndOf(text), RunOf(text), p + i, p + |suf|)
         == MovedPiece(Seek(TokenOf(suf), EndOf(suf), RunOf(suf), i, |suf|), p)
  {
    AllMove(text, suf, p);
    SeekMoved(TokenOf(text), EndOf(text), RunOf(text), TokenOf(suf), EndOf(suf), RunOf(suf), p, i, |suf|);
  }

  lemma NextSeeksTo(text: string, i: nat, n: nat)
    requires i <= |text| == n
    ensures NextOf(text)(i) == Seek(TokenOf(text), EndOf(text), RunOf(text), i, n)
  {
    NextSeeks(text, i);
  }

  lemma NextAfterwards(text: string, suf: string, p: nat, i: nat)
    requires Boundary(text, p) && suf == text[p..] && i <= |suf|
    ensures NextMoved(NextOf(text), NextOf(suf), p, i)
  {
    SeekAfterwards(text, suf, p, i);
    NextSeeksTo(text, p + i, p + |suf|);
    NextSeeksTo(suf, i, |suf|);
  }

  lemma AllNextMove(text: string, suf: string, p: nat)
    requires Boundary(text, p) && suf == text[p..]
    ensures AllNextMoved(NextOf(text), NextOf(suf), p, |suf|)
  {
    forall j: nat | j <= |suf|
      ensures NextMoved(NextOf(text), NextOf(suf), p, j)
    {
      NextAfterwards(text, suf, p, j);
    }
  }

  /** Two chains from the same place on, one moved by `d`. */
  lemma ChainsMoved(next: nat -> Option<Piece>, other: nat -> Option<Piece>, d: nat, limit: nat, to: nat,
                    all: seq<Piece>, rest: seq<Piece>)
    requires AllNextMoved(next, other, d, limit) && to == d + limit
    requires all == Chain(next, d, to) && rest == Chain(other, 0, limit)
    ensures all == Shift(rest, d)
  {
    ChainMoved(next, other, d, 0, limit);
  }

  lemma GuardsAfter(text: string, suf: string, p: nat)
    requires Boundary(text, p) && suf == text[p..]
    ensures Guards(text, p) == Shift(Guards(suf, 0), p)
  {
    GuardsChain(text, p);
    GuardsChain(suf, 0);
    AllNextMove(text, suf, p);
    ChainsMoved(NextOf(text), NextOf(suf), p, |suf|, |text|, Guards(text, p), Guards(suf, 0));
  }

  lemma EndKept(text: string, pre: string, p: nat, j: nat)
    requires Boundary(text, p) && pre == text[..p] && j < p
    ensures EndOf(pre)(j) == Until(EndOf(text)(j), p) && (EndOf(text)(j).Some? ==> EndOf(text)(j).value > j)
  {
    TokenBefore(text, p, j);
    if Tick(text, j) || EscapeAt(text, j) { EndBefore(text, p, j); }
  }

  lemma KeepsAt(text: string, pre: string, p: nat, j: nat)
    requires Boundary(text, p) && pre == text[..p] && j < p
    ensures KeptAt(TokenOf(text), EndOf(text), RunOf(text), TokenOf(pre), EndOf(pre), RunOf(pre), p, j)
  {
    TokensBefore(text, p, j);
    RunBefore(text, p, j);
    EndKept(text, pre, p, j);
    if FindToken(text, j) >= p { TokenLater(text, j, p); }
  }

  lemma TokenIsOk(text: string, p: nat, j: nat)
    requires Boundary(text, p) && j <= |text|
    ensures TokenOk(TokenOf(text), EndOf(text), RunOf(text), p, j)
  {
    var at := FindToken(text, j);
    if at < p { RunBefore(text, p, at); }
  }

  lemma AllKeep(text: string, pre: string, p: nat)
    requires Boundary(text, p) && pre == text[..p]
    ensures AllKept(TokenOf(text), EndOf(text), RunOf(text), TokenOf(pre), EndOf(pre), RunOf(pre), p)
  {
    forall j: nat | j < p
      ensures KeptAt(TokenOf(text), EndOf(text), RunOf(text), TokenOf(pre), EndOf(pre), RunOf(pre), p, j)
    {
      KeepsAt(text, pre, p, j);
    }
  }

  lemma AllTokensOk(text: string, p: nat)
    requires Boundary(text, p)
    ensures AllOk(TokenOf(text), EndOf(text), RunOf(text), p, |text|)
  {
    forall j: nat | j <= |text|
      ensures TokenOk(TokenOf(text), EndOf(text), RunOf(text), p, j)
    {
      TokenIsOk(text, p, j);
    }
  }

  lemma SeekKept(text: string, pre: string, p: nat, i: nat)
    requires Boundary(text, p) && pre == text[..p] && i <= p
    ensures var next := Seek(TokenOf(text), EndOf(text), RunOf(text), i, |text|);
            var before := Seek(TokenOf(pre), EndOf(pre), RunOf(pre), i, p);
            && (next.Some? && next.value.hi <= p ==> before == next)
            && (next.None? || next.value.lo >= p ==>
                  before == None && Seek(TokenOf(text), EndOf(text), RunOf(text), p, |text|) == next)
  {
    AllKeep(text, pre, p);
    AllTokensOk(text, p);
    SeekBefore(TokenOf(text), EndOf(text), RunOf(text), TokenOf(pre), EndOf(pre), RunOf(pre), p, i, |text|);
  }

  lemma NextBefore(text: string, pre: string, p: nat, i: nat)
    requires Boundary(text, p) && pre == text[..p] && i <= p
    ensures Meets(NextOf(text), NextOf(pre), p, i)
  {
    SeekKept(text, pre, p, i);
    NextSeeks(text, i);
    NextSeeks(text, p);
    NextSeeks(pre, i);
  }

  lemma AllMeet(text: string, pre: string, p: nat)
    requires Boundary(text, p) && pre == text[..p]
    ensures forall j: nat :: 0 <= j <= p ==> Meets(NextOf(text), NextOf(pre), p, j)
    ensures forall j: nat :: j <= |text| && NextOf(text)(j).Some? ==>
              j <= NextOf(text)(j).value.lo < NextOf(text)(j).value.hi <= |text|
  {
    forall j: nat | j <= p
      ensures Meets(NextOf(text), NextOf(pre), p, j)
    {
      NextBefore(text, pre, p, j);
    }
  }

  lemma ChainKept(text: string, pre: string, p: nat)
    requires Boundary(text, p) && pre == text[..p] && !Crosses(Chain(NextOf(text), 0, |text|), p)
    ensures Chain(NextOf(text), 0, |text|) == Chain(NextOf(pre), 0, p) + Chain(NextOf(text), p, |text|)
  {
    AllMeet(text, pre, p);
    ChainApart(NextOf(text), NextOf(pre), p, 0, |text|);
  }

  lemma GuardsApart(text: string, pre: string, p: nat)
    requires Boundary(text, p) && pre == text[..p] && !Crosses(Guards(text, 0), p)
    ensures Guards(text, 0) == Guards(pre, 0) + Guards(text, p)
  {
    GuardsChain(text, 0);
    GuardsChain(text, p);
    GuardsChain(pre, 0);
    ChainKept(text, pre, p);
  }

  /** Every protected piece lies within the text it is a piece of. */
  lemma {:induction false} GuardsWithin(text: string, i: nat, k: nat)
    requires i <= |text| && k < |Guards(text, i)|
    ensures i <= Guards(text, i)[k].lo < Guards(text, i)[k].hi <= |text|
    decreases |text| - i
  {
    var next := NextGuarded(text, i).value;
    assert Guards(text, i) == [next] + Guards(text, next.hi);
    if k > 0 { GuardsWithin(text, next.hi, k - 1); }
  }

  /** Cutting the lines before a boundary and those after it separately gives the protected pieces of the whole if and
      only if none of these crosses the boundary. */
  lemma DivideExactly(text: string, p: nat)
    requires Boundary(text, p)
    ensures Guards(text, 0) == Guards(text[..p], 0) + Shift(Guards(text[p..], 0), p) <==> !Crosses(Guards(text, 0), p)
  {
    GuardsAfter(text, text[p..], p);
    var before, after := Guards(text[..p], 0), Shift(Guards(text[p..], 0), p);
    if !Crosses(Guards(text, 0), p) { GuardsApart(text, text[..p], p); }
    var parts: seq<Piece> := before + after;
    forall k | 0 <= k < |parts|
      ensures !(parts[k].lo < p < parts[k].hi)
    {
      if k < |before| { GuardsWithin(text[..p], 0, k); } else { GuardsWithin(text[p..], 0, k - |before|); }
    }
  }

  /** The protected pieces of a text that is first cut at each of these places. */
  function Divided(text: string, cuts: seq<nat>): seq<Piece>
    requires forall i :: 0 <= i < |cuts| ==> cuts[i] <= |text|
    requires forall i, j :: 0 <= i < j < |cuts| ==> cuts[i] <= cuts[j]
    decreases |cuts|
  {
    if cuts == [] then Guards(text, 0)
    else
      var n := |cuts| - 1;
      Divided(text[..cuts[n]], cuts[..n]) + Shift(Guards(text[cuts[n]..], 0), cuts[n])
  }

  predicate Cuts(text: string, cuts: seq<nat>) {
    && (forall i :: 0 <= i < |cuts| ==> Boundary(text, cuts[i]))
    && (forall i, j :: 0 <= i < j < |cuts| ==> cuts[i] < cuts[j])
  }

  lemma FrontCuts(text: string, cuts: seq<nat>)
    requires Cuts(text, cuts) && cuts != []
    ensures var n := |cuts| - 1; Cuts(text[..cuts[n]], cuts[..n])
  {
  }

  /** The piece lies within the text and crosses none of these places. */
  predicate Apart(q: Piece, cuts: seq<nat>, limit: nat) {
    q.hi <= limit && forall i :: 0 <= i < |cuts| ==> !(q.lo < cuts[i] < q.hi)
  }

  lemma ApartLast(q: Piece, cuts: seq<nat>, limit: nat)
    requires cuts != [] && cuts[|cuts| - 1] <= limit && Apart(q, cuts[..|cuts| - 1], cuts[|cuts| - 1])
    ensures Apart(q, cuts, limit)
  {
    assert forall i :: 0 <= i < |cuts| - 1 ==> cuts[..|cuts| - 1][i] == cuts[i];
  }

  /** No piece of a divided text crosses a cut, nor does one leave the text. */
  lemma {:induction false} DividedApart(text: string, cuts: seq<nat>, k: nat)
    requires Cuts(text, cuts) && k < |Divided(text, cuts)|
    ensures Apart(Divided(text, cuts)[k], cuts, |text|)
    decreases |cuts|
  {
    if cuts == [] {
      GuardsWithin(text, 0, k);
    } else {
      var n := |cuts| - 1;
      var p := cuts[n];
      var before := Divided(text[..p], cuts[..n]);
      FrontCuts(text, cuts);
      if k < |before| {
        DividedApart(text[..p], cuts[..n], k);
        ApartLast(before[k], cuts, |text|);
      } else {
        ShiftedApart(text, cuts, k - |before|);
      }
    }
  }

  lemma ShiftedApart(text: string, cuts: seq<nat>, k: nat)
    requires Cuts(text, cuts) && cuts != []
    requires var p := cuts[|cuts| - 1]; k < |Guards(text[p..], 0)|
    ensures var p := cuts[|cuts| - 1]; Apart(Shift(Guards(text[p..], 0), p)[k], cuts, |text|)
  {
    var p := cuts[|cuts| - 1];
    GuardsWithin(text[p..], 0, k);
    assert forall i :: 0 <= i < |cuts| ==> cuts[i] <= p;
  }

  /** What does not cross a place in the whole does not in a part of the pieces. */
  lemma PartCrosses(all: seq<Piece>, part: seq<Piece>, rest: seq<Piece>, p: nat)
    requires all == part + rest && !Crosses(all, p)
    ensures !Crosses(part, p)
  {
    forall k | 0 <= k < |part|
      ensures !(part[k].lo < p < part[k].hi)
    {
      assert part[k] == all[k];
    }
  }

  /** Cutting at any number of line boundaries, block by block, gives the protected pieces of the whole if and only if
      none of these crosses one of the boundaries. */
  lemma {:induction false} DivideAllExactly(text: string, cuts: seq<nat>)
    requires Cuts(text, cuts)
    ensures Divided(text, cuts) == Guards(text, 0)
       <==> forall i :: 0 <= i < |cuts| ==> !Crosses(Guards(text, 0), cuts[i])
    decreases |cuts|
  {
    if Divided(text, cuts) == Guards(text, 0) {
      forall i | 0 <= i < |cuts|
        ensures !Crosses(Guards(text, 0), cuts[i])
      {
        forall k | 0 <= k < |Guards(text, 0)|
          ensures !(Guards(text, 0)[k].lo < cuts[i] < Guards(text, 0)[k].hi)
        {
          DividedApart(text, cuts, k);
        }
      }
    }
    if cuts != [] && forall i :: 0 <= i < |cuts| ==> !Crosses(Guards(text, 0), cuts[i]) {
      DivideFront(text, cuts);
    }
  }

  lemma DivideFront(text: string, cuts: seq<nat>)
    requires Cuts(text, cuts) && cuts != []
    requires forall i :: 0 <= i < |cuts| ==> !Crosses(Guards(text, 0), cuts[i])
    ensures Divided(text, cuts) == Guards(text, 0)
    decreases |cuts|, 0
  {
    var n := |cuts| - 1;
    var p := cuts[n];
    FrontCuts(text, cuts);
    DivideExactly(text, p);
    forall i | 0 <= i < n
      ensures !Crosses(Guards(text[..p], 0), cuts[..n][i])
    {
      PartCrosses(Guards(text, 0), Guards(text[..p], 0), Shift(Guards(text[p..], 0), p), cuts[i]);
    }
    DivideAllExactly(text[..p], cuts[..n]);
  }

  /** Two paragraphs, each with one backtick, and an image between them. */
  const ACROSS := "`![x](u)\n\nb`"

  /** The two backticks are one code span to content.py, although the blank line between them ends the block that
      section 6.1 looks for the closing one in; so the image is not live. Each paragraph on its own has no code span. */
  lemma SpanAcrossParagraphs()
    ensures Boundary(ACROSS, 10) && CodeSpan(ACROSS, 0, 12) && Crosses(Guards(ACROSS, 0), 10)
    ensures Guards(ACROSS[..10], 0) == [] && Guards(ACROSS[10..], 0) == []
  {
    AcrossIsOne();
    assert Crosses(Guards(ACROSS, 0), 10) by {
      assert Guards(ACROSS, 0)[0].lo < 10 < Guards(ACROSS, 0)[0].hi;
    }
    AcrossApart();
  }

  lemma AcrossApart()
    ensures Guards(ACROSS[..10], 0) == [] && Guards(ACROSS[10..], 0) == []
  {
    var first, second := "`![x](u)\n\n", "b`";
    assert ACROSS[..10] == first && ACROSS[10..] == second;
    NoneClosed(first, 0);
    NoneClosed(second, 1);
  }

  lemma AcrossIsOne()
    ensures CodeSpan(ACROSS, 0, 12) && |Guards(ACROSS, 0)| > 0 && Guards(ACROSS, 0)[0] == Piece(true, 0, 12)
  {
    assert RunEnd(ACROSS, 1) == 1 && RunEnd(ACROSS, 0) == 1;
    OneClosing(ACROSS, 1);
    ClosingIsFirst(ACROSS, 1, 1);
  }

  /** In a text whose only backtick is at `q` nothing is protected. */
  lemma NoneClosed(text: string, q: nat)
    requires q < |text| && text[q] == '`' && forall i :: 0 <= i < |text| && i != q ==> text[i] != '`' && text[i] != '\\'
    ensures Guards(text, 0) == []
  {
    TokenIs(text, 0, q);
    assert RunEnd(text, q + 1) == q + 1 && RunEnd(text, q) == q + 1;
    NoToken(text, q + 1);
    NoClosingAfter(text, q + 1);
    assert NextGuarded(text, q + 1) == None;
  }

  lemma {:induction false} TokenIs(text: string, i: nat, q: nat)
    requires i <= q < |text| && text[q] == '`' && forall j :: i <= j < q ==> text[j] != '`' && text[j] != '\\'
    ensures FindToken(text, i) == q
    decreases q - i
  {
    if i < q { TokenIs(text, i + 1, q); }
  }

  lemma {:induction false} NoToken(text: string, i: nat)
    requires i <= |text| && forall j :: i <= j < |text| ==> text[j] != '`' && text[j] != '\\'
    ensures FindToken(text, i) == |text|
    decreases |text| - i
  {
    if i < |text| { NoToken(text, i + 1); }
  }

  lemma {:induction false} NoClosingAfter(text: string, i: nat)
    requires i <= |text| && forall j :: i <= j < |text| ==> text[j] != '`'
    ensures FindClosing(text, i, 1) == None
    decreases |text| - i
  {
    if i < |text| {
      assert !MaximalRun(text, i, 1) by { assert !Tick(text, i); }
      NoClosingAfter(text, i + 1);
    }
  }

  lemma {:induction false} OneClosing(text: string, i: nat)
    requires text == ACROSS && 1 <= i <= 11
    ensures FindClosing(text, i, 1) == Some(11)
    decreases 11 - i
  {
    if i < 11 {
      assert !MaximalRun(text, i, 1) by { assert !Tick(text, i); }
      OneClosing(text, i + 1);
    } else {
      assert MaximalRun(text, 11, 1) by { assert Tick(text, 11) && !Tick(text, 10) && !Tick(text, 12); }
    }
  }
}
