/** content.py, markdown: what the rewriting of a live region is, in terms of where its patterns match. */
module MarkdownRewrites {
  import opened Basics
  import opened Fences
  import opened Markdown

  /** `out` stands for the text from `a` to `b`: what the match that begins at `a` becomes, or the one character there
      when none begins. */
  predicate Piece(p: Pass, refs: map<string, string>, text: string, a: nat, b: nat, out: string)
    requires a < |text|
  {
    var end := p.end(text, a);
    if end.Some? && a < end.value <= |text| then b == end.value && p.render(refs, text[a..b]) == Some(out)
    else b == a + 1 && out == [text[a]]
  }

  /** The text from `from` on, cut at `cuts`, becomes `outs` piece by piece. */
  predicate Cut(p: Pass, refs: map<string, string>, text: string, from: nat, cuts: seq<nat>, outs: seq<string>) {
    && |cuts| == |outs| + 1 && cuts[0] == from && cuts[|outs|] == |text|
    && forall k :: 0 <= k < |outs| ==> cuts[k] < |text| && Piece(p, refs, text, cuts[k], cuts[k + 1], outs[k])
  }

  /** `out` is the text with every match, from left to right and without overlap, replaced. */
  ghost predicate Replaces(p: Pass, refs: map<string, string>, text: string, out: string) {
    exists cuts, outs :: Cut(p, refs, text, 0, cuts, outs) && out == Join(outs)
  }

  lemma JoinFirst(first: string, rest: seq<string>)
    ensures Join([first] + rest) == first + Join(rest)
  {
    JoinAppend([first], rest);
    assert [first][..0] == [] && Join([first]) == first;
  }

  lemma {:induction false} SubstituteCuts(p: Pass, refs: map<string, string>, text: string, i: nat)
    returns (cuts: seq<nat>, outs: seq<string>)
    requires i <= |text| && Substitute(p, refs, text, i).Some?
    ensures Cut(p, refs, text, i, cuts, outs) && Substitute(p, refs, text, i) == Some(Join(outs))
    decreases |text| - i
  {
    if i == |text| {
      cuts, outs := [i], [];
    } else {
      var end := p.end(text, i);
      var next := if end.Some? && i < end.value <= |text| then end.value else i + 1;
      var out := if end.Some? && i < end.value <= |text| then p.render(refs, text[i..next]).value else [text[i]];
      var more, rest := SubstituteCuts(p, refs, text, next);
      JoinFirst(out, rest);
      cuts, outs := [i] + more, [out] + rest;
      assert Piece(p, refs, text, i, next, out);
      forall k | 0 <= k < |outs|
        ensures cuts[k] < |text| && Piece(p, refs, text, cuts[k], cuts[k + 1], outs[k])
      {
        if k > 0 { assert cuts[k] == more[k - 1] && cuts[k + 1] == more[k] && outs[k] == rest[k - 1]; }
      }
    }
  }

  lemma PieceGives(p: Pass, refs: map<string, string>, text: string, a: nat, b: nat, out: string, rest: string)
    requires a < |text| && b <= |text| && Piece(p, refs, text, a, b, out)
    requires Substitute(p, refs, text, b) == Some(rest)
    ensures Substitute(p, refs, text, a) == Some(out + rest)
  {
  }

  lemma {:induction false} CutsGive(p: Pass, refs: map<string, string>, text: string, cuts: seq<nat>,
                                    outs: seq<string>, k: nat)
    requires cuts != [] && Cut(p, refs, text, cuts[0], cuts, outs) && k <= |outs|
    ensures cuts[k] <= |text| && Substitute(p, refs, text, cuts[k]) == Some(Join(outs[k..]))
    decreases |outs| - k
  {
    if k < |outs| {
      CutsGive(p, refs, text, cuts, outs, k + 1);
      PieceGives(p, refs, text, cuts[k], cuts[k + 1], outs[k], Join(outs[k + 1..]));
      assert outs[k..] == [outs[k]] + outs[k + 1..];
      JoinFirst(outs[k], outs[k + 1..]);
    }
  }

  /** One substitution is that, and fails when a match cannot be replaced. */
  lemma SubstituteExactly(p: Pass, refs: map<string, string>, text: string, out: string)
    ensures Substitute(p, refs, text, 0) == Some(out) <==> Replaces(p, refs, text, out)
  {
    if Substitute(p, refs, text, 0).Some? {
      var cuts, outs := SubstituteCuts(p, refs, text, 0);
      if Substitute(p, refs, text, 0) == Some(out) { assert Replaces(p, refs, text, out); }
    }
    if Replaces(p, refs, text, out) {
      var cuts, outs :| Cut(p, refs, text, 0, cuts, outs) && out == Join(outs);
      CutsGive(p, refs, text, cuts, outs, 0);
      assert outs[0..] == outs;
    }
  }

  /** Each pass replaces in what the one before it left. */
  ghost predicate Stages(passes: seq<Pass>, refs: map<string, string>, texts: seq<string>) {
    && |texts| == |passes| + 1
    && forall k :: 0 <= k < |passes| ==> Replaces(passes[k], refs, texts[k], texts[k + 1])
  }

  lemma {:induction false} PassesStages(passes: seq<Pass>, refs: map<string, string>, text: string)
    returns (texts: seq<string>)
    requires Passes(passes, refs, text).Some?
    ensures Stages(passes, refs, texts) && texts[0] == text && Passes(passes, refs, text) == Some(texts[|passes|])
    decreases |passes|
  {
    if passes == [] {
      texts := [text];
    } else {
      var next := Substitute(passes[0], refs, text, 0).value;
      SubstituteExactly(passes[0], refs, text, next);
      var rest := PassesStages(passes[1..], refs, next);
      texts := [text] + rest;
      forall k | 0 <= k < |passes|
        ensures Replaces(passes[k], refs, texts[k], texts[k + 1])
      {
        if k > 0 { assert passes[k] == passes[1..][k - 1] && texts[k] == rest[k - 1] && texts[k + 1] == rest[k]; }
      }
    }
  }

  lemma {:induction false} StagesGive(passes: seq<Pass>, refs: map<string, string>, texts: seq<string>)
    requires Stages(passes, refs, texts)
    ensures Passes(passes, refs, texts[0]) == Some(texts[|passes|])
    decreases |passes|
  {
    if passes != [] {
      SubstituteExactly(passes[0], refs, texts[0], texts[1]);
      forall k | 0 <= k < |passes| - 1
        ensures Replaces(passes[1..][k], refs, texts[1..][k], texts[1..][k + 1])
      {
        assert Replaces(passes[k + 1], refs, texts[k + 1], texts[k + 2]);
      }
      StagesGive(passes[1..], refs, texts[1..]);
    }
  }

  /** Taking embedded images out. */
  function Removal(e: Engine): Pass {
    Pass(e.embedded, (refs, image) => Some([]))
  }

  lemma {:induction false} RemovalWorks(e: Engine, text: string, i: nat)
    ensures Substitute(Removal(e), map[], text, i).Some?
    decreases |text| - i
  {
    if i < |text| {
      var end := e.embedded(text, i);
      RemovalWorks(e, text, if end.Some? && i < end.value <= |text| then end.value else i + 1);
    }
  }

  lemma BareIs(e: Engine, text: string)
    ensures Replaces(Removal(e), map[], text, Bare(e, text))
  {
    RemovalWorks(e, text, 0);
    SubstituteExactly(Removal(e), map[], text, Bare(e, text));
  }

  /** A live text becomes what all its passes make of it, one after the other, if no image syntax is left when the
      embedded images are taken out; otherwise, or when a match cannot be replaced, it is refused. */
  lemma RewriteExactly(e: Engine, refs: map<string, string>, text: string, out: string)
    ensures Rewrite(e, refs, text) == Some(out)
       <==> && (exists texts :: Stages(e.passes, refs, texts) && texts[0] == text && texts[|e.passes|] == out)
            && exists bare :: Replaces(Removal(e), map[], out, bare) && !HasImage(e, bare)
  {
    BareIs(e, out);
    if Passes(e.passes, refs, text).Some? {
      var texts := PassesStages(e.passes, refs, text);
      if Rewrite(e, refs, text) == Some(out) { assert Replaces(Removal(e), map[], out, Bare(e, out)); }
    }
    if texts :| Stages(e.passes, refs, texts) && texts[0] == text && texts[|e.passes|] == out {
      StagesGive(e.passes, refs, texts);
    }
    forall bare | Replaces(Removal(e), map[], out, bare)
      ensures bare == Bare(e, out)
    {
      SubstituteExactly(Removal(e), map[], out, bare);
      SubstituteExactly(Removal(e), map[], out, Bare(e, out));
    }
  }
}
