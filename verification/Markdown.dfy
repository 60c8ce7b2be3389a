/** content.py, markdown: images are rewritten in the live regions only, pass after pass, and a region in which image
    syntax is left over is refused. */
module Markdown {
  import opened Basics
  import opened Fences
  import opened MarkdownRegions

  /** One substitution: where its pattern matches and what the match becomes; `None` raises an import failure. */
  datatype Pass = Pass(end: (string, nat) -> Option<nat>, render: (map<string, string>, string) -> Option<string>)

  /** The patterns, as answers. `definitions` lists the link reference definitions of a live region in order. */
  datatype Engine = Engine(word: char -> bool, definitions: string -> seq<(string, string)>, passes: seq<Pass>,
                           embedded: (string, nat) -> Option<nat>)

  predicate TagAt(text: string, i: nat, word: char -> bool) {
    && i + 4 <= |text| && text[i] == '<' && text[i + 1] in "iI\U{130}\U{131}"
    && text[i + 2] in "mM" && text[i + 3] in "gG" && (i + 4 < |text| ==> !word(text[i + 4]))
  }

  /** Image syntax begins here: `![` or an img tag in any case. */
  predicate ImageAt(e: Engine, text: string, i: nat) {
    (i + 2 <= |text| && text[i] == '!' && text[i + 1] == '[') || TagAt(text, i, e.word)
  }

  predicate HasImage(e: Engine, text: string) {
    exists i :: 0 <= i < |text| && ImageAt(e, text, i)
  }

  /** Every pattern matches something, and only where image syntax begins. */
  ghost predicate Lawful(e: Engine) {
    && (forall p, text, i: nat :: p in e.passes && p.end(text, i).Some? ==>
          i < p.end(text, i).value <= |text| && ImageAt(e, text, i))
    && (forall text, i: nat :: e.embedded(text, i).Some? ==>
          i < e.embedded(text, i).value <= |text| && ImageAt(e, text, i))
  }

  /** Every match from `i` on replaced, left to right and without overlap. */
  function Substitute(p: Pass, refs: map<string, string>, text: string, i: nat): Option<string>
    decreases |text| - i
  {
    if i >= |text| then Some([])
    else
      var end := p.end(text, i);
      if end.Some? && i < end.value <= |text| then
        var image, rest := p.render(refs, text[i..end.value]), Substitute(p, refs, text, end.value);
        if image.Some? && rest.Some? then Some(image.value + rest.value) else None
      else
        var rest := Substitute(p, refs, text, i + 1);
        if rest.Some? then Some([text[i]] + rest.value) else None
  }

  function Passes(passes: seq<Pass>, refs: map<string, string>, text: string): Option<string> {
    if passes == [] then Some(text)
    else
      var next := Substitute(passes[0], refs, text, 0);
      if next.None? then None else Passes(passes[1..], refs, next.value)
  }

  /** The text without its embedded images. */
  function Bare(e: Engine, text: string): string {
    var bare := Substitute(Pass(e.embedded, (refs, image) => Some([])), map[], text, 0);
    if bare.Some? then bare.value else text
  }

  function Rewrite(e: Engine, refs: map<string, string>, text: string): (r: Option<string>)
    ensures r.Some? ==> !HasImage(e, Bare(e, r.value))
  {
    var r := Passes(e.passes, refs, text);
    if r.Some? && !HasImage(e, Bare(e, r.value)) then r else None
  }

  // ---- References: the first definition of a name counts ----

  function Definitions(e: Engine, regions: seq<Region>): seq<(string, string)> {
    if regions == [] then []
    else
      var n := |regions| - 1;
      Definitions(e, regions[..n]) + if regions[n].guarded then [] else e.definitions(regions[n].text)
  }

  /** `refs` holds every name that is defined, with its first target. */
  predicate FirstOf(refs: map<string, string>, definitions: seq<(string, string)>) {
    && (forall k :: 0 <= k < |definitions| ==> definitions[k].0 in refs)
    && forall name :: name in refs ==> FirstAt(definitions, name, refs[name])
  }

  predicate FirstAt(definitions: seq<(string, string)>, name: string, target: string) {
    exists k :: 0 <= k < |definitions| && definitions[k] == (name, target)
      && forall j :: 0 <= j < k ==> definitions[j].0 != name
  }

  lemma FirstOfUnique(a: map<string, string>, b: map<string, string>, definitions: seq<(string, string)>)
    requires FirstOf(a, definitions) && FirstOf(b, definitions)
    ensures a == b
  {
    forall name | name in a
      ensures name in b && a[name] == b[name]
    {
      assert FirstAt(definitions, name, a[name]);
      assert FirstAt(definitions, name, b[name]);
    }
    forall name | name in b
      ensures name in a
    {
      assert FirstAt(definitions, name, b[name]);
    }
  }

  method SetDefaults(refs: map<string, string>, before: seq<(string, string)>, more: seq<(string, string)>)
    returns (refs': map<string, string>)
    requires FirstOf(refs, before)
    ensures FirstOf(refs', before + more)
  {
    refs' := refs;
    assert before + more[..0] == before;
    for k := 0 to |more|
      invariant FirstOf(refs', before + more[..k])
    {
      var seen, name := before + more[..k], more[k].0;
      assert before + more[..k + 1] == seen + [more[k]];
      forall name, target | FirstAt(seen, name, target)
        ensures FirstAt(seen + [more[k]], name, target)
      {
        var i :| 0 <= i < |seen| && seen[i] == (name, target) && forall j :: 0 <= j < i ==> seen[j].0 != name;
        assert (seen + [more[k]])[i] == (name, target);
      }
      if name !in refs' {
        assert (seen + [more[k]])[|seen|] == (name, more[k].1);
        assert FirstAt(seen + [more[k]], name, more[k].1);
        refs' := refs'[name := more[k].1];
      }
    }
    assert more[..|more|] == more;
  }

  method References(e: Engine, regions: seq<Region>) returns (refs: map<string, string>)
    ensures FirstOf(refs, Definitions(e, regions))
  {
    refs := map[];
    for i := 0 to |regions|
      invariant FirstOf(refs, Definitions(e, regions[..i]))
    {
      assert regions[..i + 1][..i] == regions[..i];
      assert Definitions(e, regions[..i]) + [] == Definitions(e, regions[..i]);
      if !regions[i].guarded {
        refs := SetDefaults(refs, Definitions(e, regions[..i]), e.definitions(regions[i].text));
      }
    }
    assert regions[..|regions|] == regions;
  }

  // ---- The result ----

  /** What one region becomes. */
  function Output(e: Engine, refs: map<string, string>, r: Region): Option<string> {
    if r.guarded then Some(r.text) else Rewrite(e, refs, r.text)
  }

  /** `outs` is what the regions become, one for one. */
  predicate Outputs(e: Engine, refs: map<string, string>, regions: seq<Region>, outs: seq<string>) {
    |outs| == |regions| && forall i :: 0 <= i < |regions| ==> Output(e, refs, regions[i]) == Some(outs[i])
  }

  /** The result for a content; `None` when some live region cannot be rewritten. */
  ghost predicate Result(e: Engine, content: string, result: Option<string>) {
    exists regions, refs ::
      && IsRegions(Lines(content), regions) && FirstOf(refs, Definitions(e, regions))
      && Yields(e, refs, regions, result)
  }

  ghost predicate Yields(e: Engine, refs: map<string, string>, regions: seq<Region>, result: Option<string>) {
    if result.Some? then exists outs :: Outputs(e, refs, regions, outs) && result.value == Join(outs)
    else exists i :: 0 <= i < |regions| && Output(e, refs, regions[i]).None?
  }

  method Render(e: Engine, refs: map<string, string>, regions: seq<Region>) returns (result: Option<string>)
    ensures Yields(e, refs, regions, result)
  {
    var output := [];
    for i := 0 to |regions|
      invariant Outputs(e, refs, regions[..i], output)
    {
      if regions[i].guarded {
        output := output + [regions[i].text];
      } else {
        var text := Rewrite(e, refs, regions[i].text);
        if text.None? {
          assert Output(e, refs, regions[i]).None?;
          return None;
        }
        output := output + [text.value];
      }
    }
    assert regions[..|regions|] == regions;
    assert Outputs(e, refs, regions, output);
    result := Some(Join(output));
  }

  method Markdown(e: Engine, content: string) returns (result: Option<string>)
    ensures Result(e, content, result)
  {
    var regions := Regions(content);
    var refs := References(e, regions);
    result := Render(e, refs, regions);
  }

  // ---- What it promises ----

  lemma {:induction false} SubstituteNothing(p: Pass, refs: map<string, string>, text: string, i: nat)
    requires i <= |text| && forall j :: i <= j < |text| ==> p.end(text, j).None?
    ensures Substitute(p, refs, text, i) == Some(text[i..])
    decreases |text| - i
  {
    if i < |text| {
      SubstituteNothing(p, refs, text, i + 1);
      assert [text[i]] + text[i + 1..] == text[i..];
    }
  }

  lemma {:induction false} PassesNothing(e: Engine, passes: seq<Pass>, refs: map<string, string>, text: string)
    requires Lawful(e) && !HasImage(e, text) && forall p :: p in passes ==> p in e.passes
    ensures Passes(passes, refs, text) == Some(text)
  {
    if passes != [] {
      var p := passes[0];
      forall j | 0 <= j < |text|
        ensures p.end(text, j).None?
      {
        assert !ImageAt(e, text, j);
      }
      SubstituteNothing(p, refs, text, 0);
      assert text[0..] == text;
      PassesNothing(e, passes[1..], refs, text);
    }
  }

  lemma RewriteNothing(e: Engine, refs: map<string, string>, text: string)
    requires Lawful(e) && !HasImage(e, text)
    ensures Rewrite(e, refs, text) == Some(text)
  {
    PassesNothing(e, e.passes, refs, text);
    forall j | 0 <= j < |text|
      ensures e.embedded(text, j).None?
    {
      assert !ImageAt(e, text, j);
    }
    var bare := Pass(e.embedded, (refs: map<string, string>, image: string) => Some([]));
    SubstituteNothing(bare, map[], text, 0);
    assert text[0..] == text;
    assert Bare(e, text) == text;
  }

  lemma Kept(e: Engine, refs: map<string, string>, r: Region, out: Option<string>)
    requires Lawful(e) && out == Output(e, refs, r)
    ensures r.guarded || !HasImage(e, r.text) ==> out == Some(r.text)
    ensures out.Some? ==> r.guarded || !HasImage(e, Bare(e, out.value))
  {
    if !r.guarded && !HasImage(e, r.text) { RewriteNothing(e, refs, r.text); }
  }

  lemma YieldsSame(e: Engine, refs: map<string, string>, regions: seq<Region>, result: Option<string>)
    requires Yields(e, refs, regions, result)
    requires forall i :: 0 <= i < |regions| ==> Output(e, refs, regions[i]) == Some(regions[i].text)
    ensures result == Some(Join(Texts(regions)))
  {
    var outs :| Outputs(e, refs, regions, outs) && result.value == Join(outs);
    assert outs == Texts(regions);
  }

  /** Without image syntax in live text, a text comes out as it went in, and never fails. */
  lemma Identity(e: Engine, content: string, regions: seq<Region>, result: Option<string>)
    requires Lawful(e) && IsRegions(Lines(content), regions) && Result(e, content, result)
    requires forall r :: r in regions && !r.guarded ==> !HasImage(e, r.text)
    ensures result == Some(content)
  {
    var r: seq<Region>, refs :| IsRegions(Lines(content), r) && FirstOf(refs, Definitions(e, r))
        && Yields(e, refs, r, result);
    RegionsUnique(Lines(content), regions, r);
    forall i | 0 <= i < |r|
      ensures Output(e, refs, r[i]) == Some(r[i].text)
    {
      Kept(e, refs, r[i], Output(e, refs, r[i]));
    }
    YieldsSame(e, refs, r, result);
    RegionsLossless(content, r);
  }

  /** Protected text and live text without image syntax come out verbatim and in their places; what other live text
      becomes holds no image syntax but embedded images. */
  ghost predicate Preserves(e: Engine, regions: seq<Region>, outs: seq<string>) {
    && |outs| == |regions|
    && (forall i :: 0 <= i < |regions| && (regions[i].guarded || !HasImage(e, regions[i].text)) ==>
        outs[i] == regions[i].text)
    && (forall i :: 0 <= i < |regions| && !regions[i].guarded ==> !HasImage(e, Bare(e, outs[i])))
  }

  lemma Protected(e: Engine, content: string, regions: seq<Region>, result: Option<string>)
    requires Lawful(e) && IsRegions(Lines(content), regions) && Result(e, content, result) && result.Some?
    ensures exists outs :: Preserves(e, regions, outs) && result.value == Join(outs)
  {
    var r: seq<Region>, refs :| IsRegions(Lines(content), r) && FirstOf(refs, Definitions(e, r))
        && Yields(e, refs, r, result);
    RegionsUnique(Lines(content), regions, r);
    var outs :| Outputs(e, refs, regions, outs) && result.value == Join(outs);
    forall i | 0 <= i < |regions|
      ensures regions[i].guarded || !HasImage(e, regions[i].text) ==> outs[i] == regions[i].text
      ensures regions[i].guarded || !HasImage(e, Bare(e, outs[i]))
    {
      assert Output(e, refs, regions[i]) == Some(outs[i]);
      Kept(e, refs, regions[i], Some(outs[i]));
    }
    assert Preserves(e, regions, outs);
  }

  /** There is one result for a content. */
  lemma ResultUnique(e: Engine, content: string, a: Option<string>, b: Option<string>)
    requires Result(e, content, a) && Result(e, content, b)
    ensures a == b
  {
    var r: seq<Region>, f :| IsRegions(Lines(content), r) && FirstOf(f, Definitions(e, r)) && Yields(e, f, r, a);
    var r': seq<Region>, f' :| IsRegions(Lines(content), r') && FirstOf(f', Definitions(e, r')) && Yields(e, f', r', b);
    RegionsUnique(Lines(content), r, r');
    FirstOfUnique(f, f', Definitions(e, r));
    if a.Some? && b.Some? {
      var outs :| Outputs(e, f, r, outs) && a.value == Join(outs);
      var outs' :| Outputs(e, f, r, outs') && b.value == Join(outs');
      assert outs == outs';
    }
  }
}
