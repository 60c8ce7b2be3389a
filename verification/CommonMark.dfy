/** Fenced code blocks as section 4.5 of CommonMark 0.31 has them, for fences outside other containers and blocks,
    against those that content.py finds. */
module CommonMark {
  import opened Basics
  import opened Fences

  /** Section 2.1: a line ends at a newline, a carriage return, or both. */
  predicate Ending(c: char) {
    c == '\n' || c == '\r'
  }

  function CmLines(s: string): seq<string> {
    SplitLines(s, Ending)
  }

  /** A line without its end. */
  function Body(line: string): string {
    if line != [] && line[|line| - 1] == '\n' then
      if |line| > 1 && line[|line| - 2] == '\r' then line[..|line| - 2] else line[..|line| - 1]
    else if line != [] && line[|line| - 1] == '\r' then line[..|line| - 1]
    else line
  }

  /** Nothing but spaces and tabs may follow a closing fence. */
  predicate SpacesAndTabs(s: string) {
    forall i :: 0 <= i < |s| ==> s[i] == ' ' || s[i] == '\t'
  }

  function CmMarkerOf(line: string): Option<Marker> {
    match Fence(Body(line))
    case None => None
    case Some((tick, length, rest)) => Some(Marker(tick, length, '`' in rest, SpacesAndTabs(rest)))
  }

  function CmMarkers(lines: seq<string>): seq<Option<Marker>> {
    seq(|lines|, i requires 0 <= i < |lines| => CmMarkerOf(lines[i]))
  }

  /** Where in the text the blocks are. */
  function Places(lines: seq<string>, blocks: seq<(nat, nat)>): seq<(nat, nat)>
    requires forall i :: 0 <= i < |blocks| ==> blocks[i].0 <= |lines| && blocks[i].1 <= |lines|
  {
    seq(|blocks|, i requires 0 <= i < |blocks| => (|Join(lines[..blocks[i].0])|, |Join(lines[..blocks[i].1])|))
  }

  lemma {:induction false} BlocksInside(marks: seq<Option<Marker>>, p: nat)
    requires p <= |marks|
    ensures forall i :: 0 <= i < |Blocks(marks, p)| ==> Blocks(marks, p)[i].0 < Blocks(marks, p)[i].1 <= |marks|
    decreases |marks| - p
  {
    var f := FirstOpening(marks, p);
    if f < |marks| {
      var end := FenceEnd(marks, f + 1, marks[f].value);
      BlocksInside(marks, end);
      assert Blocks(marks, p) == [(f, end)] + Blocks(marks, end);
    }
  }

  /** The fenced blocks content.py finds. */
  function CodeFences(s: string): seq<(nat, nat)> {
    BlocksInside(Markers(Lines(s)), 0);
    Places(Lines(s), Blocks(Markers(Lines(s)), 0))
  }

  /** The fenced blocks of CommonMark. */
  function CmFences(s: string): seq<(nat, nat)> {
    BlocksInside(CmMarkers(CmLines(s)), 0);
    Places(CmLines(s), Blocks(CmMarkers(CmLines(s)), 0))
  }

  /** White space to Python, but neither a space nor a tab nor a line end to CommonMark. */
  predicate Exotic(c: char) {
    Space(c) && c != ' ' && c != '\t' && !Ending(c)
  }

  predicate Plain(s: string) {
    forall i :: 0 <= i < |s| ==> !Exotic(s[i])
  }

  // ---- Without exotic white space both see the same ----

  lemma {:induction false} LengthsAgree(s: string)
    requires s != [] && Plain(s)
    ensures LineLength(s, LineBreak) == LineLength(s, Ending)
  {
    assert !Exotic(s[0]);
    if !LineBreak(s[0]) && |s| > 1 { LengthsAgree(s[1..]); }
  }

  lemma {:induction false} LinesAgree(s: string)
    requires Plain(s)
    ensures Lines(s) == CmLines(s)
    decreases |s|
  {
    if s != [] {
      LengthsAgree(s);
      LinesAgree(s[LineLength(s, Ending)..]);
    }
  }

  /** A line as `SplitLines` makes it: no line end before its end. */
  predicate LineLike(line: string) {
    forall i :: 0 <= i < |Body(line)| ==> !Ending(Body(line)[i])
  }

  lemma {:induction false} FirstIsLineLike(s: string)
    requires s != []
    ensures LineLike(s[..LineLength(s, Ending)])
  {
    var n := LineLength(s, Ending);
    if !Ending(s[0]) && |s| > 1 {
      FirstIsLineLike(s[1..]);
      var rest := s[1..][..LineLength(s[1..], Ending)];
      assert s[..n] == [s[0]] + rest;
      BodyCons(s[0], rest);
    }
  }

  lemma BodyCons(c: char, rest: string)
    requires !Ending(c) && rest != []
    ensures Body([c] + rest) == [c] + Body(rest)
  {
    var line := [c] + rest;
    assert line[|line| - 1] == rest[|rest| - 1];
    if |rest| > 1 { assert line[|line| - 2] == rest[|rest| - 2]; }
  }

  lemma {:induction false} LinesAreLineLike(s: string)
    requires Plain(s)
    ensures forall i :: 0 <= i < |CmLines(s)| ==> LineLike(CmLines(s)[i]) && Plain(CmLines(s)[i])
    decreases |s|
  {
    if s != [] {
      var n := LineLength(s, Ending);
      FirstIsLineLike(s);
      LinesAreLineLike(s[n..]);
      assert CmLines(s) == [s[..n]] + CmLines(s[n..]);
    }
  }

  lemma {:induction false} RunOfFront(line: string, n: nat, c: char)
    requires n <= |line| && forall i :: n <= i < |line| ==> line[i] != c
    ensures Run(line, c) == Run(line[..n], c) <= n
    decreases |line|
  {
    if n > 0 && line[0] == c {
      assert line[1..][..n - 1] == line[..n][1..];
      RunOfFront(line[1..], n - 1, c);
    }
  }

  /** A fence with something after it. */
  function Longer(f: Option<(char, nat, string)>, end: string): Option<(char, nat, string)> {
    if f.None? then None else Some((f.value.0, f.value.1, f.value.2 + end))
  }

  lemma RunOfBody(body: string, end: string, c: char)
    requires (forall i :: 0 <= i < |end| ==> Ending(end[i])) && !Ending(c)
    ensures Run(body + end, c) == Run(body, c)
  {
    var line := body + end;
    RunOfFront(line, |body|, c);
    assert line[..|body|] == body;
  }

  lemma FenceOfLonger(s: string, end: string)
    requires forall i :: 0 <= i < |end| ==> Ending(end[i])
    ensures FenceOf(s + end) == Longer(FenceOf(s), end)
  {
    if s == [] {
      assert s + end == end;
    } else if s[0] in {'`', '~'} {
      RunOfBody(s, end, s[0]);
      var r := Run(s, s[0]);
      assert (s + end)[0] == s[0] && (s + end)[r..] == s[r..] + end;
    }
  }

  /** The fence of a line is the fence of its body, with the line end after it. */
  lemma FenceOfBody(line: string)
    ensures Fence(line) == Longer(Fence(Body(line)), line[|Body(line)|..])
  {
    var body, end := Body(line), line[|Body(line)|..];
    assert line == body + end;
    EndIs(line);
    RunOfBody(body, end, ' ');
    var k := Run(body, ' ');
    assert line[k..] == body[k..] + end;
    FenceOfLonger(body[k..], end);
  }

  lemma MarkersAgree(line: string)
    requires LineLike(line) && Plain(line)
    ensures MarkerOf(line) == CmMarkerOf(line)
  {
    var body, end := Body(line), line[|Body(line)|..];
    FenceOfBody(line);
    if Fence(body).Some? {
      var rest := Fence(body).value.2;
      EndIs(line);
      RestPlain(line, rest);
      RestAgrees(rest, end);
    }
  }

  lemma EndIs(line: string)
    ensures line[|Body(line)|..] in {"", "\n", "\r", "\r\n"}
  {
    var n := |line|;
    if n > 1 && line[n - 1] == '\n' && line[n - 2] == '\r' {
      assert line[n - 2..] == "\r\n";
    } else if n > 0 && Ending(line[n - 1]) {
      assert line[n - 1..] == [line[n - 1]];
    } else {
      assert line[n..] == "";
    }
  }

  /** What follows the run of a fence is the end of the line's body. */
  lemma RestPlain(line: string, rest: string)
    requires LineLike(line) && Plain(line) && Fence(Body(line)).Some? && rest == Fence(Body(line)).value.2
    ensures forall i :: 0 <= i < |rest| ==> !Exotic(rest[i]) && !Ending(rest[i])
  {
    var body := Body(line);
    var k := |body| - |rest|;
    assert rest == body[k..];
    forall i | 0 <= i < |rest|
      ensures !Exotic(rest[i]) && !Ending(rest[i])
    {
      assert rest[i] == body[k + i] && body[k + i] == line[k + i];
    }
  }

  lemma RestAgrees(rest: string, end: string)
    requires end in {"", "\n", "\r", "\r\n"} && forall i :: 0 <= i < |rest| ==> !Exotic(rest[i]) && !Ending(rest[i])
    ensures var shown := WithoutNewline(rest + end);
            ('`' in shown <==> '`' in rest) && (Blank(shown) <==> SpacesAndTabs(rest))
  {
    ShownIs(rest, end);
    BlankAgrees(rest);
  }

  /** With or without a carriage return after it. */
  lemma BlankAgrees(rest: string)
    requires forall i :: 0 <= i < |rest| ==> !Exotic(rest[i]) && !Ending(rest[i])
    ensures Blank(rest) <==> SpacesAndTabs(rest)
    ensures Blank(rest + "\r") <==> SpacesAndTabs(rest)
    ensures '`' in rest + "\r" <==> '`' in rest
  {
    var shown := rest + "\r";
    if Blank(shown) {
      forall i | 0 <= i < |rest|
        ensures rest[i] == ' ' || rest[i] == '\t'
      {
        assert shown[i] == rest[i];
      }
    }
  }

  lemma NewlineGoes(rest: string)
    ensures WithoutNewline(rest + "\n") == rest
  {
    assert (rest + "\n")[..|rest|] == rest;
  }

  lemma NoNewline(s: string)
    requires s == [] || s[|s| - 1] != '\n'
    ensures WithoutNewline(s) == s
  {
  }

  lemma ShownIs(rest: string, end: string)
    requires end in {"", "\n", "\r", "\r\n"} && forall i :: 0 <= i < |rest| ==> !Ending(rest[i])
    ensures WithoutNewline(rest + end) == if end == "\r" || end == "\r\n" then rest + "\r" else rest
  {
    if end == "\r\n" {
      assert rest + end == (rest + "\r") + "\n";
      NewlineGoes(rest + "\r");
    } else if end == "\n" {
      NewlineGoes(rest);
    } else if end == "\r" {
      NoNewline(rest + "\r");
    } else {
      assert rest + end == rest;
      NoNewline(rest);
    }
  }

  /** Without exotic white space the fenced blocks are those of CommonMark. */
  lemma PlainAgree(s: string)
    requires Plain(s)
    ensures CodeFences(s) == CmFences(s)
  {
    LinesAgree(s);
    LinesAreLineLike(s);
    var lines := Lines(s);
    forall i | 0 <= i < |lines|
      ensures Markers(lines)[i] == CmMarkers(lines)[i]
    {
      MarkersAgree(lines[i]);
    }
    assert Markers(lines) == CmMarkers(lines);
  }

  // ---- Each exotic character makes a difference ----

  /** `line` is the first line of `line + rest`. */
  lemma {:induction false} FirstLine(line: string, rest: string, breaks: char -> bool)
    requires line != [] && line[|line| - 1] != '\r' && breaks(line[|line| - 1])
    requires forall i :: 0 <= i < |line| - 1 ==> !breaks(line[i])
    ensures SplitLines(line + rest, breaks) == [line] + SplitLines(rest, breaks)
  {
    LengthOfFirst(line, rest, breaks);
    assert (line + rest)[..|line|] == line && (line + rest)[|line|..] == rest;
  }

  lemma TwoLines(a: string, b: string, breaks: char -> bool)
    requires a != [] && a[|a| - 1] != '\r' && breaks(a[|a| - 1]) && b != [] && b[|b| - 1] != '\r' && breaks(b[|b| - 1])
    requires (forall i :: 0 <= i < |a| - 1 ==> !breaks(a[i])) && forall i :: 0 <= i < |b| - 1 ==> !breaks(b[i])
    ensures SplitLines(a + b, breaks) == [a, b]
  {
    FirstLine(a, b, breaks);
    FirstLine(b, [], breaks);
    assert b + [] == b;
  }

  lemma {:induction false} LengthOfFirst(line: string, rest: string, breaks: char -> bool)
    requires line != [] && line[|line| - 1] != '\r' && breaks(line[|line| - 1])
    requires forall i :: 0 <= i < |line| - 1 ==> !breaks(line[i])
    ensures LineLength(line + rest, breaks) == |line|
    decreases |line|
  {
    if |line| > 1 {
      assert (line + rest)[1..] == line[1..] + rest;
      LengthOfFirst(line[1..], rest, breaks);
    } else {
      assert (line + rest)[0] == line[0];
    }
  }

  lemma {:induction false} OnlyLine(line: string, breaks: char -> bool)
    requires line != [] && forall i :: 0 <= i < |line| ==> !breaks(line[i])
    ensures SplitLines(line, breaks) == [line]
  {
    LengthOfOnly(line, breaks);
    assert line[..|line|] == line && line[|line|..] == [];
  }

  lemma {:induction false} LengthOfOnly(line: string, breaks: char -> bool)
    requires line != [] && forall i :: 0 <= i < |line| ==> !breaks(line[i])
    ensures LineLength(line, breaks) == |line|
    decreases |line|
  {
    if |line| > 1 { LengthOfOnly(line[1..], breaks); }
  }

  /** A line break only to Python, and a fence after it on what CommonMark takes for the same line. */
  function BreakBefore(c: char): string {
    [c] + "```\n"
  }

  lemma BreakDiffers(c: char)
    requires Exotic(c) && LineBreak(c)
    ensures CodeFences(BreakBefore(c)) != CmFences(BreakBefore(c))
  {
    var s := BreakBefore(c);
    PythonBreaks(c);
    BreakMarks(c);
    OneOpening(Markers([[c], "```\n"]));
    CommonMarkDoesNot(c);
    assert |CodeFences(s)| == 1 && |CmFences(s)| == 0;
  }

  lemma PythonBreaks(c: char)
    requires Exotic(c) && LineBreak(c)
    ensures Lines(BreakBefore(c)) == [[c], "```\n"]
  {
    TwoLines([c], "```\n", LineBreak);
  }

  lemma BreakMarks(c: char)
    requires Exotic(c)
    ensures Markers([[c], "```\n"]) == [None, Some(Marker('`', 3, false, true))]
  {
    OpeningLine();
    NoFence([c]);
  }

  lemma OpeningLine()
    ensures MarkerOf("```\n") == Some(Marker('`', 3, false, true))
            && CmMarkerOf("```\n") == Some(Marker('`', 3, false, true))
  {
    FenceLine("\n");
    FenceLine([]);
    assert "```" + "\n" == "```\n" && "```" + [] == "```";
    NewlineGoes([]);
    assert [] + "\n" == "\n";
    assert Body("```\n") == "```";
  }

  lemma OneOpening(marks: seq<Option<Marker>>)
    requires marks == [None, Some(Marker('`', 3, false, true))]
    ensures Blocks(marks, 0) == [(1, 2)]
  {
    assert FirstOpening(marks, 0) == 1;
    assert FenceEnd(marks, 2, marks[1].value) == 2;
    assert Blocks(marks, 2) == [];
  }

  lemma CommonMarkDoesNot(c: char)
    requires Exotic(c)
    ensures CmLines(BreakBefore(c)) == [BreakBefore(c)] && Blocks(CmMarkers([BreakBefore(c)]), 0) == []
  {
    var s := BreakBefore(c);
    FirstLine(s, [], Ending);
    assert s + [] == s;
    NoFence(Body(s));
    assert CmMarkers([s]) == [None];
  }

  /** A line that begins with something else than a space, a backtick or a tilde. */
  lemma NoFence(line: string)
    requires line != [] && line[0] !in {' ', '`', '~'}
    ensures Fence(line) == None && MarkerOf(line) == None
  {
  }

  /** Three backticks and what follows them. */
  lemma FenceLine(rest: string)
    requires rest == [] || rest[0] != '`'
    ensures Fence("```" + rest) == Some(('`', 3, rest))
  {
    var line := "```" + rest;
    assert line[0] == '`' && Run(line, ' ') == 0 && line[0..] == line;
    assert line[1..][1..][1..] == rest && Run(rest, '`') == 0;
    assert Run(line[1..][1..], '`') == 1 && Run(line[1..], '`') == 2 && Run(line, '`') == 3;
    assert line[3..] == rest;
  }

  /** White space only to Python after what would be a closing fence, and a line after it. */
  function CloseWith(c: char): string {
    "```\n" + ("```" + [c] + "\n" + "x")
  }

  lemma CloseDiffers(c: char)
    requires Exotic(c) && !LineBreak(c)
    ensures CodeFences(CloseWith(c)) != CmFences(CloseWith(c))
  {
    var lines := ["```\n", "```" + [c] + "\n", "x"];
    CloseLines(c, LineBreak);
    CloseLines(c, Ending);
    CloseMarks(c);
    PythonCloses(Markers(lines));
    CommonMarkGoesOn(CmMarkers(lines));
    PlacesDiffer(lines);
  }

  lemma CloseLines(c: char, breaks: char -> bool)
    requires breaks('\n') && !breaks('`') && !breaks('x') && !breaks(c)
    ensures SplitLines(CloseWith(c), breaks) == ["```\n", "```" + [c] + "\n", "x"]
  {
    FirstLine("```\n", "```" + [c] + "\n" + "x", breaks);
    FirstLine("```" + [c] + "\n", "x", breaks);
    OnlyLine("x", breaks);
  }

  lemma CloseMarks(c: char)
    requires Exotic(c) && !LineBreak(c)
    ensures var lines := ["```\n", "```" + [c] + "\n", "x"];
            && Markers(lines) == [Some(Marker('`', 3, false, true)), Some(Marker('`', 3, false, true)), None]
            && CmMarkers(lines) == [Some(Marker('`', 3, false, true)), Some(Marker('`', 3, false, false)), None]
  {
    OpeningLine();
    ClosingLine(c);
    NoFence("x");
    assert Body("x") == "x";
  }

  lemma ClosingLine(c: char)
    requires Exotic(c)
    ensures MarkerOf("```" + [c] + "\n") == Some(Marker('`', 3, false, true))
    ensures CmMarkerOf("```" + [c] + "\n") == Some(Marker('`', 3, false, false))
  {
    var line := "```" + [c] + "\n";
    assert c != '`';
    FenceLine([c] + "\n");
    FenceLine([c]);
    assert "```" + ([c] + "\n") == line && Body(line) == "```" + [c];
    NewlineGoes([c]);
    assert Blank([c]) && '`' !in [c];
    assert [c][0] == c && !SpacesAndTabs([c]);
  }

  lemma PythonCloses(marks: seq<Option<Marker>>)
    requires marks == [Some(Marker('`', 3, false, true)), Some(Marker('`', 3, false, true)), None]
    ensures Blocks(marks, 0) == [(0, 2)]
  {
    assert FenceEnd(marks, 1, marks[0].value) == 2;
    assert FirstOpening(marks, 3) == 3 && FirstOpening(marks, 2) == 3;
  }

  lemma CommonMarkGoesOn(marks: seq<Option<Marker>>)
    requires marks == [Some(Marker('`', 3, false, true)), Some(Marker('`', 3, false, false)), None]
    ensures Blocks(marks, 0) == [(0, 3)]
  {
    assert FenceEnd(marks, 3, marks[0].value) == 3 && FenceEnd(marks, 2, marks[0].value) == 3;
    assert FenceEnd(marks, 1, marks[0].value) == 3;
    assert Blocks(marks, 3) == [];
  }

  lemma PlacesDiffer(lines: seq<string>)
    requires |lines| == 3 && lines[2] != []
    ensures Places(lines, [(0, 2)]) != Places(lines, [(0, 3)])
  {
    assert lines[..3][..2] == lines[..2];
    assert Places(lines, [(0, 2)])[0].1 == |Join(lines[..2])|;
    assert Places(lines, [(0, 3)])[0].1 == |Join(lines[..3])|;
  }

  /** Whatever a text is made of, as long as its exotic white space is among `extra`. */
  ghost predicate AlwaysAgree(extra: set<char>) {
    forall s :: (forall i :: 0 <= i < |s| && Exotic(s[i]) ==> s[i] in extra) ==> CodeFences(s) == CmFences(s)
  }

  /** content.py finds the fences of CommonMark in every text exactly as long as no exotic white space is let in: each
      single such character makes a difference in some text. */
  lemma FencesAgreeExactly(extra: set<char>)
    ensures AlwaysAgree(extra) <==> forall c :: c in extra ==> !Exotic(c)
  {
    if forall c :: c in extra ==> !Exotic(c) {
      forall s: string | forall i :: 0 <= i < |s| && Exotic(s[i]) ==> s[i] in extra
        ensures CodeFences(s) == CmFences(s)
      {
        PlainAgree(s);
      }
    } else {
      var c :| c in extra && Exotic(c);
      ExoticDiffers(c);
    }
  }

  /** A text in which `c` is the only exotic character, and the fences differ. */
  lemma ExoticDiffers(c: char)
    requires Exotic(c)
    ensures exists s :: CodeFences(s) != CmFences(s) && forall i :: 0 <= i < |s| && Exotic(s[i]) ==> s[i] == c
  {
    var s := if LineBreak(c) then BreakBefore(c) else CloseWith(c);
    forall i | 0 <= i < |s| && Exotic(s[i])
      ensures s[i] == c
    {
      OnlyExotic(c, i);
    }
    if LineBreak(c) { BreakDiffers(c); } else { CloseDiffers(c); }
    assert CodeFences(s) != CmFences(s);
  }

  lemma OnlyExotic(c: char, i: nat)
    ensures i < |BreakBefore(c)| && Exotic(BreakBefore(c)[i]) ==> BreakBefore(c)[i] == c
    ensures i < |CloseWith(c)| && Exotic(CloseWith(c)[i]) ==> CloseWith(c)[i] == c
  {
    assert !Exotic('`') && !Exotic('\n') && !Exotic('x');
  }
}
