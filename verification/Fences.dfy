/** content.py, markdown_regions: the lines of a text and the fenced code blocks among them. */
module Fences {
  import opened Basics

  // ---- Lines ----

  /** Where str.splitlines breaks a text. */
  predicate LineBreak(c: char) {
    c in "\n\r\U{0b}\U{0c}\U{1c}\U{1d}\U{1e}\U{85}\U{2028}\U{2029}"
  }

  /** The length of the first line, with its end; a carriage return and a newline end a line together. */
  function LineLength(s: string, breaks: char -> bool): (n: nat)
    requires s != []
    ensures 0 < n <= |s|
  {
    if breaks(s[0]) then (if s[0] == '\r' && |s| > 1 && s[1] == '\n' then 2 else 1)
    else if |s| == 1 then 1
    else 1 + LineLength(s[1..], breaks)
  }

  /** The lines of a text, with their ends, when lines end at `breaks`. */
  function SplitLines(s: string, breaks: char -> bool): seq<string> {
    if s == [] then [] else [s[..LineLength(s, breaks)]] + SplitLines(s[LineLength(s, breaks)..], breaks)
  }

  /** str.splitlines with the line ends kept. */
  function Lines(s: string): seq<string> {
    SplitLines(s, LineBreak)
  }

  function Join(lines: seq<string>): string {
    if lines == [] then [] else Join(lines[..|lines| - 1]) + lines[|lines| - 1]
  }

  lemma {:induction false} JoinAppend(a: seq<string>, b: seq<string>)
    ensures Join(a + b) == Join(a) + Join(b)
  {
    if b == [] {
      assert a + b == a;
    } else {
      assert (a + b)[..|a + b| - 1] == a + b[..|b| - 1];
      JoinAppend(a, b[..|b| - 1]);
    }
  }

  lemma {:induction false} SplitJoin(s: string, breaks: char -> bool)
    ensures Join(SplitLines(s, breaks)) == s
    decreases |s|
  {
    if s != [] {
      var n := LineLength(s, breaks);
      SplitJoin(s[n..], breaks);
      JoinAppend([s[..n]], SplitLines(s[n..], breaks));
      JoinOne(s[..n]);
    }
  }

  lemma JoinOne(s: string)
    ensures Join([s]) == s
  {
    assert [s][..0] == [];
  }

  lemma LinesJoin(s: string)
    ensures Join(Lines(s)) == s
  {
    SplitJoin(s, LineBreak);
  }

  // ---- Fences ----

  /** A line that may open or close a fence: the character, the length of its run, whether a backtick follows on the
      line, and whether nothing but white space does. */
  datatype Marker = Marker(tick: char, length: nat, ticks: bool, blank: bool)

  function Run(line: string, c: char): (n: nat)
    ensures n <= |line| && (forall i :: 0 <= i < n ==> line[i] == c) && (n < |line| ==> line[n] != c)
  {
    if line != [] && line[0] == c then 1 + Run(line[1..], c) else 0
  }

  function WithoutNewline(s: string): string {
    if s != [] && s[|s| - 1] == '\n' then s[..|s| - 1] else s
  }

  /** The run of a line that starts with at most three spaces and at least three backticks or tildes, and what
      follows it. */
  function Fence(line: string): Option<(char, nat, string)> {
    if Run(line, ' ') > 3 then None else FenceOf(line[Run(line, ' ')..])
  }

  function FenceOf(s: string): Option<(char, nat, string)> {
    if s == [] || s[0] !in {'`', '~'} || Run(s, s[0]) < 3 then None
    else Some((s[0], Run(s, s[0]), s[Run(s, s[0])..]))
  }

  /** What str.strip removes. */
  predicate Space(c: char) {
    LineBreak(c) || c in " \t\U{1f}\U{a0}\U{1680}\U{202f}\U{205f}\U{3000}" || '\U{2000}' <= c <= '\U{200a}'
  }

  predicate Blank(s: string) {
    forall i :: 0 <= i < |s| ==> Space(s[i])
  }

  /** A line as lines 178-187 read it. */
  function MarkerOf(line: string): Option<Marker> {
    match Fence(line)
    case None => None
    case Some((tick, length, rest)) =>
      Some(Marker(tick, length, '`' in WithoutNewline(rest), Blank(WithoutNewline(rest))))
  }

  function Markers(lines: seq<string>): seq<Option<Marker>> {
    seq(|lines|, i requires 0 <= i < |lines| => MarkerOf(lines[i]))
  }

  predicate Opens(m: Option<Marker>) {
    m.Some? && (m.value.tick != '`' || !m.value.ticks)
  }

  /** A line marked `m` ends the fence that `f` began. */
  predicate Closes(m: Option<Marker>, f: Marker) {
    m.Some? && m.value.tick == f.tick && m.value.length >= f.length && m.value.blank
  }

  /** The first line from `p` on that opens a fence. */
  function FirstOpening(marks: seq<Option<Marker>>, p: nat): (f: nat)
    requires p <= |marks|
    ensures p <= f <= |marks| && (forall i :: p <= i < f ==> !Opens(marks[i])) && (f < |marks| ==> Opens(marks[f]))
    decreases |marks| - p
  {
    if p == |marks| || Opens(marks[p]) then p else FirstOpening(marks, p + 1)
  }

  /** The line after the first one from `i` on that closes the fence; the end of the text when none does. */
  function FenceEnd(marks: seq<Option<Marker>>, i: nat, f: Marker): (n: nat)
    requires i <= |marks|
    ensures i <= n <= |marks|
    decreases |marks| - i
  {
    if i == |marks| then i else if Closes(marks[i], f) then i + 1 else FenceEnd(marks, i + 1, f)
  }

  /** The fenced blocks from line `p` on: each begins at the first opening line after the one before it and
      runs to its first closing line. */
  function Blocks(marks: seq<Option<Marker>>, p: nat): seq<(nat, nat)>
    requires p <= |marks|
    decreases |marks| - p
  {
    var f := FirstOpening(marks, p);
    if f == |marks| then []
    else
      var end := FenceEnd(marks, f + 1, marks[f].value);
      [(f, end)] + Blocks(marks, end)
  }
}
