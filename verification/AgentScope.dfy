/** resolver.go: the exact knowledge bases an agent request may use. */
module AgentScope {
  import opened Basics

  datatype Selection = Default | Explicit | OtherSelection

  datatype ScopeError = Invalid | Denied | TooLarge | Unavailable

  datatype Decision = Decision(role: string, source: string, mode: string)

  /** What the decision service answers for one action on one knowledge base. */
  datatype Access = Allowed(decision: Decision) | Refused | Missing | Malformed | Failing

  datatype Entry = Entry(id: string, decision: Decision)

  datatype Scope = Scope(selection: Selection, ids: seq<string>, entries: seq<Entry>)

  /** A page of the authorized library: how many there are in all, and the ones listed. */
  datatype Page = Page(total: int, items: seq<Entry>)

  const MAX_KNOWLEDGE_BASES: nat := 64
  const ORGANIZATION_PUBLIC := "organization_public"

  // ---- strings.TrimSpace and the length in bytes ----

  predicate Space(c: char) {
    c in "\t\n\U{0b}\U{0c}\r \U{85}\U{a0}\U{1680}\U{2028}\U{2029}\U{202f}\U{205f}\U{3000}"
        || '\U{2000}' <= c <= '\U{200a}'
  }

  function Trim(s: string): (t: string)
    ensures t == [] || (!Space(t[0]) && !Space(t[|t| - 1]))
  {
    if s == [] then []
    else if Space(s[0]) then Trim(s[1..])
    else if Space(s[|s| - 1]) then Trim(s[..|s| - 1])
    else s
  }

  function Bytes(s: string): nat {
    if s == [] then 0
    else
      var first := if s[0] < '\U{80}' then 1 else if s[0] < '\U{800}' then 2 else if s[0] < '\U{10000}' then 3 else 4;
      first + Bytes(s[1..])
  }

  // ---- Order and sorting ----

  predicate Below(a: string, b: string) {
    b != [] && (a == [] || a[0] < b[0] || (a[0] == b[0] && Below(a[1..], b[1..])))
  }

  lemma {:induction false} BelowItself(a: string)
    ensures !Below(a, a)
  {
    if a != [] { BelowItself(a[1..]); }
  }

  lemma {:induction false} BelowTotal(a: string, b: string)
    ensures Below(a, b) || a == b || Below(b, a)
  {
    if a != [] && b != [] {
      BelowTotal(a[1..], b[1..]);
      if a[0] == b[0] && a[1..] == b[1..] { assert a == [a[0]] + a[1..] && b == [b[0]] + b[1..]; }
    }
  }

  lemma {:induction false} BelowBelow(a: string, b: string, c: string)
    requires Below(a, b) && Below(b, c)
    ensures Below(a, c)
  {
    if a != [] && a[0] == b[0] == c[0] { BelowBelow(a[1..], b[1..], c[1..]); }
  }

  lemma BelowOrder(a: string, b: string, c: string)
    ensures !Below(a, a)
    ensures Below(a, b) || a == b || Below(b, a)
    ensures Below(a, b) && Below(b, c) ==> Below(a, c)
  {
    BelowItself(a);
    BelowTotal(a, b);
    if Below(a, b) && Below(b, c) { BelowBelow(a, b, c); }
  }

  /** Not descending. */
  predicate InOrder(ids: seq<string>) {
    forall i, j :: 0 <= i < j < |ids| ==> !Below(ids[j], ids[i])
  }

  /** Strictly ascending. */
  predicate Ascending(ids: seq<string>) {
    forall i, j :: 0 <= i < j < |ids| ==> Below(ids[i], ids[j])
  }

  function IdsOf(entries: seq<Entry>): seq<string> {
    seq(|entries|, i requires 0 <= i < |entries| => entries[i].id)
  }

  function Insert(entries: seq<Entry>, e: Entry): (r: seq<Entry>)
    ensures multiset(r) == multiset(entries) + multiset{e}
    ensures |r| == |entries| + 1
  {
    if entries == [] || !Below(e.id, entries[|entries| - 1].id) then entries + [e]
    else
      assert entries == entries[..|entries| - 1] + [entries[|entries| - 1]];
      Insert(entries[..|entries| - 1], e) + [entries[|entries| - 1]]
  }

  function Sort(entries: seq<Entry>): (r: seq<Entry>)
    ensures multiset(r) == multiset(entries)
    ensures |r| == |entries|
  {
    if entries == [] then []
    else
      assert entries == entries[..|entries| - 1] + [entries[|entries| - 1]];
      Insert(Sort(entries[..|entries| - 1]), entries[|entries| - 1])
  }

  predicate EntriesInOrder(entries: seq<Entry>) {
    forall i, j :: 0 <= i < j < |entries| ==> !Below(entries[j].id, entries[i].id)
  }

  lemma {:induction false} InsertInOrder(entries: seq<Entry>, e: Entry)
    requires EntriesInOrder(entries)
    ensures EntriesInOrder(Insert(entries, e))
    decreases |entries|
  {
    var r := Insert(entries, e);
    if entries == [] {
    } else if !Below(e.id, entries[|entries| - 1].id) {
      var last := entries[|entries| - 1];
      forall i | 0 <= i < |entries|
        ensures !Below(e.id, entries[i].id)
      {
        BelowOrder(e.id, entries[i].id, last.id);
        BelowOrder(entries[i].id, last.id, e.id);
      }
    } else {
      var front, last := entries[..|entries| - 1], entries[|entries| - 1];
      InsertInOrder(front, e);
      var rest := Insert(front, e);
      forall i | 0 <= i < |rest|
        ensures !Below(last.id, rest[i].id)
      {
        assert rest[i] in multiset(rest);
        assert rest[i] in multiset(front) || rest[i] == e;
        BelowOrder(last.id, e.id, last.id);
      }
    }
  }

  lemma {:induction false} SortInOrder(entries: seq<Entry>)
    ensures EntriesInOrder(Sort(entries))
    decreases |entries|
  {
    if entries != [] {
      SortInOrder(entries[..|entries| - 1]);
      InsertInOrder(Sort(entries[..|entries| - 1]), entries[|entries| - 1]);
    }
  }

  predicate EntriesAscend(entries: seq<Entry>) {
    forall i, j :: 0 <= i < j < |entries| ==> Below(entries[i].id, entries[j].id)
  }

  lemma InsertLast(front: seq<Entry>, e: Entry)
    requires front == [] || Below(front[|front| - 1].id, e.id)
    ensures Insert(front, e) == front + [e]
  {
    if front != [] {
      var top := front[|front| - 1].id;
      BelowOrder(top, e.id, top);
    }
  }

  lemma FrontAscends(entries: seq<Entry>)
    requires EntriesAscend(entries) && entries != []
    ensures var front, last := entries[..|entries| - 1], entries[|entries| - 1];
            && EntriesAscend(front) && entries == front + [last]
            && (front == [] || Below(front[|front| - 1].id, last.id))
  {
  }

  lemma SortAppend(front: seq<Entry>, last: Entry)
    ensures Sort(front + [last]) == Insert(Sort(front), last)
  {
    assert (front + [last])[..|front + [last]| - 1] == front;
  }

  lemma {:induction false} SortAlready(entries: seq<Entry>)
    requires EntriesAscend(entries)
    ensures Sort(entries) == entries
    decreases |entries|
  {
    if entries != [] {
      var front, last := entries[..|entries| - 1], entries[|entries| - 1];
      FrontAscends(entries);
      SortAlready(front);
      SortAppend(front, last);
      InsertLast(front, last);
    }
  }

  /** result: the entries in order of their ids; entries of one id may come in any order. */
  method ResultOf(selection: Selection, entries: seq<Entry>) returns (r: Scope)
    ensures r.selection == selection && r.ids == IdsOf(r.entries) && InOrder(r.ids)
    ensures multiset(r.entries) == multiset(entries) && (EntriesAscend(entries) ==> r.entries == entries)
  {
    var sorted := Sort(entries);
    SortInOrder(entries);
    if EntriesAscend(entries) { SortAlready(entries); }
    var ids: seq<string> := [];
    for i := 0 to |sorted|
      invariant ids == IdsOf(sorted[..i])
    {
      ids := ids + [sorted[i].id];
    }
    assert sorted[..|sorted|] == sorted;
    r := Scope(selection, ids, sorted);
  }

  // ---- Explicit ids ----

  predicate Usable(id: string) {
    id != [] && Bytes(id) <= 128
  }

  /** The values without the white space around them. */
  function Trimmed(values: seq<string>): set<string> {
    if values == [] then {} else Trimmed(values[..|values| - 1]) + {Trim(values[|values| - 1])}
  }

  predicate AllUsable(values: seq<string>) {
    values == [] || (AllUsable(values[..|values| - 1]) && Usable(Trim(values[|values| - 1])))
  }

  lemma {:induction false} TrimmedHas(values: seq<string>, i: nat)
    requires i < |values|
    ensures Trim(values[i]) in Trimmed(values) && (AllUsable(values) ==> Usable(Trim(values[i])))
    decreases |values|
  {
    if i < |values| - 1 { TrimmedHas(values[..|values| - 1], i); }
  }

  lemma {:induction false} TrimmedOnly(values: seq<string>, x: string)
    requires x in Trimmed(values)
    ensures exists v :: v in values && Trim(v) == x
    decreases |values|
  {
    if x != Trim(values[|values| - 1]) { TrimmedOnly(values[..|values| - 1], x); }
  }

  function Elements(ids: seq<string>): set<string> {
    set x | x in ids
  }

  predicate NormalValues(values: seq<string>) {
    1 <= |values| <= MAX_KNOWLEDGE_BASES && AllUsable(values)
  }

  predicate Distinct(ids: seq<string>) {
    forall i, j :: 0 <= i < j < |ids| ==> ids[i] != ids[j]
  }

  lemma AddId(ids: seq<string>, x: string)
    requires Distinct(ids) && x !in Elements(ids)
    ensures Distinct(ids + [x]) && Elements(ids + [x]) == Elements(ids) + {x}
  {
    assert forall i :: 0 <= i < |ids| ==> ids[i] in Elements(ids);
  }

  method TrimOne(value: string) returns (trimmed: Option<string>)
    ensures trimmed == if Usable(Trim(value)) then Some(Trim(value)) else None
  {
    var t := Trim(value);
    trimmed := if t == [] || Bytes(t) > 128 then None else Some(t);
  }

  /** The trimmed values, each once; nothing when one is empty or too long. */
  method TrimAll(values: seq<string>) returns (r: Option<seq<string>>)
    ensures r.Some? <==> AllUsable(values)
    ensures r.Some? ==> Distinct(r.value) && Elements(r.value) == Trimmed(values)
  {
    var seen: set<string>, result: seq<string> := {}, [];
    for i := 0 to |values|
      invariant seen == Elements(result) == Trimmed(values[..i]) && Distinct(result)
      invariant AllUsable(values[..i])
    {
      assert values[..i + 1][..i] == values[..i];
      var value := TrimOne(values[i]);
      if value.None? {
        NotUsable(values, i + 1);
        return None;
      }
      if value.value !in seen {
        AddId(result, value.value);
        seen, result := seen + {value.value}, result + [value.value];
      }
    }
    assert values[..|values|] == values;
    r := Some(result);
  }

  lemma {:induction false} NotUsable(values: seq<string>, i: nat)
    requires i <= |values| && !AllUsable(values[..i])
    ensures !AllUsable(values)
    decreases |values| - i
  {
    if i < |values| {
      assert values[..i + 1][..i] == values[..i];
      NotUsable(values, i + 1);
    } else {
      assert values[..i] == values;
    }
  }

  function InsertId(ids: seq<string>, x: string): (r: seq<string>)
    ensures Elements(r) == Elements(ids) + {x}
  {
    if ids == [] || Below(ids[|ids| - 1], x) then
      assert Elements(ids + [x]) == Elements(ids) + {x};
      ids + [x]
    else
      var front, last := ids[..|ids| - 1], ids[|ids| - 1];
      assert Elements(ids) == Elements(front) + {last};
      assert Elements(InsertId(front, x) + [last]) == Elements(InsertId(front, x)) + {last};
      InsertId(front, x) + [last]
  }

  lemma {:induction false} InsertAscends(ids: seq<string>, x: string)
    requires Ascending(ids) && x !in ids
    ensures Ascending(InsertId(ids, x))
    decreases |ids|
  {
    if ids == [] {
    } else if Below(ids[|ids| - 1], x) {
      forall i | 0 <= i < |ids|
        ensures Below(ids[i], x)
      {
        if i < |ids| - 1 { BelowBelow(ids[i], ids[|ids| - 1], x); }
      }
    } else {
      var front, last := ids[..|ids| - 1], ids[|ids| - 1];
      InsertAscends(front, x);
      BelowTotal(last, x);
      var rest := InsertId(front, x);
      forall i | 0 <= i < |rest|
        ensures Below(rest[i], last)
      {
        assert rest[i] in Elements(front) + {x};
      }
    }
  }

  /** sort.Strings on distinct ids. */
  method SortStrings(ids: seq<string>) returns (sorted: seq<string>)
    requires Distinct(ids)
    ensures Ascending(sorted) && Elements(sorted) == Elements(ids)
  {
    sorted := [];
    for i := 0 to |ids|
      invariant Ascending(sorted) && Elements(sorted) == Elements(ids[..i])
    {
      assert Elements(ids[..i + 1]) == Elements(ids[..i]) + {ids[i]};
      assert ids[i] !in Elements(ids[..i]);
      InsertAscends(sorted, ids[i]);
      sorted := InsertId(sorted, ids[i]);
    }
    assert ids[..|ids|] == ids;
  }

  /** The trimmed ids, each once, in ascending order. */
  method NormalizeIDs(values: seq<string>) returns (r: Result<seq<string>, ScopeError>)
    ensures r.Ok? <==> NormalValues(values)
    ensures r.Ok? ==> Ascending(r.value) && Elements(r.value) == Trimmed(values)
    ensures r.Err? ==> r.error == if |values| > MAX_KNOWLEDGE_BASES then TooLarge else Invalid
  {
    if |values| == 0 || |values| > MAX_KNOWLEDGE_BASES {
      return Err(if |values| > MAX_KNOWLEDGE_BASES then TooLarge else Invalid);
    }
    var trimmed := TrimAll(values);
    if trimmed.None? { return Err(Invalid); }
    var sorted := SortStrings(trimmed.value);
    r := Ok(sorted);
  }

  /** A strictly ascending list is determined by its elements. */
  lemma {:induction false} AscendingUnique(a: seq<string>, b: seq<string>)
    requires Ascending(a) && Ascending(b) && Elements(a) == Elements(b)
    ensures a == b
    decreases |a|
  {
    EmptyIs(a);
    EmptyIs(b);
    if a != [] && b != [] {
      var x, y := a[|a| - 1], b[|b| - 1];
      assert x in Elements(b) && y in Elements(a);
      TopIs(a, y);
      TopIs(b, x);
      BelowOrder(x, y, x);
      WithoutTop(a);
      WithoutTop(b);
      AscendingUnique(a[..|a| - 1], b[..|b| - 1]);
      assert a == a[..|a| - 1] + [x] && b == b[..|b| - 1] + [y];
    }
  }

  lemma EmptyIs(a: seq<string>)
    ensures a == [] <==> Elements(a) == {}
  {
    if a != [] { assert a[0] in Elements(a); }
  }

  lemma TopIs(a: seq<string>, y: string)
    requires Ascending(a) && y in Elements(a)
    ensures a != [] && (y == a[|a| - 1] || Below(y, a[|a| - 1]))
  {
  }

  lemma WithoutTop(a: seq<string>)
    requires Ascending(a) && a != []
    ensures Elements(a[..|a| - 1]) == Elements(a) - {a[|a| - 1]}
  {
    var top := a[|a| - 1];
    forall i | 0 <= i < |a| - 1
      ensures a[i] != top
    {
      BelowItself(top);
    }
    assert a == a[..|a| - 1] + [top];
  }

  // ---- Resolution ----

  /** What the services answer during one request: the read decision for an id, and the authorized library. */
  datatype Library = Library(read: string -> Access, page: Option<Page>)

  /** Each id with the decision that allows it. */
  predicate Decided(lib: Library, entries: seq<Entry>) {
    forall e :: e in entries ==> lib.read(e.id) == Allowed(e.decision)
  }

  /** The first id, in ascending order, that is not readable is refused, or its check fails. */
  ghost predicate FirstUnreadable(lib: Library, ids: set<string>, refused: bool) {
    exists id :: id in ids && !lib.read(id).Allowed? && refused == (lib.read(id).Refused? || lib.read(id).Missing?)
      && forall other :: other in ids && Below(other, id) ==> lib.read(other).Allowed?
  }

  /** An explicit request gets all its ids, trimmed, every one readable, or nothing. */
  ghost predicate ExplicitScope(lib: Library, values: seq<string>, r: Result<Scope, ScopeError>) {
    match r
    case Ok(s) =>
      && NormalValues(values) && s.selection == Explicit
      && Ascending(s.ids) && Elements(s.ids) == Trimmed(values)
      && s.ids == IdsOf(s.entries) && Decided(lib, s.entries)
    case Err(TooLarge) => |values| > MAX_KNOWLEDGE_BASES
    case Err(Invalid) => |values| <= MAX_KNOWLEDGE_BASES && !NormalValues(values)
    case Err(Denied) => NormalValues(values) && FirstUnreadable(lib, Trimmed(values), true)
    case Err(Unavailable) => NormalValues(values) && FirstUnreadable(lib, Trimmed(values), false)
  }

  method ResolveExplicit(lib: Library, values: seq<string>) returns (r: Result<Scope, ScopeError>)
    ensures ExplicitScope(lib, values, r)
  {
    var normal := NormalizeIDs(values);
    if normal.Err? { return Err(normal.error); }
    var ids := normal.value;
    var entries: seq<Entry> := [];
    for i := 0 to |ids|
      invariant IdsOf(entries) == ids[..i] && Decided(lib, entries)
      invariant forall j :: 0 <= j < i ==> lib.read(ids[j]).Allowed?
    {
      var access := lib.read(ids[i]);
      if !access.Allowed? {
        BeforeIs(ids, i);
        assert ids[i] in Elements(ids);
        return Err(if access.Refused? || access.Missing? then Denied else Unavailable);
      }
      entries := entries + [Entry(ids[i], access.decision)];
    }
    assert ids[..|ids|] == ids;
    assert forall i :: 0 <= i < |entries| ==> entries[i].id == IdsOf(entries)[i];
    var s := ResultOf(Explicit, entries);
    r := Ok(s);
  }

  /** In an ascending list the ids below the `i`th are before it. */
  lemma BeforeIs(ids: seq<string>, i: nat)
    requires Ascending(ids) && i < |ids|
    ensures forall other :: other in ids && Below(other, ids[i]) ==> exists j :: 0 <= j < i && ids[j] == other
  {
    forall other | other in ids && Below(other, ids[i])
      ensures exists j :: 0 <= j < i && ids[j] == other
    {
      var j :| 0 <= j < |ids| && ids[j] == other;
      BelowOrder(ids[i], ids[j], ids[i]);
    }
  }

  /** A default request gets the library without the knowledge bases that are only public, when it is short enough. */
  predicate DefaultScope(lib: Library, r: Result<Scope, ScopeError>) {
    match r
    case Ok(s) =>
      && lib.page.Some? && lib.page.value.total <= MAX_KNOWLEDGE_BASES && s.selection == Default
      && s.ids == IdsOf(s.entries) && InOrder(s.ids)
      && multiset(s.entries) == multiset(Included(lib.page.value.items))
    case Err(TooLarge) => lib.page.Some? && lib.page.value.total > MAX_KNOWLEDGE_BASES
    case Err(Unavailable) => lib.page.None?
    case Err(_) => false
  }

  function Included(items: seq<Entry>): (r: seq<Entry>)
    ensures forall e :: e in r <==> e in items && e.decision.source != ORGANIZATION_PUBLIC
  {
    if items == [] then []
    else
      Included(items[..|items| - 1])
      + if items[|items| - 1].decision.source == ORGANIZATION_PUBLIC then [] else [items[|items| - 1]]
  }

  method ResolveDefault(lib: Library) returns (r: Result<Scope, ScopeError>)
    ensures DefaultScope(lib, r)
  {
    if lib.page.None? { return Err(Unavailable); }
    var page := lib.page.value;
    if page.total > MAX_KNOWLEDGE_BASES { return Err(TooLarge); }
    var entries: seq<Entry> := [];
    for i := 0 to |page.items|
      invariant entries == Included(page.items[..i])
    {
      assert page.items[..i + 1][..i] == page.items[..i];
      if page.items[i].decision.source == ORGANIZATION_PUBLIC { continue; }
      entries := entries + [page.items[i]];
    }
    assert page.items[..|page.items|] == page.items;
    var s := ResultOf(Default, entries);
    r := Ok(s);
  }

  /** Resolve, for a principal with or without a user id and a tenant. */
  method Resolve(lib: Library, selection: Selection, values: seq<string>, principal: bool)
    returns (r: Result<Scope, ScopeError>)
    ensures if !principal || selection.OtherSelection? || (selection.Default? && values != []) then r == Err(Invalid)
            else if selection.Default? then DefaultScope(lib, r) else ExplicitScope(lib, values, r)
  {
    if !principal { return Err(Invalid); }
    match selection {
      case Default =>
        if |values| != 0 { return Err(Invalid); }
        r := ResolveDefault(lib);
      case Explicit =>
        r := ResolveExplicit(lib, values);
      case OtherSelection =>
        r := Err(Invalid);
    }
  }
}
