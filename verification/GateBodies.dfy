/** gate.go: the body that a retrieval is forwarded with names no knowledge base beyond the forwarded scope. */
module GateBodies {
  import opened Basics
  import opened AgentScope
  import opened Scopes
  import opened GateRules
  import opened GateRuns

  lemma {:induction false} WithoutIs(fields: seq<Field>, key: string, f: Field)
    ensures f in Without(fields, key) <==> f in fields && f.key != key
  {
    if fields != [] {
      assert fields == fields[..|fields| - 1] + [fields[|fields| - 1]];
      WithoutIs(fields[..|fields| - 1], key, f);
    }
  }

  lemma {:induction false} GetAppend(fields: seq<Field>, f: Field, key: string)
    ensures Get(fields + [f], key)
         == if Get(fields, key).Some? then Get(fields, key) else if f.key == key then Some(f.value) else None
  {
    if fields == [] {
      assert fields + [f] == [f];
    } else {
      assert (fields + [f])[1..] == fields[1..] + [f];
      GetAppend(fields[1..], f, key);
    }
  }

  lemma {:induction false} GetWithout(fields: seq<Field>, key: string, other: string)
    requires key != other
    ensures Get(Without(fields, key), other) == Get(fields, other)
    decreases |fields|
  {
    if fields != [] {
      var front, f := fields[..|fields| - 1], fields[|fields| - 1];
      assert fields == front + [f];
      GetWithout(front, key, other);
      GetAppend(front, f, other);
      GetAppend(Without(front, key), f, other);
      assert Without(fields, key) == if f.key == key then Without(front, key) else Without(front, key) + [f];
    }
  }

  /** An object names an id by its type or through a field. */
  lemma ObjectFinds(fields: seq<Field>, kind: Kind, g: Generic, id: string)
    ensures id in Collected(Object(fields), kind, g)
       <==> || id in Typed(fields, kind)
            || exists f :: f in fields && (id in OfField(f, kind, g) || id in Collected(f.value, kind, g))
  {
    assert fields[..|fields|] == fields;
    FieldsFound(fields, kind, g, id, |fields|);
    if f :| f in fields && (id in OfField(f, kind, g) || id in Collected(f.value, kind, g)) {
      var i :| 0 <= i < |fields| && fields[i] == f;
    }
  }

  predicate Plain(key: string) {
    key != "type" && key != "id"
  }

  lemma TypedWithout(fields: seq<Field>, key: string, kind: Kind)
    requires Plain(key)
    ensures Typed(Without(fields, key), kind) == Typed(fields, kind)
  {
    GetWithout(fields, key, "type");
    GetWithout(fields, key, "id");
  }

  lemma TypedWith(fields: seq<Field>, key: string, value: Json, kind: Kind)
    requires Plain(key)
    ensures Typed(With(fields, key, value), kind) == Typed(fields, kind)
  {
    TypedWithout(fields, key, kind);
    GetAppend(Without(fields, key), Field(key, value), "type");
    GetAppend(Without(fields, key), Field(key, value), "id");
  }

  /** Taking a field out names nothing new. */
  lemma WithoutNames(fields: seq<Field>, key: string, kind: Kind, id: string)
    requires Plain(key) && id in Collected(Object(Without(fields, key)), kind, PLAIN)
    ensures id in Collected(Object(fields), kind, PLAIN)
  {
    ObjectFinds(Without(fields, key), kind, PLAIN, id);
    ObjectFinds(fields, kind, PLAIN, id);
    TypedWithout(fields, key, kind);
    if f :| f in Without(fields, key) && (id in OfField(f, kind, PLAIN) || id in Collected(f.value, kind, PLAIN)) {
      WithoutIs(fields, key, f);
    }
  }

  /** Setting a field names nothing new but what its value does. */
  lemma WithNames(fields: seq<Field>, key: string, value: Json, kind: Kind, id: string)
    requires Plain(key) && id in Collected(Object(With(fields, key, value)), kind, PLAIN)
    ensures id in Collected(Object(fields), kind, PLAIN) || id in OfField(Field(key, value), kind, PLAIN)
         || id in Collected(value, kind, PLAIN)
  {
    ObjectFinds(With(fields, key, value), kind, PLAIN, id);
    ObjectFinds(fields, kind, PLAIN, id);
    TypedWith(fields, key, value, kind);
    if f :| f in With(fields, key, value) && (id in OfField(f, kind, PLAIN) || id in Collected(f.value, kind, PLAIN)) {
      WithoutIs(fields, key, f);
    }
  }

  lemma {:induction false} TextsNameNothing(ids: seq<string>, kind: Kind)
    ensures Collected(TextsOf(ids), kind, PLAIN) == []
    decreases |ids|
  {
    var items := TextsOf(ids).items;
    if ids != [] {
      var front := ids[..|ids| - 1];
      assert items[..|items| - 1] == TextsOf(front).items;
      TextsNameNothing(front, kind);
      assert Collected(TextsOf(front), kind, PLAIN) == CollectedItems(items[..|items| - 1], kind, PLAIN);
      assert Collected(Text(ids[|ids| - 1]), kind, PLAIN) == [];
    }
  }

  lemma TextsHold(ids: seq<string>, id: string)
    requires id in StringValues(TextsOf(ids))
    ensures id in ids
  {
  }

  lemma EmptyNames(fields: seq<Field>, key: string, kind: Kind, id: string)
    requires Plain(key) && id in Collected(Object(With(fields, key, List([]))), kind, PLAIN)
    ensures id in Collected(Object(fields), kind, PLAIN)
  {
    WithNames(fields, key, List([]), kind, id);
  }

  lemma FlagNames(fields: seq<Field>, key: string, kind: Kind, id: string)
    requires Plain(key) && id in Collected(Object(With(fields, key, Flag(false))), kind, PLAIN)
    ensures id in Collected(Object(fields), kind, PLAIN)
  {
    WithNames(fields, key, Flag(false), kind, id);
  }

  /** What the last three changes to a retrieval's body name was there before them. */
  lemma LaterNames(listed: seq<Field>, kind: Kind, id: string)
    requires var web := With(Without(listed, "knowledge_base_id"), "web_search_enabled", Flag(false));
             id in Collected(Object(With(web, "mcp_service_ids", List([]))), kind, PLAIN)
    ensures id in Collected(Object(listed), kind, PLAIN)
  {
    var single := Without(listed, "knowledge_base_id");
    EmptyNames(With(single, "web_search_enabled", Flag(false)), "mcp_service_ids", kind, id);
    FlagNames(single, "web_search_enabled", kind, id);
    WithoutNames(listed, "knowledge_base_id", kind, id);
  }

  /** Listing the forwarded knowledge bases names them and nothing else that is new. */
  lemma ListedNames(fields: seq<Field>, ids: seq<string>, kind: Kind, id: string)
    requires id in Collected(Object(With(fields, "knowledge_base_ids", TextsOf(ids))), kind, PLAIN)
    ensures id in Collected(Object(fields), kind, PLAIN) || (kind == Kind.KnowledgeBase && id in ids)
  {
    var value := TextsOf(ids);
    WithNames(fields, "knowledge_base_ids", value, kind, id);
    TextsNameNothing(ids, kind);
    if id in OfField(Field("knowledge_base_ids", value), kind, PLAIN) { TextsHold(ids, id); }
  }

  /** The rewritten body names what the original did, or a forwarded knowledge base. */
  lemma RewrittenNames(fields: seq<Field>, ids: seq<string>, kind: Kind, id: string)
    requires id in Collected(Rewritten(fields, ids), kind, PLAIN)
    ensures id in Collected(Object(fields), kind, PLAIN) || (kind == Kind.KnowledgeBase && id in ids)
  {
    LaterNames(With(fields, "knowledge_base_ids", TextsOf(ids)), kind, id);
    ListedNames(fields, ids, kind, id);
  }

  /** The body of a chat without knowledge names nothing that the original did not. */
  lemma PureChatNames(fields: seq<Field>, kind: Kind, id: string)
    requires id in Collected(PureChat(fields), kind, PLAIN)
    ensures id in Collected(Object(fields), kind, PLAIN)
  {
    var f0 := Without(fields, "knowledge_base_id");
    var f1 := With(f0, "knowledge_base_ids", List([]));
    var f2 := With(f1, "knowledge_ids", List([]));
    var f3 := With(f2, "tag_ids", List([]));
    var f4 := With(f3, "mentioned_items", List([]));
    var f5 := With(f4, "web_search_enabled", Flag(false));
    EmptyNames(f5, "mcp_service_ids", kind, id);
    FlagNames(f4, "web_search_enabled", kind, id);
    EmptyNames(f3, "mentioned_items", kind, id);
    EmptyNames(f2, "tag_ids", kind, id);
    EmptyNames(f1, "knowledge_ids", kind, id);
    EmptyNames(f0, "knowledge_base_ids", kind, id);
    WithoutNames(fields, "knowledge_base_id", kind, id);
  }

  // ---- What the forwarded bodies hold ----

  lemma {:induction false} WithoutHasNot(fields: seq<Field>, key: string)
    ensures Get(Without(fields, key), key) == None
    decreases |fields|
  {
    if fields != [] {
      var front, f := fields[..|fields| - 1], fields[|fields| - 1];
      WithoutHasNot(front, key);
      assert Without(fields, key) == if f.key == key then Without(front, key) else Without(front, key) + [f];
      if f.key != key { GetAppend(Without(front, key), f, key); }
    }
  }

  lemma GetWith(fields: seq<Field>, key: string, value: Json, other: string)
    ensures Get(With(fields, key, value), other) == if other == key then Some(value) else Get(fields, other)
  {
    GetAppend(Without(fields, key), Field(key, value), other);
    if other == key { WithoutHasNot(fields, key); } else { GetWithout(fields, key, other); }
  }

  lemma GetLess(fields: seq<Field>, key: string, other: string)
    ensures Get(Without(fields, key), other) == if other == key then None else Get(fields, other)
  {
    if other == key { WithoutHasNot(fields, key); } else { GetWithout(fields, key, other); }
  }

  /** The body with a list set, a field taken out, a flag cleared and another list emptied. */
  function Changed(fields: seq<Field>, a: string, value: Json, b: string, c: string, d: string): seq<Field> {
    With(With(Without(With(fields, a, value), b), c, Flag(false)), d, List([]))
  }

  lemma ChangedHolds(fields: seq<Field>, a: string, value: Json, b: string, c: string, d: string, key: string)
    requires a != b && a != c && a != d && b != c && b != d && c != d
    ensures Get(Changed(fields, a, value, b, c, d), key)
         == if key == a then Some(value) else if key == b then None else if key == c then Some(Flag(false))
            else if key == d then Some(List([])) else Get(fields, key)
  {
    var listed := With(fields, a, value);
    var single := Without(listed, b);
    GetWith(With(single, c, Flag(false)), d, List([]), key);
    GetWith(single, c, Flag(false), key);
    GetLess(listed, b, key);
    GetWith(fields, a, value, key);
  }

  /** `ids` as a JSON list. */
  predicate Lists(value: Option<Json>, ids: seq<string>) {
    && value.Some? && value.value.List? && |value.value.items| == |ids|
    && forall i :: 0 <= i < |ids| ==> value.value.items[i] == Text(ids[i])
  }

  const FORWARDED_KEYS := ["knowledge_base_ids", "knowledge_base_id", "web_search_enabled", "mcp_service_ids"]

  lemma KeysDiffer()
    ensures forall i, j :: 0 <= i < j < 4 ==> FORWARDED_KEYS[i] != FORWARDED_KEYS[j]
  {
    var keys := FORWARDED_KEYS;
    assert |keys[0]| == 18 && |keys[1]| == 17 && |keys[2]| == 18 && |keys[3]| == 15;
    assert keys[0][0] == 'k' && keys[2][0] == 'w';
  }

  /** The rewritten body lists exactly the forwarded knowledge bases, in order, turns web search and MCP services off,
      and is otherwise as it was. */
  lemma RewrittenHolds(fields: seq<Field>, ids: seq<string>, key: string)
    ensures Rewritten(fields, ids).Object?
    ensures var held := Get(Rewritten(fields, ids).fields, key);
            if key == "knowledge_base_ids" then Lists(held, ids)
            else if key == "knowledge_base_id" then held == None
            else if key == "web_search_enabled" then held == Some(Flag(false))
            else if key == "mcp_service_ids" then held == Some(List([]))
            else held == Get(fields, key)
  {
    KeysDiffer();
    var keys := FORWARDED_KEYS;
    ChangedHolds(fields, keys[0], TextsOf(ids), keys[1], keys[2], keys[3], key);
    assert Rewritten(fields, ids) == Object(Changed(fields, keys[0], TextsOf(ids), keys[1], keys[2], keys[3]));
  }

  /** Fields emptied one after the other. */
  function Emptied(fields: seq<Field>, keys: seq<string>): seq<Field> {
    if keys == [] then fields else With(Emptied(fields, keys[..|keys| - 1]), keys[|keys| - 1], List([]))
  }

  lemma {:induction false} EmptiedHolds(fields: seq<Field>, keys: seq<string>, key: string)
    ensures Get(Emptied(fields, keys), key) == if key in keys then Some(List([])) else Get(fields, key)
    decreases |keys|
  {
    if keys != [] {
      var front := keys[..|keys| - 1];
      assert keys == front + [keys[|keys| - 1]];
      EmptiedHolds(fields, front, key);
      GetWith(Emptied(fields, front), keys[|keys| - 1], List([]), key);
    }
  }

  const EMPTIED_KEYS := ["knowledge_base_ids", "knowledge_ids", "tag_ids", "mentioned_items"]

  lemma EmptiedFour(fields: seq<Field>, a: string, b: string, c: string, d: string)
    ensures Emptied(fields, [a, b, c, d])
         == With(With(With(With(fields, a, List([])), b, List([])), c, List([])), d, List([]))
  {
    assert [a, b, c, d][..3] == [a, b, c] && [a, b, c][..2] == [a, b] && [a, b][..1] == [a];
    assert Emptied(fields, [a]) == With(fields, a, List([]));
    assert Emptied(fields, [a, b]) == With(Emptied(fields, [a]), b, List([]));
    assert Emptied(fields, [a, b, c]) == With(Emptied(fields, [a, b]), c, List([]));
  }

  /** The body of a chat without knowledge has no knowledge bases, documents, tags, mentions, web search or MCP
      services, and is otherwise as it was. */
  lemma PureChatHolds(fields: seq<Field>, key: string)
    ensures PureChat(fields).Object?
    ensures var held := Get(PureChat(fields).fields, key);
            if key == "mcp_service_ids" then held == Some(List([]))
            else if key == "web_search_enabled" then held == Some(Flag(false))
            else if key in EMPTIED_KEYS then held == Some(List([]))
            else if key == "knowledge_base_id" then held == None
            else held == Get(fields, key)
  {
    var keys := EMPTIED_KEYS;
    var single := Without(fields, "knowledge_base_id");
    var emptied := Emptied(single, keys);
    EmptiedFour(single, keys[0], keys[1], keys[2], keys[3]);
    assert keys == [keys[0], keys[1], keys[2], keys[3]];
    assert PureChat(fields)
        == Object(With(With(emptied, "web_search_enabled", Flag(false)), "mcp_service_ids", List([])));
    GetWith(With(emptied, "web_search_enabled", Flag(false)), "mcp_service_ids", List([]), key);
    GetWith(emptied, "web_search_enabled", Flag(false), key);
    EmptiedHolds(single, keys, key);
    GetLess(fields, "knowledge_base_id", key);
  }

  /** `id` is in the scope, up to white space around it. */
  predicate Covered(ids: seq<string>, id: string) {
    id != "" && (id in ids || (Trim(id) in ids && Trim(id) != ""))
  }

  /** A knowledge base that the rewritten body names, anywhere in it, is in the forwarded scope. */
  lemma RewrittenIsCovered(s: Services, document: Json, ids: seq<string>, id: string)
    requires document.Object? && WellScoped(s, document, ids)
    requires Named(Rewritten(document.fields, ids), Kind.KnowledgeBase, PLAIN, id)
    ensures Covered(ids, id)
  {
    NamedIsNotEmpty(Rewritten(document.fields, ids), Kind.KnowledgeBase, PLAIN, id);
    CollectedExactly(Rewritten(document.fields, ids), Kind.KnowledgeBase, PLAIN, id);
    RewrittenNames(document.fields, ids, Kind.KnowledgeBase, id);
    CollectedExactly(document, Kind.KnowledgeBase, PLAIN, id);
    assert id in ids || AsksFor(s, document, id);
  }

  lemma NothingRequested(s: Services, document: Json, id: string)
    requires Requested(s, document) == Ok([])
    ensures id !in Collected(document, Kind.KnowledgeBase, PLAIN)
  {
    CollectedExactly(document, Kind.KnowledgeBase, PLAIN, id);
    if Named(document, Kind.KnowledgeBase, PLAIN, id) {
      NamedIsNotEmpty(document, Kind.KnowledgeBase, PLAIN, id);
      RequestedIs(s, document, id);
    }
  }

  lemma PureChatCollectsNone(s: Services, document: Json, id: string)
    requires document.Object? && Requested(s, document) == Ok([])
    ensures id !in Collected(PureChat(document.fields), Kind.KnowledgeBase, PLAIN)
  {
    NothingRequested(s, document, id);
    if id in Collected(PureChat(document.fields), Kind.KnowledgeBase, PLAIN) {
      PureChatNames(document.fields, Kind.KnowledgeBase, id);
    }
  }

  lemma PureRequestsNothing(f: Facts, s: Services, document: Json)
    requires PlanFor(f, s, document).Ok? && PlanFor(f, s, document).value.pure
    ensures Requested(s, document) == Ok([])
  {
  }

  lemma NotNamed(document: Json, id: string)
    requires id !in Collected(document, Kind.KnowledgeBase, PLAIN)
    ensures !Named(document, Kind.KnowledgeBase, PLAIN, id)
  {
    CollectedExactly(document, Kind.KnowledgeBase, PLAIN, id);
  }

  /** A chat without knowledge requests none, and its forwarded body names none. */
  lemma PureChatNamesNone(f: Facts, s: Services, document: Json, id: string)
    requires document.Object? && PlanFor(f, s, document).Ok? && PlanFor(f, s, document).value.pure
    ensures !Named(PureChat(document.fields), Kind.KnowledgeBase, PLAIN, id)
  {
    PureRequestsNothing(f, s, document);
    PureChatCollectsNone(s, document, id);
    NotNamed(PureChat(document.fields), id);
  }

  /** A body that is forwarded with no chat without knowledge is the rewritten one. */
  lemma ForwardedBody(f: Facts, s: Services, body: Body, scope: Result<Scoped, GateError>, body': Body)
    requires RetrievalScope(f, s, body, scope, body') && scope.Ok?
    ensures body.Parsed? && body.value.Object? && PlanFor(f, s, body.value).Ok?
    ensures body' == if PlanFor(f, s, body.value).value.pure then Parsed(PureChat(body.value.fields))
                     else Parsed(Rewritten(body.value.fields, scope.value.kbs))
  {
    if !PlanFor(f, s, body.value).value.pure { ForwardedIsWellScoped(f, s, body, scope, body'); }
  }

  lemma ForwardedNames(f: Facts, s: Services, body: Body, scope: Result<Scoped, GateError>, body': Body, id: string)
    requires RetrievalScope(f, s, body, scope, body') && scope.Ok?
    requires body'.Parsed? && Named(body'.value, Kind.KnowledgeBase, PLAIN, id)
    ensures Covered(scope.value.kbs, id)
  {
    ForwardedBody(f, s, body, scope, body');
    if PlanFor(f, s, body.value).value.pure {
      PureChatNamesNone(f, s, body.value, id);
    } else {
      ForwardedIsWellScoped(f, s, body, scope, body');
      RewrittenIsCovered(s, body.value, scope.value.kbs, id);
    }
  }

  lemma ScopeIsAuthorized(f: Facts, s: Services, scope: Scoped, seen: Sessions, r: Result<seq<string>, GateError>,
                          id: string)
    requires f.pathKbs.Ok? && f.action.Some? && Concluded(f, s, scope, seen, r) && r.Ok?
    requires Covered(scope.kbs, id)
    ensures id in r.value || Trim(id) in r.value
  {
    CheckedCovers(f, s, scope, seen, id);
    CheckedCovers(f, s, scope, seen, Trim(id));
  }

  /** Every knowledge base that the forwarded body of a successful retrieval names, anywhere in it, is one that the
      request was authorized for, for its own action, up to white space around the name. */
  lemma ForwardedIsAuthorized(f: Facts, s: Services, body: Body, seen: Sessions, r: Result<seq<string>, GateError>,
                              body': Body, records: seq<Recording>, id: string)
    requires Answered(f, s, body, seen, r, body', records) && r.Ok? && f.retrieval
    requires body'.Parsed? && Named(body'.value, Kind.KnowledgeBase, PLAIN, id)
    ensures id in r.value || Trim(id) in r.value
    ensures forall kb :: kb in r.value ==> May(f, s, kb)
  {
    ServedIs(f, s, body, seen, r, body', records);
    var scope :| ScopeOf(f, s, body, scope, body') && Ends(f, s, scope, seen, r, records);
    ForwardedNames(f, s, body, scope, body', id);
    ScopeIsAuthorized(f, s, scope.value, seen, r, id);
  }
}
