/** gate.go, collectScope: the knowledge bases, documents, agents and sessions a JSON body names, at any depth. */
module Scopes {
  import opened Basics

  /** Decoded JSON; the fields of an object come in the order in which they are visited. */
  datatype Json = Null | Flag(flag: bool) | Number(number: real) | Text(text: string)
                | List(items: seq<Json>) | Object(fields: seq<Field>)

  datatype Field = Field(key: string, value: Json)

  datatype Kind = KnowledgeBase | Document | Agent | Session

  /** Whether a plain `ids` list names documents, or sessions, on this route. */
  datatype Generic = Generic(documents: bool, sessions: bool)

  predicate Names(key: string, kind: Kind, g: Generic) {
    match kind
    case KnowledgeBase =>
      || key == "knowledge_base_id" || key == "kb_id" || key == "source_id" || key == "target_id"
      || key == "knowledge_base_ids" || key == "knowledge_bases"
    case Document => key == "knowledge_id" || key == "knowledge_ids" || (key == "ids" && g.documents)
    case Agent => key == "agent_id"
    case Session => key == "session_id" || key == "session_ids" || (key == "ids" && g.sessions)
  }

  function Get(fields: seq<Field>, key: string): Option<Json> {
    if fields == [] then None else if fields[0].key == key then Some(fields[0].value) else Get(fields[1..], key)
  }

  function TextOf(fields: seq<Field>, key: string): string {
    match Get(fields, key)
    case Some(Text(s)) => s
    case _ => ""
  }

  /** What an object with a type and an id is. */
  predicate TypeIs(fields: seq<Field>, kind: Kind) {
    match kind
    case KnowledgeBase => TextOf(fields, "type") == "kb" || TextOf(fields, "type") == "knowledge_base"
    case Agent => TextOf(fields, "type") == "agent"
    case _ => false
  }

  function Typed(fields: seq<Field>, kind: Kind): seq<string> {
    if TextOf(fields, "id") != "" && TypeIs(fields, kind) then [TextOf(fields, "id")] else []
  }

  function Texts(items: seq<Json>): (r: seq<string>)
    ensures forall s :: s in r <==> s != "" && Text(s) in items
  {
    if items == [] then []
    else
      var n := |items| - 1;
      assert items == items[..n] + [items[n]];
      Texts(items[..n]) + if items[n].Text? && items[n].text != "" then [items[n].text] else []
  }

  /** stringValues: a string, or the strings of a list, without empty ones. */
  function StringValues(value: Json): (r: seq<string>)
    ensures forall s :: s in r <==> s != "" && (value == Text(s) || (value.List? && Text(s) in value.items))
  {
    match value
    case Text(s) => if s == "" then [] else [s]
    case List(items) => Texts(items)
    case _ => []
  }

  // ---- What is collected, in order ----

  function Collected(value: Json, kind: Kind, g: Generic): seq<string>
    decreases value
  {
    match value
    case List(items) => CollectedItems(items, kind, g)
    case Object(fields) => Typed(fields, kind) + CollectedFields(fields, kind, g)
    case _ => []
  }

  function CollectedItems(items: seq<Json>, kind: Kind, g: Generic): seq<string>
    decreases items
  {
    if items == [] then []
    else CollectedItems(items[..|items| - 1], kind, g) + Collected(items[|items| - 1], kind, g)
  }

  function OfField(f: Field, kind: Kind, g: Generic): seq<string> {
    if Names(f.key, kind, g) then StringValues(f.value) else []
  }

  function CollectedFields(fields: seq<Field>, kind: Kind, g: Generic): seq<string>
    decreases fields
  {
    if fields == [] then []
    else
      var f := fields[|fields| - 1];
      CollectedFields(fields[..|fields| - 1], kind, g) + (OfField(f, kind, g) + Collected(f.value, kind, g))
  }

  class RequestScope {
    var kbIDs: seq<string>
    var knowledgeIDs: seq<string>
    var agentIDs: seq<string>
    var sessionIDs: seq<string>

    constructor ()
      ensures Ids(KnowledgeBase) == Ids(Document) == Ids(Agent) == Ids(Session) == []
    {
      kbIDs, knowledgeIDs, agentIDs, sessionIDs := [], [], [], [];
    }

    function Ids(kind: Kind): seq<string>
      reads this
    {
      match kind
      case KnowledgeBase => kbIDs
      case Document => knowledgeIDs
      case Agent => agentIDs
      case Session => sessionIDs
    }

    /** Everything that `value` names is appended. */
    method CollectScope(value: Json, g: Generic)
      modifies this
      ensures forall kind :: Ids(kind) == old(Ids(kind)) + Collected(value, kind, g)
      decreases value, 1
    {
      match value {
        case List(items) => CollectItems(items, g);
        case Object(fields) => CollectObject(fields, g);
        case _ =>
      }
    }

    method CollectObject(fields: seq<Field>, g: Generic)
      modifies this
      ensures forall kind :: Ids(kind) == old(Ids(kind)) + (Typed(fields, kind) + CollectedFields(fields, kind, g))
      decreases fields, 1
    {
      CollectTyped(fields);
      CollectFields(fields, g);
    }

    method CollectItems(items: seq<Json>, g: Generic)
      modifies this
      ensures forall kind :: Ids(kind) == old(Ids(kind)) + CollectedItems(items, kind, g)
      decreases items, 0
    {
      for i := 0 to |items|
        invariant forall kind :: Ids(kind) == old(Ids(kind)) + CollectedItems(items[..i], kind, g)
      {
        assert items[..i + 1][..i] == items[..i];
        CollectScope(items[i], g);
      }
      assert items[..|items|] == items;
    }

    method CollectFields(fields: seq<Field>, g: Generic)
      modifies this
      ensures forall kind :: Ids(kind) == old(Ids(kind)) + CollectedFields(fields, kind, g)
      decreases fields, 0
    {
      for i := 0 to |fields|
        invariant forall kind :: Ids(kind) == old(Ids(kind)) + CollectedFields(fields[..i], kind, g)
      {
        assert fields[..i + 1][..i] == fields[..i];
        VisitField(fields[i], g);
      }
      assert fields[..|fields|] == fields;
    }

    method VisitField(f: Field, g: Generic)
      modifies this
      ensures forall kind :: Ids(kind) == old(Ids(kind)) + (OfField(f, kind, g) + Collected(f.value, kind, g))
      decreases f, 0
    {
      CollectField(f, g);
      CollectScope(f.value, g);
    }

    method CollectTyped(fields: seq<Field>)
      modifies this
      ensures forall kind :: Ids(kind) == old(Ids(kind)) + Typed(fields, kind)
    {
      var resourceType, resourceID := TextOf(fields, "type"), TextOf(fields, "id");
      if resourceID != "" {
        if resourceType == "kb" || resourceType == "knowledge_base" {
          kbIDs := kbIDs + [resourceID];
        } else if resourceType == "agent" {
          agentIDs := agentIDs + [resourceID];
        }
      }
    }

    method CollectField(f: Field, g: Generic)
      modifies this
      ensures forall kind :: Ids(kind) == old(Ids(kind)) + OfField(f, kind, g)
    {
      var values := StringValues(f.value);
      if f.key == "knowledge_base_id" || f.key == "kb_id" || f.key == "source_id" || f.key == "target_id"
         || f.key == "knowledge_base_ids" || f.key == "knowledge_bases" {
        kbIDs := kbIDs + values;
      } else if f.key == "knowledge_id" || f.key == "knowledge_ids" {
        knowledgeIDs := knowledgeIDs + values;
      } else if f.key == "agent_id" {
        agentIDs := agentIDs + values;
      } else if f.key == "session_id" || f.key == "session_ids" {
        sessionIDs := sessionIDs + values;
      } else if f.key == "ids" {
        if g.documents { knowledgeIDs := knowledgeIDs + values; }
        if g.sessions { sessionIDs := sessionIDs + values; }
      }
    }
  }

  // ---- Found exactly when named somewhere ----

  /** `part` is `value` or lies anywhere inside it. */
  ghost predicate Inside(part: Json, value: Json)
    decreases value
  {
    || part == value
    || (value.List? && exists i :: 0 <= i < |value.items| && Inside(part, value.items[i]))
    || (value.Object? && exists i :: 0 <= i < |value.fields| && Inside(part, value.fields[i].value))
  }

  /** An object names an id: by its type, or by a field for this kind that holds it. */
  predicate Mentions(part: Json, kind: Kind, g: Generic, id: string) {
    && part.Object? && id != ""
    && (|| (TypeIs(part.fields, kind) && Get(part.fields, "id") == Some(Text(id)))
        || exists i :: 0 <= i < |part.fields| && Names(part.fields[i].key, kind, g) && Holds(part.fields[i].value, id))
  }

  predicate Holds(value: Json, id: string) {
    value == Text(id) || (value.List? && Text(id) in value.items)
  }

  ghost predicate Named(value: Json, kind: Kind, g: Generic, id: string) {
    exists part :: Inside(part, value) && Mentions(part, kind, g, id)
  }

  lemma NamedIsNotEmpty(value: Json, kind: Kind, g: Generic, id: string)
    requires Named(value, kind, g, id)
    ensures id != ""
  {
    var part :| Inside(part, value) && Mentions(part, kind, g, id);
  }

  lemma {:induction false} ItemsFound(items: seq<Json>, kind: Kind, g: Generic, id: string, n: nat)
    requires n <= |items|
    ensures id in CollectedItems(items[..n], kind, g) <==> exists i :: 0 <= i < n && id in Collected(items[i], kind, g)
    decreases n
  {
    if n > 0 {
      assert items[..n][..n - 1] == items[..n - 1];
      ItemsFound(items, kind, g, id, n - 1);
    }
  }

  lemma {:induction false} FieldsFound(fields: seq<Field>, kind: Kind, g: Generic, id: string, n: nat)
    requires n <= |fields|
    ensures id in CollectedFields(fields[..n], kind, g)
       <==> exists i :: 0 <= i < n && (id in OfField(fields[i], kind, g) || id in Collected(fields[i].value, kind, g))
    decreases n
  {
    if n > 0 {
      assert fields[..n][..n - 1] == fields[..n - 1];
      FieldsFound(fields, kind, g, id, n - 1);
    }
  }

  lemma {:induction false} CollectedIsNamed(value: Json, kind: Kind, g: Generic, id: string)
    requires id in Collected(value, kind, g)
    ensures Named(value, kind, g, id)
    decreases value
  {
    match value {
      case List(items) =>
        assert items[..|items|] == items;
        ItemsFound(items, kind, g, id, |items|);
        var i :| 0 <= i < |items| && id in Collected(items[i], kind, g);
        CollectedIsNamed(items[i], kind, g, id);
        var part :| Inside(part, items[i]) && Mentions(part, kind, g, id);
        assert Inside(part, value);
      case Object(fields) =>
        if id in Typed(fields, kind) {
          assert Inside(value, value) && Mentions(value, kind, g, id);
        } else {
          assert fields[..|fields|] == fields;
          FieldsFound(fields, kind, g, id, |fields|);
          var i :| 0 <= i < |fields|
              && (id in OfField(fields[i], kind, g) || id in Collected(fields[i].value, kind, g));
          if id in OfField(fields[i], kind, g) {
            assert Holds(fields[i].value, id);
            assert Inside(value, value) && Mentions(value, kind, g, id);
          } else {
            CollectedIsNamed(fields[i].value, kind, g, id);
            var part :| Inside(part, fields[i].value) && Mentions(part, kind, g, id);
            assert Inside(part, value);
          }
        }
      case _ =>
    }
  }

  lemma MentionedIsCollected(value: Json, kind: Kind, g: Generic, id: string)
    requires Mentions(value, kind, g, id)
    ensures id in Collected(value, kind, g)
  {
    var fields := value.fields;
    assert fields[..|fields|] == fields;
    FieldsFound(fields, kind, g, id, |fields|);
    if !(TypeIs(fields, kind) && Get(fields, "id") == Some(Text(id))) {
      var i :| 0 <= i < |fields| && Names(fields[i].key, kind, g) && Holds(fields[i].value, id);
      assert id in OfField(fields[i], kind, g);
    }
  }

  lemma {:induction false} NamedIsCollected(value: Json, kind: Kind, g: Generic, id: string, part: Json)
    requires Inside(part, value) && Mentions(part, kind, g, id)
    ensures id in Collected(value, kind, g)
    decreases value
  {
    if part == value {
      MentionedIsCollected(value, kind, g, id);
    } else if value.List? {
      var items := value.items;
      assert items[..|items|] == items;
      var i :| 0 <= i < |items| && Inside(part, items[i]);
      NamedIsCollected(items[i], kind, g, id, part);
      ItemsFound(items, kind, g, id, |items|);
    } else {
      var fields := value.fields;
      assert fields[..|fields|] == fields;
      var i :| 0 <= i < |fields| && Inside(part, fields[i].value);
      NamedIsCollected(fields[i].value, kind, g, id, part);
      FieldsFound(fields, kind, g, id, |fields|);
    }
  }

  /** An id is collected exactly when some object, at any depth, names it. */
  lemma CollectedExactly(value: Json, kind: Kind, g: Generic, id: string)
    ensures id in Collected(value, kind, g) <==> Named(value, kind, g, id)
  {
    if id in Collected(value, kind, g) { CollectedIsNamed(value, kind, g, id); }
    if part :| Inside(part, value) && Mentions(part, kind, g, id) { NamedIsCollected(value, kind, g, id, part); }
  }
}
