/** gate.go, collectScope: the keys and types by which a JSON object names an id, spelled out. */
module ScopeKeys {
  import opened Basics
  import opened Scopes

  function KeysOf(kind: Kind, g: Generic): set<string> {
    match kind
    case KnowledgeBase =>
      {"knowledge_base_id", "kb_id", "source_id", "target_id", "knowledge_base_ids", "knowledge_bases"}
    case Document => {"knowledge_id", "knowledge_ids"} + (if g.documents then {"ids"} else {})
    case Agent => {"agent_id"}
    case Session => {"session_id", "session_ids"} + (if g.sessions then {"ids"} else {})
  }

  function TypesOf(kind: Kind): set<string> {
    match kind
    case KnowledgeBase => {"kb", "knowledge_base"}
    case Agent => {"agent"}
    case _ => {}
  }

  /** The object has one of the types and this id, or a field under one of the keys that is the id or lists it. */
  predicate Marks(part: Json, kind: Kind, g: Generic, id: string) {
    && part.Object? && id != ""
    && (|| (Get(part.fields, "id") == Some(Text(id))
            && exists t :: t in TypesOf(kind) && Get(part.fields, "type") == Some(Text(t)))
        || exists f :: f in part.fields && f.key in KeysOf(kind, g)
             && (f.value == Text(id) || (f.value.List? && Text(id) in f.value.items)))
  }

  lemma TypeIn(fields: seq<Field>, kind: Kind)
    ensures TypeIs(fields, kind) <==> exists t :: t in TypesOf(kind) && Get(fields, "type") == Some(Text(t))
  {
    if TypeIs(fields, kind) { assert TextOf(fields, "type") in TypesOf(kind) && TextOf(fields, "type") != ""; }
  }

  lemma MarksExactly(part: Json, kind: Kind, g: Generic, id: string)
    ensures Mentions(part, kind, g, id) <==> Marks(part, kind, g, id)
  {
    if part.Object? {
      TypeIn(part.fields, kind);
      if f :| f in part.fields && f.key in KeysOf(kind, g)
              && (f.value == Text(id) || (f.value.List? && Text(id) in f.value.items)) {
        var i :| 0 <= i < |part.fields| && part.fields[i] == f;
        assert Names(part.fields[i].key, kind, g) && Holds(part.fields[i].value, id);
      }
      if i :| 0 <= i < |part.fields| && Names(part.fields[i].key, kind, g) && Holds(part.fields[i].value, id) {
        assert part.fields[i] in part.fields && part.fields[i].key in KeysOf(kind, g);
      }
    }
  }

  /** An id is collected from a value exactly when some object in it, at any depth, names it in one of these ways. */
  lemma CollectedWhenMarked(value: Json, kind: Kind, g: Generic, id: string)
    ensures id in Collected(value, kind, g) <==> exists part :: Inside(part, value) && Marks(part, kind, g, id)
  {
    CollectedExactly(value, kind, g, id);
    if part :| Inside(part, value) && Mentions(part, kind, g, id) { MarksExactly(part, kind, g, id); }
    if part :| Inside(part, value) && Marks(part, kind, g, id) { MarksExactly(part, kind, g, id); }
  }
}
