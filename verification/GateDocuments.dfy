/** gate.go: the documents that the body of a retrieval is forwarded with belong to authorized knowledge bases. */
module GateDocuments {
  import opened Basics
  import opened AgentScope
  import opened Scopes
  import opened GateRules
  import opened GateRuns
  import opened GateBodies

  /** A document that the forwarded body names was named by the original one. */
  lemma ForwardedDocument(f: Facts, s: Services, body: Body, scope: Result<Scoped, GateError>, body': Body, d: string)
    requires RetrievalScope(f, s, body, scope, body') && scope.Ok?
    requires body'.Parsed? && Named(body'.value, Kind.Document, PLAIN, d)
    ensures body.Parsed? && body.value.Object? && PlanFor(f, s, body.value).Ok?
    ensures Named(body.value, Kind.Document, PLAIN, d)
  {
    ForwardedBody(f, s, body, scope, body');
    CollectedExactly(body'.value, Kind.Document, PLAIN, d);
    CollectedExactly(body.value, Kind.Document, PLAIN, d);
    if PlanFor(f, s, body.value).value.pure {
      PureChatNames(body.value.fields, Kind.Document, d);
    } else {
      RewrittenNames(body.value.fields, scope.value.kbs, Kind.Document, d);
    }
  }

  /** Every document that a planned body names has a parent. */
  lemma DocumentHasParent(f: Facts, s: Services, document: Json, d: string)
    requires PlanFor(f, s, document).Ok? && Named(document, Kind.Document, PLAIN, d)
    ensures s.parent(d).Ok?
  {
    var named := Collected(document, Kind.Document, PLAIN);
    CollectedExactly(document, Kind.Document, PLAIN, d);
    NamedIsNotEmpty(document, Kind.Document, PLAIN, d);
    UniqueIs(named);
    GatherHas(UniqueOf(named), ParentOf(s), d);
  }

  /** The parent of a document that the forwarded body names is in the scope. */
  lemma DocumentIsCovered(f: Facts, s: Services, body: Body, scope: Result<Scoped, GateError>, body': Body, d: string,
                          kb: string)
    requires RetrievalScope(f, s, body, scope, body') && scope.Ok? && body.Parsed? && body.value.Object?
    requires Named(body.value, Kind.Document, PLAIN, d) && s.parent(d) == Ok(kb) && kb != ""
    ensures Covered(scope.value.kbs, kb)
  {
    assert AsksFor(s, body.value, kb);
    if PlanFor(f, s, body.value).value.pure {
      PureRequestsNothing(f, s, body.value);
      RequestedIs(s, body.value, kb);
    } else {
      ForwardedIsWellScoped(f, s, body, scope, body');
    }
  }

  /** Every document that the forwarded body of a successful retrieval names, anywhere in it, belongs to a knowledge
      base that the request was authorized for, up to white space around its name. */
  lemma DocumentIsAuthorized(f: Facts, s: Services, body: Body, seen: Sessions, r: Result<seq<string>, GateError>,
                             body': Body, records: seq<Recording>, d: string)
    requires Answered(f, s, body, seen, r, body', records) && r.Ok? && f.retrieval
    requires body'.Parsed? && Named(body'.value, Kind.Document, PLAIN, d)
    ensures s.parent(d).Ok?
    ensures s.parent(d).value != "" ==> s.parent(d).value in r.value || Trim(s.parent(d).value) in r.value
    ensures forall kb :: kb in r.value ==> May(f, s, kb)
  {
    ServedIs(f, s, body, seen, r, body', records);
    var scope :| ScopeOf(f, s, body, scope, body') && Ends(f, s, scope, seen, r, records);
    ForwardedDocument(f, s, body, scope, body', d);
    DocumentHasParent(f, s, body.value, d);
    var kb := s.parent(d).value;
    if kb != "" {
      DocumentIsCovered(f, s, body, scope, body', d, kb);
      ScopeIsAuthorized(f, s, scope.value, seen, r, kb);
    }
  }
}
