/** gate.go: the gate in front of the knowledge service. */
module GateService {
  import opened Basics
  import AgentScope
  import opened Scopes
  import opened GateRules

  class Request {
    const facts: Facts
    var body: Body

    constructor (facts: Facts, body: Body)
      ensures this.facts == facts && this.body == body
    {
      this.facts, this.body := facts, body;
    }
  }

  method Unique(values: seq<string>) returns (result: seq<string>)
    ensures result == UniqueOf(values)
  {
    var seen: set<string> := {};
    result := [];
    for i := 0 to |values|
      invariant result == UniqueOf(values[..i])
      invariant forall v :: v in seen <==> v in result
    {
      assert values[..i + 1][..i] == values[..i];
      if values[i] != "" && values[i] !in seen {
        seen, result := seen + {values[i]}, result + [values[i]];
      }
    }
    assert values[..|values|] == values;
  }

  method IsSubset(requested: seq<string>, allowed: seq<string>) returns (r: bool)
    ensures r <==> Subset(requested, allowed)
  {
    var allowedSet := set id | id in allowed;
    for i := 0 to |requested|
      invariant forall k :: 0 <= k < i ==> requested[k] in allowed
    {
      if requested[i] !in allowedSet { return false; }
    }
    r := true;
  }

  /** Each id is looked up in turn, until a lookup fails. */
  method LookUp(ids: seq<string>, look: Look) returns (r: Result<seq<string>, GateError>)
    ensures r == Gather(ids, look)
  {
    var found: seq<string> := [];
    for i := 0 to |ids|
      invariant Gather(ids[..i], look) == Ok(found)
    {
      assert ids[..i + 1][..i] == ids[..i];
      var one := look(ids[i]);
      if one.Err? {
        GatherFails(ids, look, i + 1);
        return one;
      }
      found := found + one.value;
    }
    assert ids[..|ids|] == ids;
    r := Ok(found);
  }

  /** resolveRequestScope: what the query and the body name. */
  method ResolveRequestScope(request: Request) returns (r: Result<Scoped, GateError>)
    ensures r == PlainScope(request.facts, request.body)
  {
    var query := request.facts.query;
    match request.body {
      case NoJson => r := Ok(query);
      case TooLong => r := Err(BodyTooLarge);
      case Blank => r := Ok(query);
      case Broken => r := Err(InvalidJson);
      case Parsed(document) =>
        var scope := new RequestScope();
        scope.kbIDs, scope.knowledgeIDs, scope.agentIDs, scope.sessionIDs :=
            query.kbs, query.documents, query.agents, query.sessions;
        assert forall kind :: scope.Ids(kind)
                 == match kind case KnowledgeBase => query.kbs case Document => query.documents
                                                   case Agent => query.agents case Session => query.sessions;
        scope.CollectScope(document, request.facts.generic);
        assert scope.Ids(Kind.KnowledgeBase) == scope.kbIDs && scope.Ids(Kind.Document) == scope.knowledgeIDs;
        assert scope.Ids(Kind.Agent) == scope.agentIDs && scope.Ids(Kind.Session) == scope.sessionIDs;
        r := Ok(Scoped(scope.kbIDs, scope.knowledgeIDs, scope.agentIDs, scope.sessionIDs));
    }
  }

  /** Which scope to ask for. */
  method Choose(f: Facts, s: Services, requested: seq<string>, agentIDs: seq<string>)
    returns (r: Result<Plan, GateError>)
    ensures r == PlanOf(f, s, requested, agentIDs)
  {
    if |agentIDs| > 1 { return Err(AgentScopeInvalid); }
    var selection, ids, pureChat := AgentScope.Explicit, requested, false;
    if |agentIDs| == 1 {
      var agentScope := s.agent(agentIDs[0]);
      if agentScope.Err? { return Err(agentScope.error); }
      if |requested| == 0 {
        if agentScope.value.mode == "all" {
          selection := AgentScope.Default;
        } else if agentScope.value.mode == "none" {
          pureChat := f.conversation;
        } else {
          ids := Unique(agentScope.value.ids);
        }
      } else if agentScope.value.mode != "all" {
        var inside := IsSubset(requested, agentScope.value.ids);
        if !inside { return Err(NotFound); }
      }
    } else if |requested| == 0 {
      selection := AgentScope.Default;
    }
    r := Ok(Plan(selection, ids, pureChat));
  }

  /** What a document names. */
  method CollectFrom(document: Json) returns (named: Scoped)
    ensures named == Append(Scoped([], [], [], []), document, PLAIN)
  {
    var discovered := new RequestScope();
    discovered.CollectScope(document, PLAIN);
    assert discovered.kbIDs == discovered.Ids(Kind.KnowledgeBase)
             == [] + Collected(document, Kind.KnowledgeBase, PLAIN);
    assert discovered.knowledgeIDs == discovered.Ids(Kind.Document) == [] + Collected(document, Kind.Document, PLAIN);
    assert discovered.agentIDs == discovered.Ids(Kind.Agent) == [] + Collected(document, Kind.Agent, PLAIN);
    assert discovered.sessionIDs == discovered.Ids(Kind.Session) == [] + Collected(document, Kind.Session, PLAIN);
    named := Scoped(discovered.kbIDs, discovered.knowledgeIDs, discovered.agentIDs, discovered.sessionIDs);
  }

  lemma AppendToNothing(document: Json)
    ensures var named := Append(Scoped([], [], [], []), document, PLAIN);
            && named.kbs == Collected(document, Kind.KnowledgeBase, PLAIN)
            && named.documents == Collected(document, Kind.Document, PLAIN)
            && named.agents == Collected(document, Kind.Agent, PLAIN)
            && named.sessions == Collected(document, Kind.Session, PLAIN)
  {
  }

  /** The knowledge bases that a retrieval asks for. */
  method Ask(s: Services, document: Json, kbs: seq<string>, documents: seq<string>)
    returns (r: Result<seq<string>, GateError>)
    requires kbs == Collected(document, Kind.KnowledgeBase, PLAIN)
    requires documents == Collected(document, Kind.Document, PLAIN)
    ensures r == Requested(s, document)
  {
    var knowledgeIDs := Unique(documents);
    var parents := LookUp(knowledgeIDs, ParentOf(s));
    if parents.Err? { return parents; }
    var requested := Unique(kbs + parents.value);
    r := Ok(requested);
  }

  /** What the body of a retrieval names, collected once, and the scope to ask for. */
  method Discover(f: Facts, s: Services, document: Json) returns (r: Result<Plan, GateError>, sessionIDs: seq<string>)
    ensures r == PlanFor(f, s, document)
    ensures sessionIDs == Collected(document, Kind.Session, PLAIN)
  {
    var discovered := CollectFrom(document);
    AppendToNothing(document);
    sessionIDs := discovered.sessions;
    var requested := Ask(s, document, discovered.kbs, discovered.documents);
    if requested.Err? { return Err(requested.error), sessionIDs; }
    var agentIDs := Unique(discovered.agents);
    r := Choose(f, s, requested.value, agentIDs);
  }

  /** resolveAuthorizedRetrievalScope: the scope of a retrieval; its body is rewritten to it. */
  method ResolveAuthorizedRetrievalScope(request: Request, s: Services) returns (r: Result<Scoped, GateError>)
    modifies request
    ensures RetrievalScope(request.facts, s, old(request.body), r, request.body)
  {
    if request.body.TooLong? { return Err(BodyTooLarge); }
    if !request.body.Parsed? || !request.body.value.Object? { return Err(InvalidJson); }
    var document := request.body.value;
    var plan, sessionIDs := Discover(request.facts, s, document);
    if plan.Err? { return Err(plan.error); }
    if plan.value.pure {
      request.body := Parsed(PureChat(document.fields));
      if !s.audited {
        request.body := Parsed(document);
        return Err(AuditUnavailable);
      }
      return Ok(Scoped([], [], [], sessionIDs));
    }
    PlanFits(request.facts, s, document);
    var resolved := Resolve(request.facts, s, plan.value);
    r := Forward(request, s, document, sessionIDs, resolved);
  }

  /** A plan asks for a default scope without ids, or for an explicit one. */
  lemma PlanFits(f: Facts, s: Services, document: Json)
    requires PlanFor(f, s, document).Ok?
    ensures var plan := PlanFor(f, s, document).value;
            plan.selection.Explicit? || (plan.selection.Default? && plan.ids == [])
  {
  }

  method Resolve(f: Facts, s: Services, plan: Plan) returns (r: Result<AgentScope.Scope, AgentScope.ScopeError>)
    requires plan.selection.Explicit? || (plan.selection.Default? && plan.ids == [])
    ensures Resolution(f, s, plan, r)
  {
    r := AgentScope.Resolve(LibraryOf(s), plan.selection, plan.ids, f.principal);
  }

  method Forward(request: Request, s: Services, document: Json, sessionIDs: seq<string>,
                 resolved: Result<AgentScope.Scope, AgentScope.ScopeError>) returns (r: Result<Scoped, GateError>)
    requires document.Object? && request.body == Parsed(document)
    requires sessionIDs == Collected(document, Kind.Session, PLAIN)
    modifies request
    ensures Forwarded(s, document, resolved, r, request.body)
  {
    if resolved.Err? { return Err(OfScopeError(resolved.error)); }
    if |resolved.value.ids| == 0 { return Err(AgentScopeEmpty); }
    request.body := Parsed(Rewritten(document.fields, resolved.value.ids));
    if !s.audited {
      request.body := Parsed(document);
      return Err(AuditUnavailable);
    }
    r := Ok(Scoped(resolved.value.ids, [], [], sessionIDs));
  }

  class Gate {
    var sessions: Sessions

    constructor ()
      ensures sessions == map[]
    {
      sessions := map[];
    }

    method RecordKnowledgeBases(s: Services, sessionIDs: seq<string>, kbIDs: seq<string>) returns (ok: bool)
      modifies this
      ensures sessions == Recorded(old(sessions), RecordingsFor(s, sessionIDs, kbIDs))
      ensures ok <==> Leading(sessionIDs, s.recorded) == |sessionIDs|
    {
      ghost var log := RecordingsFor(s, sessionIDs, kbIDs);
      for i := 0 to |sessionIDs|
        invariant forall k :: 0 <= k < i ==> s.recorded(sessionIDs[k])
        invariant sessions == Recorded(old(sessions), log[..i])
      {
        var sessionID := sessionIDs[i];
        if !s.recorded(sessionID) {
          assert log[..i] == log;
          return false;
        }
        assert log[..i + 1][..i] == log[..i];
        sessions := Remember(sessions, sessionID, kbIDs);
      }
      assert log[..|sessionIDs|] == log;
      ok := true;
    }

    method UnpublishAll(s: Services, kbIDs: seq<string>) returns (ok: bool)
      ensures ok <==> AllUnpublished(s, kbIDs)
    {
      for i := 0 to |kbIDs|
        invariant forall k :: 0 <= k < i ==> s.unpublished(kbIDs[k])
      {
        if !s.unpublished(kbIDs[i]) { return false; }
      }
      ok := true;
    }

    /** Everything the request touches, and what its sessions remember. */
    method Touch(f: Facts, s: Services, scope: Scoped, sessionIDs: seq<string>)
      returns (r: Result<seq<string>, GateError>)
      requires f.pathKbs.Ok? && sessionIDs == SessionIds(f, scope)
      ensures r == Touched(f, s, scope, sessions)
    {
      var knowledgeIDs := Unique(scope.documents);
      var parents := LookUp(knowledgeIDs, ParentOf(s));
      if parents.Err? { return parents; }
      var agentIDs := Unique(scope.agents);
      var agents := LookUp(agentIDs, OfAgent(s));
      if agents.Err? { return agents; }
      var stored := LookUp(sessionIDs, OfSession(s, sessions));
      if stored.Err? { return stored; }
      var kbIDs := Unique(f.pathKbs.value + scope.kbs + parents.value + agents.value + stored.value);
      r := Ok(kbIDs);
    }

    method Finish(f: Facts, s: Services, scope: Scoped)
      returns (r: Result<seq<string>, GateError>, ghost records: seq<Recording>)
      requires f.pathKbs.Ok? && f.action.Some?
      modifies this
      ensures Concluded(f, s, scope, old(sessions), r) && records == RecordsOf(f, s, scope, old(sessions))
      ensures sessions == Recorded(old(sessions), records)
    {
      records := [];
      if f.messageSearch && |scope.sessions| == 0 { return Err(NotFound), records; }
      var sessionIDs := Unique(f.pathSessions + scope.sessions);
      var touched := Touch(f, s, scope, sessionIDs);
      if touched.Err? { return touched, records; }
      var resolvedKBIDs := touched.value;
      var allowed := LookUp(resolvedKBIDs, Allowance(f, s));
      if allowed.Err? { return allowed, records; }
      if f.action == Some(Remove) {
        if !f.correlated { return Err(PublicationUnavailable), records; }
        var unpublished := UnpublishAll(s, resolvedKBIDs);
        if !unpublished { return Err(PublicationUnavailable), records; }
      }
      if |resolvedKBIDs| > 0 {
        var recorded := RecordKnowledgeBases(s, sessionIDs, resolvedKBIDs);
        records := RecordingsFor(s, sessionIDs, resolvedKBIDs);
        if !recorded { return Err(SessionUnavailable), records; }
      }
      r := Ok(resolvedKBIDs);
    }

    /** `records` are the recordings made. */
    method AuthorizeRequest(request: Request, s: Services)
      returns (r: Result<seq<string>, GateError>, ghost records: seq<Recording>)
      modifies this, request
      ensures Answered(request.facts, s, old(request.body), old(sessions), r, request.body, records)
      ensures sessions == Recorded(old(sessions), records)
    {
      var f := request.facts;
      records := [];
      if f.derivedTask { return Err(NotFound), records; }
      if f.action.None? { return Err(Unclassified), records; }
      if f.pathKbs.Err? { return Err(f.pathKbs.error), records; }
      var scope;
      if f.retrieval {
        scope := ResolveAuthorizedRetrievalScope(request, s);
      } else {
        scope := ResolveRequestScope(request);
      }
      assert ScopeOf(f, s, old(request.body), scope, request.body);
      if scope.Err? {
        r := Err(scope.error);
      } else {
        r, records := Finish(f, s, scope.value);
      }
      assert Ends(f, s, scope, old(sessions), r, records);
    }
  }
}
