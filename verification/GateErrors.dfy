/** gate.go: which error a request that fails is answered with: the first that applies, in the order of the code. */
module GateErrors {
  import opened Basics
  import opened AgentScope
  import opened Scopes
  import opened GateRules
  import opened GateRuns
  import opened GatePlans
  import opened GateSuccess

  /** Of the ids that are not empty the `p`th is the first whose lookup fails. */
  predicate BadFirst(ids: seq<string>, look: Look, p: nat) {
    && p < |ids| && ids[p] != "" && look(ids[p]).Err?
    && forall q :: 0 <= q < p && ids[q] != "" ==> look(ids[q]).Ok?
  }

  lemma BadFront(ids: seq<string>, look: Look)
    requires ids != []
    ensures var n := |ids| - 1;
            forall p: nat :: p < n ==> BadFirst(ids, look, p) == BadFirst(ids[..n], look, p)
  {
  }

  /** Looking up each id once fails as the first bad one of all occurrences does, and otherwise does not. */
  lemma {:induction false} OnceFails(ids: seq<string>, look: Look)
    ensures Gather(UniqueOf(ids), look).Err? <==> exists p: nat :: BadFirst(ids, look, p)
    ensures forall p: nat :: BadFirst(ids, look, p) ==> Gather(UniqueOf(ids), look) == Err(look(ids[p]).error)
    decreases |ids|
  {
    if ids != [] {
      var front := ids[..|ids| - 1];
      OnceFails(front, look);
      BadFront(ids, look);
      if Gather(UniqueOf(front), look).Err? {
        OnceStays(ids, front, look);
      } else {
        OnceLast(ids, look);
      }
    }
  }

  lemma OnceStays(ids: seq<string>, front: seq<string>, look: Look)
    requires ids != [] && front == ids[..|ids| - 1] && Gather(UniqueOf(front), look).Err?
    requires exists p: nat :: BadFirst(front, look, p)
    ensures Gather(UniqueOf(ids), look) == Gather(UniqueOf(front), look)
    ensures !BadFirst(ids, look, |front|) && exists p: nat :: p < |front| && BadFirst(ids, look, p)
  {
    var before := UniqueOf(front);
    BadFront(ids, look);
    var p: nat :| BadFirst(front, look, p);
    assert p < |front| && BadFirst(ids, look, p);
    if UniqueOf(ids) != before { assert UniqueOf(ids)[..|before|] == before; }
  }

  lemma NoneFailed(front: seq<string>, look: Look)
    requires Gather(UniqueOf(front), look).Ok?
    ensures forall q :: 0 <= q < |front| && front[q] != "" ==> look(front[q]).Ok?
  {
    UniqueIs(front);
    forall q | 0 <= q < |front| && front[q] != ""
      ensures look(front[q]).Ok?
    {
      assert front[q] in front;
      GatherHas(UniqueOf(front), look, front[q]);
    }
  }

  lemma GatherNext(before: seq<string>, v: string, look: Look)
    requires Gather(before, look).Ok?
    ensures Gather(before + [v], look).Err? <==> look(v).Err?
    ensures look(v).Err? ==> Gather(before + [v], look) == look(v)
  {
    assert (before + [v])[..|before|] == before;
  }

  lemma OnceLast(ids: seq<string>, look: Look)
    requires ids != [] && Gather(UniqueOf(ids[..|ids| - 1]), look).Ok?
    ensures Gather(UniqueOf(ids), look).Err? <==> BadFirst(ids, look, |ids| - 1)
    ensures BadFirst(ids, look, |ids| - 1) ==> Gather(UniqueOf(ids), look) == Err(look(ids[|ids| - 1]).error)
  {
    var n := |ids| - 1;
    var front, v, before := ids[..n], ids[n], UniqueOf(ids[..n]);
    NoneFailed(front, look);
    UniqueIs(front);
    assert forall q :: 0 <= q < n ==> ids[q] == front[q];
    if v == "" || v in before {
      assert UniqueOf(ids) == before;
      if v != "" {
        var q :| 0 <= q < n && front[q] == v;
      }
    } else {
      assert UniqueOf(ids) == before + [v];
      GatherNext(before, v, look);
    }
  }

  // ---- Once the scope is known ----

  /** The first of these that applies says how the request fails. */
  lemma ConcludedError(f: Facts, s: Services, scope: Scoped, seen: Sessions, r: Result<seq<string>, GateError>)
    requires f.pathKbs.Ok? && f.action.Some? && Concluded(f, s, scope, seen, r)
    ensures f.messageSearch && scope.sessions == [] ==> r == Err(NotFound)
    ensures !(f.messageSearch && scope.sessions == []) ==>
              Lookups(f, s, scope, r) || (Found(f, s, scope) && Refuses(f, s, scope, seen, r))
              || Deserves(f, s, scope, seen)
  {
    ConcludedExactly(f, s, scope, seen, r);
    if !(f.messageSearch && scope.sessions == []) {
      LookupsFail(f, s, scope, seen);
      TouchedIs(f, s, scope, seen);
      if Found(f, s, scope) && !Deserves(f, s, scope, seen) { RefusesIs(f, s, scope, seen, r); }
    }
  }

  /** The `p`th document is the first that has no parent. */
  predicate NoParent(s: Services, ids: seq<string>, p: nat, e: GateError) {
    && p < |ids| && ids[p] != "" && s.parent(ids[p]) == Err(e)
    && forall q :: 0 <= q < p && ids[q] != "" ==> s.parent(ids[q]).Ok?
  }

  predicate NoAgentAt(s: Services, ids: seq<string>, p: nat, e: GateError) {
    && p < |ids| && ids[p] != "" && s.agent(ids[p]) == Err(e)
    && forall q :: 0 <= q < p && ids[q] != "" ==> s.agent(ids[q]).Ok?
  }

  predicate NoSession(s: Services, ids: seq<string>, p: nat, e: GateError) {
    && p < |ids| && ids[p] != ""
    && (if s.session(ids[p]).Some? then s.session(ids[p]) == Some(e) else !s.listed(ids[p]) && e == SessionUnavailable)
    && forall q :: 0 <= q < p && ids[q] != "" ==> s.session(ids[q]).None? && s.listed(ids[q])
  }

  lemma BadParent(s: Services, ids: seq<string>, p: nat)
    requires BadFirst(ids, ParentOf(s), p)
    ensures NoParent(s, ids, p, ParentOf(s)(ids[p]).error)
  {
  }

  lemma BadAgent(s: Services, ids: seq<string>, p: nat)
    requires BadFirst(ids, OfAgent(s), p)
    ensures NoAgentAt(s, ids, p, OfAgent(s)(ids[p]).error)
  {
  }

  lemma BadSession(s: Services, ids: seq<string>, seen: Sessions, p: nat)
    requires BadFirst(ids, OfSession(s, seen), p)
    ensures NoSession(s, ids, p, OfSession(s, seen)(ids[p]).error)
  {
  }

  /** A document, else an agent, else a session cannot be looked up: the first of them in the order they are named. */
  ghost predicate Lookups(f: Facts, s: Services, scope: Scoped, r: Result<seq<string>, GateError>) {
    && r.Err?
    && if exists d :: d in scope.documents && d != "" && s.parent(d).Err? then
         exists p: nat :: NoParent(s, scope.documents, p, r.error)
       else if exists a :: a in scope.agents && a != "" && s.agent(a).Err? then
         exists p: nat :: NoAgentAt(s, scope.agents, p, r.error)
       else
         exists p: nat :: NoSession(s, f.pathSessions + scope.sessions, p, r.error)
  }

  /** A knowledge base may not be used, else a publication cannot be withdrawn, else a session cannot be recorded. */
  ghost predicate Refuses(f: Facts, s: Services, scope: Scoped, seen: Sessions, r: Result<seq<string>, GateError>)
    requires f.pathKbs.Ok? && f.action.Some?
  {
    if exists kb :: Uses(f, s, scope, seen, kb) && !May(f, s, kb) then
      exists kb :: Uses(f, s, scope, seen, kb) && !May(f, s, kb) && Refusal(f, s, kb).Some?
        && r == Err(Refusal(f, s, kb).value)
    else r == Err(if !Withdrawn(f, s, scope, seen) then PublicationUnavailable else SessionUnavailable)
  }

  lemma LookupsFail(f: Facts, s: Services, scope: Scoped, seen: Sessions)
    requires f.pathKbs.Ok?
    ensures Touched(f, s, scope, seen).Err? ==> Lookups(f, s, scope, Touched(f, s, scope, seen))
  {
    if Touched(f, s, scope, seen).Err? {
      var e := Touched(f, s, scope, seen).error;
      GoodGather(scope.documents, ParentOf(s));
      GoodGather(scope.agents, OfAgent(s));
      assert forall d :: ParentOf(s)(d).Ok? <==> s.parent(d).Ok?;
      assert forall a :: OfAgent(s)(a).Ok? <==> s.agent(a).Ok?;
      if exists d :: d in scope.documents && d != "" && s.parent(d).Err? {
        DocumentFails(s, scope.documents, e);
      } else if exists a :: a in scope.agents && a != "" && s.agent(a).Err? {
        AgentFails(s, scope.agents, e);
      } else {
        SessionFails(s, f.pathSessions + scope.sessions, seen, e);
      }
    }
  }

  lemma DocumentFails(s: Services, ids: seq<string>, e: GateError)
    requires Gather(UniqueOf(ids), ParentOf(s)) == Err(e)
    ensures exists p: nat :: NoParent(s, ids, p, e)
  {
    OnceFails(ids, ParentOf(s));
    var p: nat :| BadFirst(ids, ParentOf(s), p);
    BadParent(s, ids, p);
  }

  lemma AgentFails(s: Services, ids: seq<string>, e: GateError)
    requires Gather(UniqueOf(ids), OfAgent(s)) == Err(e)
    ensures exists p: nat :: NoAgentAt(s, ids, p, e)
  {
    OnceFails(ids, OfAgent(s));
    var p: nat :| BadFirst(ids, OfAgent(s), p);
    BadAgent(s, ids, p);
  }

  lemma SessionFails(s: Services, ids: seq<string>, seen: Sessions, e: GateError)
    requires Gather(UniqueOf(ids), OfSession(s, seen)) == Err(e)
    ensures exists p: nat :: NoSession(s, ids, p, e)
  {
    OnceFails(ids, OfSession(s, seen));
    var p: nat :| BadFirst(ids, OfSession(s, seen), p);
    BadSession(s, ids, seen, p);
  }

  predicate NoneBad(ids: seq<string>, look: Look) {
    forall id :: id in ids && id != "" ==> look(id).Ok?
  }

  lemma GoodGather(ids: seq<string>, look: Look)
    ensures Gather(UniqueOf(ids), look).Ok? <==> NoneBad(ids, look)
  {
    UniqueIs(ids);
    GatherIs(UniqueOf(ids), look);
  }

  lemma RefusesIs(f: Facts, s: Services, scope: Scoped, seen: Sessions, r: Result<seq<string>, GateError>)
    requires f.pathKbs.Ok? && f.action.Some? && Concluded(f, s, scope, seen, r)
    requires !(f.messageSearch && scope.sessions == []) && Found(f, s, scope) && !Deserves(f, s, scope, seen)
    ensures Refuses(f, s, scope, seen, r)
  {
    CheckedIs(f, s, scope, seen);
    ConcludedExactly(f, s, scope, seen, r);
    TouchedIs(f, s, scope, seen);
    var kbs := Touched(f, s, scope, seen).value;
    AllowanceIs(f, s, kbs);
    if exists kb :: Uses(f, s, scope, seen, kb) && !May(f, s, kb) {
      var kb :| Uses(f, s, scope, seen, kb) && !May(f, s, kb);
      assert kb in kbs;
      AllowanceFails(f, s, kbs);
    } else {
      assert Gather(kbs, Allowance(f, s)).Ok?;
      if !Withdrawn(f, s, scope, seen) { assert Checked(f, s, scope, seen) == Err(PublicationUnavailable); }
    }
  }

  lemma {:induction false} AllowanceFails(f: Facts, s: Services, kbs: seq<string>)
    requires f.action.Some? && Gather(kbs, Allowance(f, s)).Err?
    ensures exists kb :: kb in kbs && !May(f, s, kb) && Refusal(f, s, kb).Some?
              && Gather(kbs, Allowance(f, s)) == Err(Refusal(f, s, kb).value)
    decreases |kbs|
  {
    var front, last := kbs[..|kbs| - 1], kbs[|kbs| - 1];
    assert kbs == front + [last];
    if Gather(front, Allowance(f, s)).Err? {
      AllowanceFails(f, s, front);
    } else {
      MayExactly(f, s, last);
      assert last in kbs;
    }
  }

  // ---- The scope of a retrieval ----

  /** The body names more than one agent. */
  ghost predicate ManyAgents(document: Json) {
    exists a, b :: a != b && Named(document, Kind.Agent, PLAIN, a) && Named(document, Kind.Agent, PLAIN, b)
  }

  /** How planning fails. */
  ghost predicate PlanFails(s: Services, document: Json, e: GateError) {
    var documents := Collected(document, Kind.Document, PLAIN);
    if !Parented(s, document) then
      exists p: nat :: NoParent(s, documents, p, e)
    else if ManyAgents(document) then e == AgentScopeInvalid
    else
      exists agent :: OnlyAgent(document, agent)
        && e == if s.agent(agent).Err? then s.agent(agent).error else NotFound
  }

  lemma PlanError(f: Facts, s: Services, document: Json, e: GateError)
    requires PlanFor(f, s, document) == Err(e)
    ensures PlanFails(s, document, e)
  {
    RequestedOk(s, document);
    if Parented(s, document) {
      AgentError(f, s, document, e);
    } else {
      DocumentFails(s, Collected(document, Kind.Document, PLAIN), e);
    }
  }

  lemma AgentError(f: Facts, s: Services, document: Json, e: GateError)
    requires PlanFor(f, s, document) == Err(e) && Requested(s, document).Ok?
    ensures if ManyAgents(document) then e == AgentScopeInvalid
            else exists agent :: OnlyAgent(document, agent)
                   && e == if s.agent(agent).Err? then s.agent(agent).error else NotFound
  {
    var agents := UniqueOf(Collected(document, Kind.Agent, PLAIN));
    AgentsAre(document);
    UniqueIs(Collected(document, Kind.Agent, PLAIN));
    if |agents| > 1 {
      assert agents[0] != agents[1] && agents[0] in agents && agents[1] in agents;
    } else {
      assert agents == [agents[0]];
      assert OnlyAgent(document, agents[0]);
    }
  }

  /** How a planned retrieval fails. */
  ghost predicate ScopeFails(f: Facts, s: Services, document: Json, e: GateError) {
    if WantsNothing(f, s, document) then e == AuditUnavailable
    else if !f.principal then e == AgentScopeInvalid
    else if WantsLibrary(s, document) then
      e == if s.page.None? then AgentScopeUnavailable
           else if s.page.value.total > 64 then AgentScopeTooLarge
           else if !LibraryFits(s) then AgentScopeEmpty else AuditUnavailable
    else
      exists ids :: Wanted(s, document, ids) && SelectionFails(s, ids, e)
  }

  /** Too many ids, an unusable one or none, the first unreadable one in ascending order, or no audit. */
  ghost predicate SelectionFails(s: Services, ids: seq<string>, e: GateError) {
    if |ids| > 64 then e == AgentScopeTooLarge
    else if ids == [] || exists v :: v in ids && !(1 <= Bytes(Trim(v)) <= 128) then e == AgentScopeInvalid
    else if SelectionFits(s, ids) then e == AuditUnavailable
    else
      exists v :: v in ids && !s.decide(Trim(v), Read).Allowed?
        && (forall w :: w in ids && Below(Trim(w), Trim(v)) ==> s.decide(Trim(w), Read).Allowed?)
        && e == if s.decide(Trim(v), Read).Refused? || s.decide(Trim(v), Read).Missing? then NotFound
                else AgentScopeUnavailable
  }

  lemma SelectionError(f: Facts, s: Services, document: Json, plan: Plan, r: Result<Scope, ScopeError>)
    requires document.Object? && plan.selection.Explicit? && f.principal && Resolution(f, s, plan, r)
    ensures r.Err? ==> SelectionFails(s, plan.ids, OfScopeError(r.error))
  {
    AllUsableIs(plan.ids);
    SelectionResolves(f, s, plan, r);
    if r.Err? && (r.error.Denied? || r.error.Unavailable?) {
      UnreadableIs(s, plan.ids, r.error.Denied?);
    }
  }

  lemma UnreadableIs(s: Services, values: seq<string>, refused: bool)
    requires FirstUnreadable(LibraryOf(s), Trimmed(values), refused)
    ensures exists v :: v in values && !s.decide(Trim(v), Read).Allowed?
              && (forall w :: w in values && Below(Trim(w), Trim(v)) ==> s.decide(Trim(w), Read).Allowed?)
              && refused == (s.decide(Trim(v), Read).Refused? || s.decide(Trim(v), Read).Missing?)
  {
    var lib := LibraryOf(s);
    var id :| id in Trimmed(values) && !lib.read(id).Allowed?
      && refused == (lib.read(id).Refused? || lib.read(id).Missing?)
      && forall other :: other in Trimmed(values) && Below(other, id) ==> lib.read(other).Allowed?;
    TrimmedOnly(values, id);
    var v :| v in values && Trim(v) == id;
    forall w | w in values && Below(Trim(w), Trim(v))
      ensures s.decide(Trim(w), Read).Allowed?
    {
      var i :| 0 <= i < |values| && values[i] == w;
      TrimmedHas(values, i);
      assert lib.read(Trim(w)).Allowed?;
    }
  }

  /** A retrieval whose scope fails is answered with the first of these that applies, its body as it came. */
  lemma RetrievalError(f: Facts, s: Services, body: Body, e: GateError, body': Body)
    requires RetrievalScope(f, s, body, Err(e), body')
    ensures body' == body
    ensures body.TooLong? ==> e == BodyTooLarge
    ensures !body.TooLong? && !(body.Parsed? && body.value.Object?) ==> e == InvalidJson
    ensures body.Parsed? && body.value.Object? ==>
              if Parented(s, body.value) && AgentFits(s, body.value) then ScopeFails(f, s, body.value, e)
              else PlanFails(s, body.value, e)
  {
    RetrievalScopedExactly(f, s, body, Err(e), body');
    if body.Parsed? && body.value.Object? {
      PlanExactly(f, s, body.value);
      if PlanFor(f, s, body.value).Err? {
        PlanError(f, s, body.value, e);
      } else {
        PlannedError(f, s, body.value, e, body');
      }
    }
  }

  lemma PlannedError(f: Facts, s: Services, document: Json, e: GateError, body': Body)
    requires document.Object? && PlanFor(f, s, document).Ok?
    requires Planned(f, s, document, PlanFor(f, s, document).value, Err(e), body')
    ensures ScopeFails(f, s, document, e)
  {
    var plan := PlanFor(f, s, document).value;
    PlanIs(f, s, document, plan);
    if !plan.pure {
      var r :| Resolution(f, s, plan, r) && Forwarded(s, document, r, Err(e), body');
      if f.principal {
        if plan.selection.Default? {
          LibraryResolves(f, s, plan, r);
        } else {
          SelectionResolves(f, s, plan, r);
          SelectionError(f, s, document, plan, r);
          AllUsableIs(plan.ids);
          assert SelectionFails(s, plan.ids, e);
        }
      }
    }
  }
}
