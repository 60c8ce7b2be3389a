/** gate.go: what a request must name for each kind of scope, in terms of its query and its body at any depth. */
module GatePlans {
  import opened Basics
  import opened AgentScope
  import opened Scopes
  import opened GateRules
  import opened GateRuns

  // ---- A plain request ----

  function Of(scope: Scoped, kind: Kind): seq<string> {
    match kind
    case KnowledgeBase => scope.kbs
    case Document => scope.documents
    case Agent => scope.agents
    case Session => scope.sessions
  }

  /** An id is in the scope of a plain request exactly when its query has it or some object of its body, at any depth,
      names it; there is no scope exactly for a body that is too long or not JSON. */
  lemma PlainScopeExactly(f: Facts, body: Body, kind: Kind, id: string)
    ensures PlainScope(f, body).Err? <==> body.TooLong? || body.Broken?
    ensures PlainScope(f, body).Ok? ==>
              (id in Of(PlainScope(f, body).value, kind)
               <==> id in Of(f.query, kind) || (body.Parsed? && Named(body.value, kind, f.generic, id)))
  {
    if body.Parsed? {
      CollectedExactly(body.value, kind, f.generic, id);
      assert Of(Append(f.query, body.value, f.generic), kind)
          == Of(f.query, kind) + Collected(body.value, kind, f.generic);
    }
  }

  // ---- The plan of a retrieval ----

  /** The one agent that the body names, at any depth. */
  ghost predicate OnlyAgent(document: Json, agent: string) {
    forall other :: Named(document, Kind.Agent, PLAIN, other) <==> other == agent
  }

  ghost predicate NoAgent(document: Json) {
    forall other :: !Named(document, Kind.Agent, PLAIN, other)
  }

  lemma AgentsAre(document: Json)
    ensures forall id :: id in UniqueOf(Collected(document, Kind.Agent, PLAIN))
              <==> Named(document, Kind.Agent, PLAIN, id)
  {
    UniqueIs(Collected(document, Kind.Agent, PLAIN));
    forall id
      ensures id in UniqueOf(Collected(document, Kind.Agent, PLAIN)) <==> Named(document, Kind.Agent, PLAIN, id)
    {
      CollectedExactly(document, Kind.Agent, PLAIN, id);
      if Named(document, Kind.Agent, PLAIN, id) { NamedIsNotEmpty(document, Kind.Agent, PLAIN, id); }
    }
  }

  /** A body with a plan names no agent or one. */
  lemma AgentOfPlan(f: Facts, s: Services, document: Json, plan: Plan)
    requires PlanFor(f, s, document) == Ok(plan)
    ensures var agents := UniqueOf(Collected(document, Kind.Agent, PLAIN));
            if agents == [] then NoAgent(document)
            else |agents| == 1 && OnlyAgent(document, agents[0]) && s.agent(agents[0]).Ok?
  {
    AgentsAre(document);
    var agents := UniqueOf(Collected(document, Kind.Agent, PLAIN));
    assert |agents| <= 1;
    if agents != [] { assert agents == [agents[0]]; }
  }

  /** Nothing is requested exactly when the body asks for no knowledge base and for no document of one. */
  lemma NothingAskedExactly(s: Services, document: Json)
    requires Requested(s, document).Ok?
    ensures Requested(s, document).value == [] <==> forall kb :: kb != "" ==> !AsksFor(s, document, kb)
  {
    var requested := Requested(s, document).value;
    if requested == [] {
      forall kb | kb != ""
        ensures !AsksFor(s, document, kb)
      {
        if AsksFor(s, document, kb) { RequestedIs(s, document, kb); }
      }
    } else {
      RequestedOnly(s, document, requested[0]);
    }
  }

  /** Whatever is requested is asked for. */
  lemma RequestedOnly(s: Services, document: Json, kb: string)
    requires Requested(s, document).Ok? && kb in Requested(s, document).value
    ensures kb != "" && AsksFor(s, document, kb)
  {
    var documents := UniqueOf(Collected(document, Kind.Document, PLAIN));
    var parents := Gather(documents, ParentOf(s)).value;
    UniqueIs(Collected(document, Kind.KnowledgeBase, PLAIN) + parents);
    CollectedExactly(document, Kind.KnowledgeBase, PLAIN, kb);
    if kb !in Collected(document, Kind.KnowledgeBase, PLAIN) {
      GatherOnly(documents, ParentOf(s), kb);
      var d :| d in documents && ParentOf(s)(d).Ok? && kb in ParentOf(s)(d).value;
      UniqueIs(Collected(document, Kind.Document, PLAIN));
      CollectedExactly(document, Kind.Document, PLAIN, d);
      assert s.parent(d) == Ok(kb);
    }
  }

  lemma {:induction false} GatherOnly(ids: seq<string>, look: Look, x: string)
    requires Gather(ids, look).Ok? && x in Gather(ids, look).value
    ensures exists id :: id in ids && look(id).Ok? && x in look(id).value
    decreases |ids|
  {
    var front, last := ids[..|ids| - 1], ids[|ids| - 1];
    assert ids == front + [last];
    if x in look(last).value {
      assert last in ids;
    } else {
      GatherOnly(front, look, x);
      var id :| id in front && look(id).Ok? && x in look(id).value;
      assert id in ids;
    }
  }

  /** A chat without knowledge is planned exactly for a conversation that asks for nothing and names one agent, whose
      mode is none. */
  lemma PureExactly(f: Facts, s: Services, document: Json, plan: Plan)
    requires PlanFor(f, s, document) == Ok(plan)
    ensures plan.pure <==>
              && f.conversation && (forall kb :: kb != "" ==> !AsksFor(s, document, kb))
              && exists agent :: OnlyAgent(document, agent) && s.agent(agent).Ok? && s.agent(agent).value.mode == "none"
  {
    AgentOfPlan(f, s, document, plan);
    NothingAskedExactly(s, document);
    var agents := UniqueOf(Collected(document, Kind.Agent, PLAIN));
    if agent :| OnlyAgent(document, agent) && s.agent(agent).Ok? && s.agent(agent).value.mode == "none" {
      assert Named(document, Kind.Agent, PLAIN, agent);
      assert agents != [] && agents[0] == agent;
    }
  }

  /** The whole library is asked for exactly by a body that asks for nothing itself and names no agent, or one whose
      mode is all. */
  lemma DefaultExactly(f: Facts, s: Services, document: Json, plan: Plan)
    requires PlanFor(f, s, document) == Ok(plan)
    ensures plan.selection.Default? <==>
              && (forall kb :: kb != "" ==> !AsksFor(s, document, kb))
              && (NoAgent(document)
                  || exists agent ::
                       OnlyAgent(document, agent) && s.agent(agent).Ok? && s.agent(agent).value.mode == "all")
  {
    AgentOfPlan(f, s, document, plan);
    NothingAskedExactly(s, document);
    var agents := UniqueOf(Collected(document, Kind.Agent, PLAIN));
    if agents != [] {
      var agent := agents[0];
      assert Named(document, Kind.Agent, PLAIN, agent) && !NoAgent(document);
      assert forall other :: OnlyAgent(document, other) ==> other == agent;
      assert PlanOf(f, s, Requested(s, document).value, agents) == Ok(plan);
    } else {
      assert NoAgent(document);
    }
  }

  /** Otherwise the ids asked for are those the body asks for, or, when it asks for none, those of its one agent; and
      an agent whose mode is not all confines them. */
  lemma ExplicitExactly(f: Facts, s: Services, document: Json, plan: Plan, id: string)
    requires PlanFor(f, s, document) == Ok(plan) && !plan.pure && plan.selection.Explicit?
    ensures (exists kb :: kb != "" && AsksFor(s, document, kb)) ==>
              (id in plan.ids <==> id != "" && AsksFor(s, document, id))
    ensures forall agent, a :: Confines(s, document, agent, a) && id in plan.ids ==> id in a.ids
  {
    NothingAskedExactly(s, document);
    var requested := Requested(s, document).value;
    if id in requested { RequestedOnly(s, document, id); }
    if id != "" && AsksFor(s, document, id) { RequestedIs(s, document, id); }
    forall agent, a | Confines(s, document, agent, a) && id in plan.ids
      ensures id in a.ids
    {
      if requested == [] { UniqueIs(a.ids); }
    }
  }

  // ---- Inside the agent, to the letter ----

  /** What is forwarded is inside the ids of a confining agent to the letter exactly when the trimmed form of each id
      asked for is one of them. */
  lemma ForwardedInsideExactly(f: Facts, s: Services, document: Json, plan: Plan, r: Scope, agent: string, a: Agents)
    requires PlanFor(f, s, document) == Ok(plan) && !plan.pure && Resolution(f, s, plan, Ok(r))
    requires Confines(s, document, agent, a)
    ensures Subset(r.ids, a.ids) <==> forall x :: x in plan.ids ==> Trim(x) in a.ids
  {
    if Subset(r.ids, a.ids) {
      forall x | x in plan.ids
        ensures Trim(x) in a.ids
      {
        ExplicitIs(s, plan.ids, r, x);
      }
    }
    if forall x :: x in plan.ids ==> Trim(x) in a.ids {
      forall id | id in r.ids
        ensures id in a.ids
      {
        ExplicitIs(s, plan.ids, r, id);
      }
    }
  }

  // ---- An input at which it is not ----

  /** An agent with the one knowledge base " kb", all of whose answers are yes. */
  const PADDED := Agents("selected", [" kb"])

  function PaddedServices(decision: Decision): Services {
    Services(id => Err(NotFound), id => Ok(PADDED), id => None, id => true, id => true,
             (kb, action) => Allowed(decision), kb => Err(Refused), None, kb => true, true)
  }

  /** A body that names the agent and nothing else. */
  const AGENT_BODY := Object([Field("agent_id", Text("a"))])

  lemma AgentBodyNames()
    ensures Collected(AGENT_BODY, Kind.Agent, PLAIN) == ["a"]
    ensures Collected(AGENT_BODY, Kind.KnowledgeBase, PLAIN) == []
    ensures Collected(AGENT_BODY, Kind.Document, PLAIN) == []
    ensures Collected(AGENT_BODY, Kind.Session, PLAIN) == []
  {
    var field := Field("agent_id", Text("a"));
    var fields := [field];
    assert fields[..0] == [];
    forall kind: Kind
      ensures Collected(AGENT_BODY, kind, PLAIN) == OfField(field, kind, PLAIN)
    {
      assert TextOf(fields, "id") == "" by {
        assert fields[1..] == [];
      }
      assert Typed(fields, kind) == [];
      assert CollectedFields(fields, kind, PLAIN)
               == [] + (OfField(field, kind, PLAIN) + Collected(Text("a"), kind, PLAIN));
    }
    assert StringValues(Text("a")) == ["a"];
  }

  lemma PaddedPlan(f: Facts, decision: Decision)
    ensures PlanFor(f, PaddedServices(decision), AGENT_BODY) == Ok(Plan(Explicit, [" kb"], false))
    ensures Confines(PaddedServices(decision), AGENT_BODY, "a", PADDED)
  {
    AgentBodyNames();
    var one := ["a"];
    assert one[..0] == [] && UniqueOf(one) == ["a"];
    var padded := [" kb"];
    assert padded[..0] == [] && UniqueOf(padded) == [" kb"];
    var none: seq<string> := [];
    assert none + none == none && UniqueOf(none) == none;
  }

  lemma PaddedResolves(decision: Decision)
    ensures ExplicitScope(LibraryOf(PaddedServices(decision)), [" kb"],
                          Ok(Scope(Explicit, ["kb"], [Entry("kb", decision)])))
  {
    var values, r := [" kb"], Scope(Explicit, ["kb"], [Entry("kb", decision)]);
    PaddedTrims();
    assert values[..0] == [];
    assert AllUsable(values) && Trimmed(values) == {"kb"};
    assert Elements(r.ids) == {"kb"} && r.ids == IdsOf(r.entries);
  }

  /** There "kb" is forwarded, which is not in the agent's ids as written. */
  lemma PaddedIsForwarded(f: Facts, decision: Decision)
    requires f.principal
    ensures var s, ids := PaddedServices(decision), ["kb"];
            && Confines(s, AGENT_BODY, "a", PADDED)
            && RetrievalScope(f, s, Parsed(AGENT_BODY), Ok(Scoped(ids, [], [], [])),
                              Parsed(Rewritten(AGENT_BODY.fields, ids)))
            && !Subset(ids, PADDED.ids)
  {
    var s, ids := PaddedServices(decision), ["kb"];
    var plan, r := Plan(Explicit, [" kb"], false), Scope(Explicit, ids, [Entry("kb", decision)]);
    PaddedPlan(f, decision);
    PaddedResolves(decision);
    AgentBodyNames();
    assert Resolution(f, s, plan, Ok(r));
    assert Forwarded(s, AGENT_BODY, Ok(r), Ok(Scoped(ids, [], [], [])), Parsed(Rewritten(AGENT_BODY.fields, ids)));
    assert ids[0] in ids && ids[0] != " kb";
  }

  lemma PaddedTrims()
    ensures Trim(" kb") == "kb" && Usable("kb")
  {
    assert " kb"[1..] == "kb";
    assert Trim("kb") == "kb";
    assert "kb"[1..] == "b" && "b"[1..] == "";
    assert Bytes("kb") == 2;
  }
}
