/** gate.go: exactly when a request succeeds, and exactly which knowledge bases it is then authorized for. */
module GateSuccess {
  import opened Basics
  import opened AgentScope
  import opened Scopes
  import opened GateRules
  import opened GateRuns
  import opened GatePlans

  // ---- Looking ids up ----

  /** The lookup of `ids[i]` fails, and none before it does. */
  predicate FailsFirst(ids: seq<string>, look: Look, i: nat) {
    i < |ids| && look(ids[i]).Err? && forall j :: 0 <= j < i ==> look(ids[j]).Ok?
  }

  /** Looking ids up finds what the lookups find, in order, or fails as the first one that does. */
  lemma {:induction false} GatherIs(ids: seq<string>, look: Look)
    ensures Gather(ids, look).Ok? <==> forall id :: id in ids ==> look(id).Ok?
    ensures forall i: nat :: FailsFirst(ids, look, i) ==> Gather(ids, look) == Err(look(ids[i]).error)
    ensures Gather(ids, look).Ok? ==>
              forall x :: x in Gather(ids, look).value <==> exists id :: id in ids && x in look(id).value
    decreases |ids|
  {
    if ids != [] {
      var front, last := ids[..|ids| - 1], ids[|ids| - 1];
      assert ids == front + [last];
      GatherIs(front, look);
      forall i: nat | FailsFirst(ids, look, i)
        ensures Gather(ids, look) == Err(look(ids[i]).error)
      {
        if i < |front| { assert FailsFirst(front, look, i); }
      }
      if Gather(ids, look).Ok? { GatherValues(ids, look); }
    }
  }

  lemma GatherValues(ids: seq<string>, look: Look)
    requires Gather(ids, look).Ok?
    ensures forall id :: id in ids ==> look(id).Ok?
    ensures forall x :: x in Gather(ids, look).value <==> exists id :: id in ids && x in look(id).value
  {
    forall id | id in ids
      ensures look(id).Ok? && forall x :: x in look(id).value ==> x in Gather(ids, look).value
    {
      GatherHas(ids, look, id);
    }
    forall x | x in Gather(ids, look).value
      ensures exists id :: id in ids && x in look(id).value
    {
      GatherOnly(ids, look, x);
    }
  }

  /** What is kept keeps its order: by the places where the values occur first. */
  lemma {:induction false} UniqueOrder(values: seq<string>, i: nat, j: nat)
    requires i < j < |UniqueOf(values)|
    ensures exists p: nat :: p < |values| && values[p] == UniqueOf(values)[i] && UniqueOf(values)[j] !in values[..p + 1]
    decreases |values|
  {
    var n := |values| - 1;
    var front, u := values[..n], UniqueOf(values);
    var before := UniqueOf(front);
    UniqueIs(front);
    assert u[i] == before[i];
    if j < |before| {
      UniqueOrder(front, i, j);
      var p: nat :| p < n && front[p] == before[i] && before[j] !in front[..p + 1];
      assert values[..p + 1] == front[..p + 1];
    } else {
      assert before[i] in before;
      var p: nat :| p < n && front[p] == before[i];
      forall q | 0 <= q <= p
        ensures values[q] != u[j]
      {
        assert values[q] == front[q];
      }
      assert values[p] == u[i] && u[j] !in values[..p + 1];
    }
  }

  // ---- A request with its scope ----

  /** The request uses `kb`: by its path or its scope, as the parent of a document, through an agent, or because one of
      its sessions remembered it. */
  ghost predicate Uses(f: Facts, s: Services, scope: Scoped, seen: Sessions, kb: string)
    requires f.pathKbs.Ok?
  {
    && kb != ""
    && (|| kb in f.pathKbs.value || kb in scope.kbs
        || (exists d :: d in scope.documents && d != "" && s.parent(d) == Ok(kb))
        || (exists a :: a in scope.agents && a != "" && s.agent(a).Ok? && kb in s.agent(a).value.ids)
        || Remembered(f, scope, seen, kb))
  }

  ghost predicate Remembered(f: Facts, scope: Scoped, seen: Sessions, kb: string) {
    exists id :: (id in f.pathSessions || id in scope.sessions) && id != "" && kb in Stored(seen, id)
  }

  /** Everything that the request names can be looked up. */
  ghost predicate Found(f: Facts, s: Services, scope: Scoped) {
    && (forall d :: d in scope.documents && d != "" ==> s.parent(d).Ok?)
    && (forall a :: a in scope.agents && a != "" ==> s.agent(a).Ok?)
    && (forall id :: (id in f.pathSessions || id in scope.sessions) && id != "" ==> s.session(id).None? && s.listed(id))
  }

  /** A deletion takes a correlation id and the withdrawal of every publication. */
  ghost predicate Withdrawn(f: Facts, s: Services, scope: Scoped, seen: Sessions)
    requires f.pathKbs.Ok?
  {
    f.action == Some(Remove) ==> f.correlated && forall kb :: Uses(f, s, scope, seen, kb) ==> s.unpublished(kb)
  }

  /** Whatever is used can be recorded in every session. */
  ghost predicate Kept(f: Facts, s: Services, scope: Scoped, seen: Sessions)
    requires f.pathKbs.Ok?
  {
    (exists kb :: Uses(f, s, scope, seen, kb)) ==>
      forall id :: (id in f.pathSessions || id in scope.sessions) && id != "" ==> s.recorded(id)
  }

  /** The request has all it takes to succeed. */
  ghost predicate Deserves(f: Facts, s: Services, scope: Scoped, seen: Sessions)
    requires f.pathKbs.Ok?
  {
    && (f.messageSearch ==> scope.sessions != [])
    && Found(f, s, scope) && (forall kb :: Uses(f, s, scope, seen, kb) ==> May(f, s, kb))
    && Withdrawn(f, s, scope, seen) && Kept(f, s, scope, seen)
  }

  lemma SessionsAre(f: Facts, scope: Scoped)
    ensures forall id :: id in SessionIds(f, scope) <==> id != "" && (id in f.pathSessions || id in scope.sessions)
  {
    UniqueIs(f.pathSessions + scope.sessions);
  }

  lemma DocumentsGather(s: Services, documents: seq<string>)
    ensures var parents := Gather(UniqueOf(documents), ParentOf(s));
            && (parents.Ok? <==> forall d :: d in documents && d != "" ==> s.parent(d).Ok?)
            && (parents.Ok? ==> forall kb :: kb in parents.value
                                  <==> exists d :: d in documents && d != "" && s.parent(d) == Ok(kb))
  {
    UniqueIs(documents);
    GatherIs(UniqueOf(documents), ParentOf(s));
    var ids := UniqueOf(documents);
    assert forall d :: ParentOf(s)(d).Ok? <==> s.parent(d).Ok?;
    var parents := Gather(ids, ParentOf(s));
    if parents.Ok? {
      forall kb
        ensures kb in parents.value <==> exists d :: d in documents && d != "" && s.parent(d) == Ok(kb)
      {
        if kb in parents.value {
          var d :| d in ids && kb in ParentOf(s)(d).value;
          assert s.parent(d) == Ok(kb);
        }
        if d :| d in documents && d != "" && s.parent(d) == Ok(kb) {
          assert d in ids && kb in ParentOf(s)(d).value;
        }
      }
    }
  }

  lemma AgentsGather(s: Services, named: seq<string>)
    ensures var agents := Gather(UniqueOf(named), OfAgent(s));
            && (agents.Ok? <==> forall a :: a in named && a != "" ==> s.agent(a).Ok?)
            && (agents.Ok? ==> forall kb :: kb in agents.value
                                 <==> exists a :: a in named && a != "" && s.agent(a).Ok? && kb in s.agent(a).value.ids)
  {
    UniqueIs(named);
    GatherIs(UniqueOf(named), OfAgent(s));
    var ids := UniqueOf(named);
    assert forall a :: OfAgent(s)(a).Ok? <==> s.agent(a).Ok?;
    var agents := Gather(ids, OfAgent(s));
    if agents.Ok? {
      forall kb
        ensures kb in agents.value
           <==> exists a :: a in named && a != "" && s.agent(a).Ok? && kb in s.agent(a).value.ids
      {
        if kb in agents.value {
          var a :| a in ids && kb in OfAgent(s)(a).value;
          assert kb in s.agent(a).value.ids;
        }
        if a :| a in named && a != "" && s.agent(a).Ok? && kb in s.agent(a).value.ids {
          assert a in ids && kb in OfAgent(s)(a).value;
        }
      }
    }
  }

  lemma SessionsGather(f: Facts, s: Services, scope: Scoped, seen: Sessions)
    ensures var stored := Gather(SessionIds(f, scope), OfSession(s, seen));
            && (stored.Ok? <==> forall id :: (id in f.pathSessions || id in scope.sessions) && id != ""
                                  ==> s.session(id).None? && s.listed(id))
            && (stored.Ok? ==> forall kb :: kb in stored.value <==> Remembered(f, scope, seen, kb))
  {
    SessionsAre(f, scope);
    GatherIs(SessionIds(f, scope), OfSession(s, seen));
    var ids := SessionIds(f, scope);
    assert forall id :: OfSession(s, seen)(id).Ok? <==> s.session(id).None? && s.listed(id);
    var stored := Gather(ids, OfSession(s, seen));
    if stored.Ok? {
      forall kb
        ensures kb in stored.value <==> Remembered(f, scope, seen, kb)
      {
        if kb in stored.value {
          var id :| id in ids && kb in OfSession(s, seen)(id).value;
          assert OfSession(s, seen)(id) == Ok(Stored(seen, id));
        }
        if id :| (id in f.pathSessions || id in scope.sessions) && id != "" && kb in Stored(seen, id) {
          assert id in ids && OfSession(s, seen)(id) == Ok(Stored(seen, id));
        }
      }
    }
  }

  /** What the request touches is what it uses, each once, if everything can be looked up. */
  lemma TouchedIs(f: Facts, s: Services, scope: Scoped, seen: Sessions)
    requires f.pathKbs.Ok?
    ensures Touched(f, s, scope, seen).Ok? <==> Found(f, s, scope)
    ensures Touched(f, s, scope, seen).Ok? ==>
              && Distinct(Touched(f, s, scope, seen).value)
              && forall kb :: kb in Touched(f, s, scope, seen).value <==> Uses(f, s, scope, seen, kb)
  {
    DocumentsGather(s, scope.documents);
    AgentsGather(s, scope.agents);
    SessionsGather(f, s, scope, seen);
    if Touched(f, s, scope, seen).Ok? {
      var parents := Gather(UniqueOf(scope.documents), ParentOf(s)).value;
      var agents := Gather(UniqueOf(scope.agents), OfAgent(s)).value;
      var stored := Gather(SessionIds(f, scope), OfSession(s, seen)).value;
      var all := f.pathKbs.value + scope.kbs + parents + agents + stored;
      UniqueIs(all);
      forall kb
        ensures kb in Touched(f, s, scope, seen).value <==> Uses(f, s, scope, seen, kb)
      {
        assert kb in all <==> kb in f.pathKbs.value || kb in scope.kbs || kb in parents || kb in agents || kb in stored;
      }
    }
  }

  lemma AllowanceIs(f: Facts, s: Services, kbs: seq<string>)
    requires f.action.Some?
    ensures Gather(kbs, Allowance(f, s)).Ok? <==> forall kb :: kb in kbs ==> May(f, s, kb)
  {
    GatherIs(kbs, Allowance(f, s));
    forall kb
      ensures Allowance(f, s)(kb).Ok? <==> May(f, s, kb)
    {
      MayExactly(f, s, kb);
    }
  }

  lemma CheckedIs(f: Facts, s: Services, scope: Scoped, seen: Sessions)
    requires f.pathKbs.Ok? && f.action.Some?
    ensures Checked(f, s, scope, seen).Ok?
       <==> && (f.messageSearch ==> scope.sessions != [])
            && Found(f, s, scope) && (forall kb :: Uses(f, s, scope, seen, kb) ==> May(f, s, kb))
            && Withdrawn(f, s, scope, seen)
    ensures Checked(f, s, scope, seen).Ok? ==> Checked(f, s, scope, seen) == Touched(f, s, scope, seen)
  {
    TouchedIs(f, s, scope, seen);
    if Touched(f, s, scope, seen).Ok? { AllowanceIs(f, s, Touched(f, s, scope, seen).value); }
  }

  /** With its scope known, a request succeeds exactly when it deserves to, and is then authorized for exactly the
      knowledge bases it uses. */
  lemma ConcludedExactly(f: Facts, s: Services, scope: Scoped, seen: Sessions, r: Result<seq<string>, GateError>)
    requires f.pathKbs.Ok? && f.action.Some? && Concluded(f, s, scope, seen, r)
    ensures r.Ok? <==> Deserves(f, s, scope, seen)
    ensures r.Ok? ==> Distinct(r.value) && forall kb :: kb in r.value <==> Uses(f, s, scope, seen, kb)
  {
    CheckedIs(f, s, scope, seen);
    if Checked(f, s, scope, seen).Ok? {
      TouchedIs(f, s, scope, seen);
      SessionsAre(f, scope);
      RecordedAll(f, s, scope);
      var kbs := Checked(f, s, scope, seen).value;
      if kbs != [] {
        assert kbs[0] in kbs;
        assert Uses(f, s, scope, seen, kbs[0]);
      }
    }
  }

  lemma RecordedAll(f: Facts, s: Services, scope: Scoped)
    ensures Leading(SessionIds(f, scope), s.recorded) == |SessionIds(f, scope)|
       <==> forall id :: id in SessionIds(f, scope) ==> s.recorded(id)
  {
    var ids := SessionIds(f, scope);
    if Leading(ids, s.recorded) < |ids| { assert ids[Leading(ids, s.recorded)] in ids; }
  }

  /** The checks of the request pass: it can only still fail to be recorded. */
  ghost predicate Passes(f: Facts, s: Services, scope: Scoped, seen: Sessions)
    requires f.pathKbs.Ok?
  {
    && (f.messageSearch ==> scope.sessions != [])
    && Found(f, s, scope) && (forall kb :: Uses(f, s, scope, seen, kb) ==> May(f, s, kb))
    && Withdrawn(f, s, scope, seen)
  }

  /** What is recorded: nothing unless the checks pass; then exactly what the request uses, for one session after the
      other, up to the first that cannot be recorded. */
  lemma RecordsExactly(f: Facts, s: Services, scope: Scoped, seen: Sessions)
    requires f.pathKbs.Ok? && f.action.Some?
    ensures var ids, records := SessionIds(f, scope), RecordsOf(f, s, scope, seen);
            && (records != [] ==> Passes(f, s, scope, seen)) && |records| <= |ids|
            && (forall i :: 0 <= i < |records| ==> records[i].session == ids[i] && s.recorded(ids[i]))
            && (forall x, kb :: x in records ==> (kb in x.kbs <==> Uses(f, s, scope, seen, kb)))
            && (Passes(f, s, scope, seen) && (exists kb :: Uses(f, s, scope, seen, kb)) && |records| < |ids| ==>
                  !s.recorded(ids[|records|]))
  {
    CheckedIs(f, s, scope, seen);
    TouchedIs(f, s, scope, seen);
    if Checked(f, s, scope, seen).Ok? {
      var kbs := Checked(f, s, scope, seen).value;
      if kbs == [] { assert forall kb :: !Uses(f, s, scope, seen, kb) by { assert forall kb :: kb !in kbs; } }
    }
  }

  // ---- A plain request ----

  /** By its query, or by its body at any depth. */
  ghost predicate Says(f: Facts, body: Body, kind: Kind, id: string) {
    id in Of(f.query, kind) || (body.Parsed? && Named(body.value, kind, f.generic, id))
  }

  /** A plain request uses these, in terms of what its path, query and body say. */
  ghost predicate PlainUses(f: Facts, s: Services, body: Body, seen: Sessions, kb: string)
    requires f.pathKbs.Ok?
  {
    && kb != ""
    && (|| kb in f.pathKbs.value || Says(f, body, Kind.KnowledgeBase, kb)
        || (exists d :: Says(f, body, Kind.Document, d) && d != "" && s.parent(d) == Ok(kb))
        || (exists a :: Says(f, body, Kind.Agent, a) && a != "" && s.agent(a).Ok? && kb in s.agent(a).value.ids)
        || (exists id :: (id in f.pathSessions || Says(f, body, Kind.Session, id)) && id != ""
                         && kb in Stored(seen, id)))
  }

  /** Its scope says what query and body say. */
  lemma PlainScopeSays(f: Facts, body: Body)
    requires PlainScope(f, body).Ok?
    ensures forall kind, id :: id in Of(PlainScope(f, body).value, kind) <==> Says(f, body, kind, id)
  {
    forall kind, id
      ensures id in Of(PlainScope(f, body).value, kind) <==> Says(f, body, kind, id)
    {
      PlainScopeExactly(f, body, kind, id);
    }
  }

  lemma PlainUsesIs(f: Facts, s: Services, body: Body, seen: Sessions, kb: string)
    requires f.pathKbs.Ok? && PlainScope(f, body).Ok?
    ensures Uses(f, s, PlainScope(f, body).value, seen, kb) <==> PlainUses(f, s, body, seen, kb)
  {
    PlainScopeSays(f, body);
    var scope := PlainScope(f, body).value;
    assert forall id :: id in scope.kbs <==> id in Of(scope, Kind.KnowledgeBase);
    assert forall id :: id in scope.documents <==> id in Of(scope, Kind.Document);
    assert forall id :: id in scope.agents <==> id in Of(scope, Kind.Agent);
    assert forall id :: id in scope.sessions <==> id in Of(scope, Kind.Session);
  }

  /** A plain request on a classified path with a readable body succeeds exactly when it deserves to, and is authorized
      for exactly what its path, its query, its body at any depth and its sessions say; otherwise it fails. */
  lemma PlainSucceedsExactly(f: Facts, s: Services, body: Body, seen: Sessions, r: Result<seq<string>, GateError>,
                             body': Body, records: seq<Recording>)
    requires Answered(f, s, body, seen, r, body', records) && !f.retrieval
    ensures r.Ok? <==>
              && !f.derivedTask && f.action.Some? && f.pathKbs.Ok? && !body.TooLong? && !body.Broken?
              && Deserves(f, s, PlainScope(f, body).value, seen)
    ensures r.Ok? ==> Distinct(r.value) && forall kb :: kb in r.value <==> PlainUses(f, s, body, seen, kb)
    ensures body' == body
  {
    PlainScopeExactly(f, body, Kind.Session, "");
    if !f.derivedTask && f.action.Some? && f.pathKbs.Ok? {
      var scope :| ScopeOf(f, s, body, scope, body') && Ends(f, s, scope, seen, r, records);
      if scope.Ok? {
        ConcludedExactly(f, s, scope.value, seen, r);
        if r.Ok? {
          forall kb
            ensures kb in r.value <==> PlainUses(f, s, body, seen, kb)
          {
            PlainUsesIs(f, s, body, seen, kb);
          }
        }
      }
    }
  }

  // ---- A retrieval ----

  /** The body asks for something. */
  ghost predicate AsksAny(s: Services, document: Json) {
    exists kb :: kb != "" && AsksFor(s, document, kb)
  }

  /** The documents that the body names have parents. */
  ghost predicate Parented(s: Services, document: Json) {
    forall d :: Named(document, Kind.Document, PLAIN, d) ==> s.parent(d).Ok?
  }

  /** It names no agent, or one that can be looked up; a confining one has all that the body asks for. */
  ghost predicate AgentFits(s: Services, document: Json) {
    || NoAgent(document)
    || exists agent :: OnlyAgent(document, agent) && s.agent(agent).Ok?
         && (s.agent(agent).value.mode == "all"
             || forall kb :: kb != "" && AsksFor(s, document, kb) ==> kb in s.agent(agent).value.ids)
  }

  lemma RequestedOk(s: Services, document: Json)
    ensures Requested(s, document).Ok? <==> Parented(s, document)
  {
    var named := Collected(document, Kind.Document, PLAIN);
    DocumentsGather(s, named);
    forall d
      ensures d in named <==> Named(document, Kind.Document, PLAIN, d)
      ensures d in named ==> d != ""
    {
      CollectedExactly(document, Kind.Document, PLAIN, d);
      if d in named { NamedIsNotEmpty(document, Kind.Document, PLAIN, d); }
    }
  }

  lemma RequestedAsks(s: Services, document: Json, kb: string)
    requires Requested(s, document).Ok?
    ensures kb in Requested(s, document).value <==> kb != "" && AsksFor(s, document, kb)
  {
    if kb in Requested(s, document).value { RequestedOnly(s, document, kb); }
    if kb != "" && AsksFor(s, document, kb) { RequestedIs(s, document, kb); }
  }

  /** A retrieval has a plan exactly when the documents it names have parents and its agent fits. */
  lemma PlanExactly(f: Facts, s: Services, document: Json)
    ensures PlanFor(f, s, document).Ok? <==> Parented(s, document) && AgentFits(s, document)
  {
    RequestedOk(s, document);
    if Parented(s, document) {
      AgentsFit(f, s, document, Requested(s, document).value, UniqueOf(Collected(document, Kind.Agent, PLAIN)));
    }
  }

  lemma AgentsFit(f: Facts, s: Services, document: Json, requested: seq<string>, agents: seq<string>)
    requires Requested(s, document) == Ok(requested) && agents == UniqueOf(Collected(document, Kind.Agent, PLAIN))
    ensures PlanOf(f, s, requested, agents).Ok? <==> AgentFits(s, document)
  {
    AgentsAre(document);
    if |agents| == 1 {
      OneAgentFits(s, document, requested, agents, agents[0]);
    } else if |agents| > 1 {
      UniqueIs(Collected(document, Kind.Agent, PLAIN));
      ManyDoNotFit(s, document, agents[0], agents[1]);
    }
  }

  lemma ManyDoNotFit(s: Services, document: Json, a: string, b: string)
    requires a != b && Named(document, Kind.Agent, PLAIN, a) && Named(document, Kind.Agent, PLAIN, b)
    ensures !AgentFits(s, document)
  {
  }

  lemma OneAgentFits(s: Services, document: Json, requested: seq<string>, agents: seq<string>, agent: string)
    requires Requested(s, document) == Ok(requested) && agents == [agent]
    requires forall id :: id in agents <==> Named(document, Kind.Agent, PLAIN, id)
    ensures AgentFits(s, document)
       <==> s.agent(agent).Ok?
            && (s.agent(agent).value.mode == "all" || Subset(requested, s.agent(agent).value.ids))
  {
    assert OnlyAgent(document, agent) && Named(document, Kind.Agent, PLAIN, agent);
    assert forall other :: OnlyAgent(document, other) ==> other == agent;
    if s.agent(agent).Ok? { AgentHas(s, document, requested, agent); }
  }

  lemma AgentHas(s: Services, document: Json, requested: seq<string>, agent: string)
    requires Requested(s, document) == Ok(requested) && s.agent(agent).Ok?
    ensures Subset(requested, s.agent(agent).value.ids)
       <==> forall kb :: kb != "" && AsksFor(s, document, kb) ==> kb in s.agent(agent).value.ids
  {
    forall kb
      ensures kb in requested <==> kb != "" && AsksFor(s, document, kb)
    {
      RequestedAsks(s, document, kb);
    }
  }

  /** What a retrieval wants: what the body asks for or, when it asks for nothing, what its agent has. */
  ghost predicate Wants(s: Services, document: Json, id: string) {
    && id != ""
    && if AsksAny(s, document) then AsksFor(s, document, id)
       else exists agent :: OnlyAgent(document, agent) && Offers(s, agent, id)
  }

  /** The agent has `id` and stands neither for everything nor for nothing. */
  predicate Offers(s: Services, agent: string, id: string) {
    s.agent(agent).Ok? && s.agent(agent).value.mode !in {"all", "none"} && id in s.agent(agent).value.ids
  }

  /** `ids` are what it wants, each once. */
  ghost predicate Wanted(s: Services, document: Json, ids: seq<string>) {
    Distinct(ids) && forall id :: id in ids <==> Wants(s, document, id)
  }

  ghost predicate OnlyAgentIs(s: Services, document: Json, mode: string) {
    exists agent :: OnlyAgent(document, agent) && s.agent(agent).Ok? && s.agent(agent).value.mode == mode
  }

  /** It wants the whole library. */
  ghost predicate WantsLibrary(s: Services, document: Json) {
    !AsksAny(s, document) && (NoAgent(document) || OnlyAgentIs(s, document, "all"))
  }

  /** It is a chat without knowledge. */
  ghost predicate WantsNothing(f: Facts, s: Services, document: Json) {
    f.conversation && !AsksAny(s, document) && OnlyAgentIs(s, document, "none")
  }

  /** The whole library can be had: not too much of it, and something that is not only public. */
  ghost predicate LibraryFits(s: Services) {
    && s.page.Some? && s.page.value.total <= 64
    && exists e :: e in s.page.value.items && e.decision.source != "organization_public"
  }

  /** One to 64 ids of one to 128 bytes, every one readable. */
  ghost predicate SelectionFits(s: Services, ids: seq<string>) {
    1 <= |ids| <= 64 && forall v :: v in ids ==> 1 <= Bytes(Trim(v)) <= 128 && s.decide(Trim(v), Read).Allowed?
  }

  lemma {:induction false} AllUsableIs(values: seq<string>)
    ensures AllUsable(values) <==> forall v :: v in values ==> 1 <= Bytes(Trim(v)) <= 128
    decreases |values|
  {
    if values != [] {
      var front, last := values[..|values| - 1], values[|values| - 1];
      assert values == front + [last];
      AllUsableIs(front);
      assert Usable(Trim(last)) <==> 1 <= Bytes(Trim(last)) <= 128;
    }
  }

  lemma SelectionResolves(f: Facts, s: Services, plan: Plan, r: Result<Scope, ScopeError>)
    requires Resolution(f, s, plan, r) && plan.selection.Explicit?
    ensures r.Ok? <==> f.principal && SelectionFits(s, plan.ids)
    ensures r.Ok? ==> r.value.ids != []
    ensures r.Ok? ==> forall id :: id in r.value.ids <==> exists v :: v in plan.ids && Trim(v) == id
  {
    AllUsableIs(plan.ids);
    if f.principal && SelectionFits(s, plan.ids) {
      forall id | id in Trimmed(plan.ids)
        ensures LibraryOf(s).read(id).Allowed?
      {
        TrimmedOnly(plan.ids, id);
      }
    }
    if r.Ok? {
      forall id
        ensures id in r.value.ids <==> exists v :: v in plan.ids && Trim(v) == id
        ensures id in r.value.ids ==> s.decide(id, Read).Allowed?
      {
        ExplicitIs(s, plan.ids, r.value, id);
        if v :| v in plan.ids && Trim(v) == id { ExplicitIs(s, plan.ids, r.value, v); }
      }
      forall v | v in plan.ids
        ensures s.decide(Trim(v), Read).Allowed?
      {
        assert Trim(v) in r.value.ids;
      }
      assert Trim(plan.ids[0]) in r.value.ids;
    }
  }

  lemma LibraryResolves(f: Facts, s: Services, plan: Plan, r: Result<Scope, ScopeError>)
    requires Resolution(f, s, plan, r) && plan.selection.Default?
    ensures r.Ok? && r.value.ids != [] <==> f.principal && LibraryFits(s)
    ensures r.Ok? ==>
              forall id :: id in r.value.ids
                <==> exists e :: e in s.page.value.items && e.id == id && e.decision.source != "organization_public"
  {
    if r.Ok? {
      LibraryListed(r.value.entries, s.page.value.items, r.value.ids);
      if r.value.ids != [] { assert r.value.ids[0] in r.value.ids; }
    }
  }

  lemma LibraryListed(entries: seq<Entry>, items: seq<Entry>, ids: seq<string>)
    requires ids == IdsOf(entries) && multiset(entries) == multiset(Included(items))
    ensures forall id :: id in ids
              <==> exists e :: e in items && e.id == id && e.decision.source != "organization_public"
  {
    forall e
      ensures e in entries <==> e in items && e.decision.source != "organization_public"
    {
      assert e in multiset(entries) <==> e in multiset(Included(items));
    }
    forall id
      ensures id in ids <==> exists e :: e in items && e.id == id && e.decision.source != "organization_public"
    {
      if id in ids {
        var i :| 0 <= i < |ids| && ids[i] == id;
        assert entries[i] in entries;
      }
      if e :| e in items && e.id == id && e.decision.source != "organization_public" {
        assert e in entries;
        var i :| 0 <= i < |entries| && entries[i] == e;
        assert ids[i] == id;
      }
    }
  }

  /** What a plan is for. */
  lemma PlanIs(f: Facts, s: Services, document: Json, plan: Plan)
    requires PlanFor(f, s, document) == Ok(plan)
    ensures plan.pure <==> WantsNothing(f, s, document)
    ensures plan.selection.Default? <==> WantsLibrary(s, document)
    ensures !plan.pure && plan.selection.Explicit? ==> Wanted(s, document, plan.ids)
    ensures plan.selection.Default? || plan.selection.Explicit?
  {
    PureExactly(f, s, document, plan);
    DefaultExactly(f, s, document, plan);
    if !plan.pure && plan.selection.Explicit? { WantedIs(f, s, document, plan); }
  }

  lemma WantedIs(f: Facts, s: Services, document: Json, plan: Plan)
    requires PlanFor(f, s, document) == Ok(plan) && !plan.pure && plan.selection.Explicit?
    ensures Wanted(s, document, plan.ids)
  {
    var requested := Requested(s, document).value;
    forall kb
      ensures kb in requested <==> kb != "" && AsksFor(s, document, kb)
    {
      RequestedAsks(s, document, kb);
    }
    RequestedDistinct(s, document);
    if requested != [] {
      assert requested[0] in requested;
      assert AsksAny(s, document) && plan.ids == requested;
    } else {
      AgentWanted(f, s, document, plan);
    }
  }

  lemma AgentWanted(f: Facts, s: Services, document: Json, plan: Plan)
    requires PlanFor(f, s, document) == Ok(plan) && !plan.pure && plan.selection.Explicit?
    requires Requested(s, document) == Ok([]) && !AsksAny(s, document)
    ensures Wanted(s, document, plan.ids)
  {
    AgentOfPlan(f, s, document, plan);
    var agent := UniqueOf(Collected(document, Kind.Agent, PLAIN))[0];
    var a := s.agent(agent).value;
    UniqueIs(a.ids);
    assert Named(document, Kind.Agent, PLAIN, agent);
    forall id
      ensures id in plan.ids <==> Wants(s, document, id)
    {
      assert forall other :: OnlyAgent(document, other) ==> other == agent;
      assert Wants(s, document, id) <==> id != "" && Offers(s, agent, id);
    }
  }

  lemma RequestedDistinct(s: Services, document: Json)
    requires Requested(s, document).Ok?
    ensures Distinct(Requested(s, document).value)
  {
    var parents := Gather(UniqueOf(Collected(document, Kind.Document, PLAIN)), ParentOf(s));
    UniqueIs(Collected(document, Kind.KnowledgeBase, PLAIN) + parents.value);
  }

  /** A retrieval has its scope exactly when its body is an object whose documents have parents and whose agent fits,
      the success can be recorded, and it is a chat without knowledge or gets the library or the selection that it
      wants. */
  lemma RetrievalScopedExactly(f: Facts, s: Services, body: Body, scope: Result<Scoped, GateError>, body': Body)
    requires RetrievalScope(f, s, body, scope, body')
    ensures scope.Ok?
       <==> && body.Parsed? && body.value.Object? && Parented(s, body.value) && AgentFits(s, body.value) && s.audited
            && (|| WantsNothing(f, s, body.value)
                || (f.principal && WantsLibrary(s, body.value) && LibraryFits(s))
                || (f.principal && !WantsLibrary(s, body.value)
                    && exists ids :: Wanted(s, body.value, ids) && SelectionFits(s, ids)))
    ensures scope.Err? ==> body' == body
  {
    if body.Parsed? && body.value.Object? {
      PlanExactly(f, s, body.value);
      if PlanFor(f, s, body.value).Ok? { PlannedExactly(f, s, body.value, scope, body'); }
    }
  }

  lemma PlannedExactly(f: Facts, s: Services, document: Json, scope: Result<Scoped, GateError>, body': Body)
    requires document.Object? && PlanFor(f, s, document).Ok?
    requires Planned(f, s, document, PlanFor(f, s, document).value, scope, body')
    ensures scope.Ok?
       <==> && s.audited
            && (|| WantsNothing(f, s, document)
                || (f.principal && WantsLibrary(s, document) && LibraryFits(s))
                || (f.principal && !WantsLibrary(s, document)
                    && exists ids :: Wanted(s, document, ids) && SelectionFits(s, ids)))
    ensures scope.Err? ==> body' == Parsed(document)
  {
    var plan := PlanFor(f, s, document).value;
    PlanIs(f, s, document, plan);
    if !plan.pure {
      var r :| Resolution(f, s, plan, r) && Forwarded(s, document, r, scope, body');
      if plan.selection.Default? {
        LibraryResolves(f, s, plan, r);
      } else {
        SelectionResolves(f, s, plan, r);
        if ids :| Wanted(s, document, ids) && SelectionFits(s, ids) { SameWanted(s, document, ids, plan.ids); }
      }
    } else {
      assert WantsNothing(f, s, document);
    }
  }

  lemma SameWanted(s: Services, document: Json, a: seq<string>, b: seq<string>)
    requires Wanted(s, document, a) && Wanted(s, document, b)
    ensures SelectionFits(s, a) <==> SelectionFits(s, b)
  {
    assert forall id :: id in a <==> id in b;
    SameSize(a, b);
  }

  lemma {:induction false} SameSize(a: seq<string>, b: seq<string>)
    requires Distinct(a) && Distinct(b) && forall x :: x in a <==> x in b
    ensures |a| == |b|
    decreases |a|
  {
    SizeOf(a);
    SizeOf(b);
    assert (set x | x in a) == (set x | x in b);
  }

  lemma {:induction false} SizeOf(a: seq<string>)
    requires Distinct(a)
    ensures |set x | x in a| == |a|
    decreases |a|
  {
    if a != [] {
      var front, last := a[..|a| - 1], a[|a| - 1];
      assert a == front + [last];
      SizeOf(front);
      assert last !in front;
      assert (set x | x in a) == (set x | x in front) + {last};
    }
  }

  /** And the scope is exactly that, trimmed: nothing for a chat without knowledge, otherwise the library or the
      selection; with it go the sessions that the body names. */
  lemma RetrievalScopeIs(f: Facts, s: Services, body: Body, scope: Result<Scoped, GateError>, body': Body, id: string)
    requires RetrievalScope(f, s, body, scope, body') && scope.Ok?
    ensures id in scope.value.kbs <==> Gets(f, s, body.value, id)
    ensures scope.value.documents == [] && scope.value.agents == []
    ensures id in scope.value.sessions <==> Named(body.value, Kind.Session, PLAIN, id)
  {
    CollectedExactly(body.value, Kind.Session, PLAIN, id);
    var plan := PlanFor(f, s, body.value).value;
    PlanIs(f, s, body.value, plan);
    if !plan.pure {
      var r :| Resolution(f, s, plan, r) && Forwarded(s, body.value, r, scope, body');
      assert r.Ok? && scope.value.kbs == r.value.ids;
      ResolvedGets(f, s, body.value, plan, r, id);
    }
  }

  /** What a retrieval gets. */
  ghost predicate Gets(f: Facts, s: Services, document: Json, id: string) {
    && !WantsNothing(f, s, document)
    && if WantsLibrary(s, document)
       then s.page.Some?
            && exists e :: e in s.page.value.items && e.id == id && e.decision.source != "organization_public"
       else exists v :: Wants(s, document, v) && Trim(v) == id
  }

  lemma ResolvedGets(f: Facts, s: Services, document: Json, plan: Plan, r: Result<Scope, ScopeError>, id: string)
    requires PlanFor(f, s, document) == Ok(plan) && !plan.pure && Resolution(f, s, plan, r) && r.Ok?
    ensures id in r.value.ids <==> Gets(f, s, document, id)
  {
    PlanIs(f, s, document, plan);
    if plan.selection.Default? {
      LibraryResolves(f, s, plan, r);
    } else {
      SelectionResolves(f, s, plan, r);
      if v :| v in plan.ids && Trim(v) == id { assert Wants(s, document, v); }
      if v :| Wants(s, document, v) && Trim(v) == id { assert v in plan.ids; }
    }
  }

  /** The retrieval gets this scope with this body, and deserves to succeed with it. */
  ghost predicate ServedWith(f: Facts, s: Services, body: Body, seen: Sessions, body': Body, scope: Scoped)
    requires f.pathKbs.Ok?
  {
    RetrievalScope(f, s, body, Ok(scope), body') && Deserves(f, s, scope, seen)
  }

  ghost predicate UsesExactly(f: Facts, s: Services, scope: Scoped, seen: Sessions, kbs: seq<string>)
    requires f.pathKbs.Ok?
  {
    Distinct(kbs) && forall kb :: kb in kbs <==> Uses(f, s, scope, seen, kb)
  }

  /** A retrieval on a classified path succeeds exactly when it gets its scope and, with it, deserves to; it is then
      authorized for exactly what it uses. */
  lemma RetrievalSucceedsExactly(f: Facts, s: Services, body: Body, seen: Sessions, r: Result<seq<string>, GateError>,
                                 body': Body, records: seq<Recording>)
    requires Answered(f, s, body, seen, r, body', records) && f.retrieval
    ensures r.Ok? <==>
              && !f.derivedTask && f.action.Some? && f.pathKbs.Ok?
              && exists scope :: ServedWith(f, s, body, seen, body', scope)
    ensures r.Ok? ==>
              exists scope :: ServedWith(f, s, body, seen, body', scope) && UsesExactly(f, s, scope, seen, r.value)
  {
    if !f.derivedTask && f.action.Some? && f.pathKbs.Ok? {
      var scope :| ScopeOf(f, s, body, scope, body') && Ends(f, s, scope, seen, r, records);
      ServedIsOk(f, s, body, seen, r, body', scope);
      if other :| ServedWith(f, s, body, seen, body', other) { SameServed(f, s, body, seen, body', scope, other); }
    }
  }

  lemma ServedIsOk(f: Facts, s: Services, body: Body, seen: Sessions, r: Result<seq<string>, GateError>, body': Body,
                   scope: Result<Scoped, GateError>)
    requires f.pathKbs.Ok? && f.action.Some? && RetrievalScope(f, s, body, scope, body')
    requires if scope.Err? then r == Err(scope.error) else Concluded(f, s, scope.value, seen, r)
    ensures r.Ok? <==> scope.Ok? && ServedWith(f, s, body, seen, body', scope.value)
    ensures r.Ok? ==> UsesExactly(f, s, scope.value, seen, r.value)
  {
    if scope.Ok? { ConcludedExactly(f, s, scope.value, seen, r); }
  }

  /** Two scopes for one body differ at most in the order of equal ids, which does not matter. */
  lemma SameServed(f: Facts, s: Services, body: Body, seen: Sessions, body': Body, a: Result<Scoped, GateError>,
                   b: Scoped)
    requires f.pathKbs.Ok? && RetrievalScope(f, s, body, a, body') && ServedWith(f, s, body, seen, body', b)
    ensures a.Ok? && ServedWith(f, s, body, seen, body', a.value)
  {
    RetrievalScopedExactly(f, s, body, a, body');
    RetrievalScopedExactly(f, s, body, Ok(b), body');
    forall id
      ensures id in a.value.kbs <==> id in b.kbs
    {
      RetrievalScopeIs(f, s, body, a, body', id);
      RetrievalScopeIs(f, s, body, Ok(b), body', id);
    }
    ScopeSessionsAre(f, s, body, a.value, body');
    ScopeSessionsAre(f, s, body, b, body');
    SameDeserves(f, s, a.value, b, seen);
  }

  lemma ScopeSessionsAre(f: Facts, s: Services, body: Body, scope: Scoped, body': Body)
    requires RetrievalScope(f, s, body, Ok(scope), body')
    ensures body.Parsed? && scope == Scoped(scope.kbs, [], [], Collected(body.value, Kind.Session, PLAIN))
  {
  }

  lemma SameDeserves(f: Facts, s: Services, a: Scoped, b: Scoped, seen: Sessions)
    requires f.pathKbs.Ok? && a == b.(kbs := a.kbs) && forall id :: id in a.kbs <==> id in b.kbs
    ensures Deserves(f, s, a, seen) <==> Deserves(f, s, b, seen)
  {
    assert forall kb :: Uses(f, s, a, seen, kb) <==> Uses(f, s, b, seen, kb);
  }
}
