/** What holds of every authorized request and over every run of requests. */
module GateRuns {
  import opened Basics
  import opened AgentScope
  import opened Scopes
  import opened GateRules

  // ---- A session does not forget what it was used with ----

  /** Nothing stored is lost. */
  ghost predicate Grows(a: Sessions, b: Sessions) {
    forall id, kb :: kb in Stored(a, id) && kb != "" ==> kb in Stored(b, id)
  }

  lemma RememberIs(sessions: Sessions, id: string, kbs: seq<string>)
    ensures Grows(sessions, Remember(sessions, id, kbs))
    ensures forall kb :: kb in kbs && kb != "" ==> kb in Stored(Remember(sessions, id, kbs), id)
  {
    UniqueIs(Stored(sessions, id) + kbs);
  }

  /** And nothing else is added, there or to any other session. */
  lemma RememberExactly(sessions: Sessions, id: string, kbs: seq<string>, other: string, kb: string)
    requires kb != ""
    ensures kb in Stored(Remember(sessions, id, kbs), other)
       <==> kb in Stored(sessions, other) || (other == id && kb in kbs)
  {
    UniqueIs(Stored(sessions, id) + kbs);
  }

  /** A request that passes its checks has every knowledge base of its sessions among the ones it is allowed. */
  lemma CheckedCovers(f: Facts, s: Services, scope: Scoped, sessions: Sessions, kb: string)
    requires f.pathKbs.Ok? && f.action.Some? && Checked(f, s, scope, sessions).Ok?
    ensures kb in Checked(f, s, scope, sessions).value ==> May(f, s, kb) && kb != ""
    ensures kb != "" && (kb in f.pathKbs.value || kb in scope.kbs) ==> kb in Checked(f, s, scope, sessions).value
    ensures kb != "" && (exists id :: id in SessionIds(f, scope) && kb in Stored(sessions, id)) ==>
              kb in Checked(f, s, scope, sessions).value
  {
    var kbs := Checked(f, s, scope, sessions).value;
    var stored := Gather(SessionIds(f, scope), OfSession(s, sessions));
    var parents, agents := Gather(UniqueOf(scope.documents), ParentOf(s)), Gather(UniqueOf(scope.agents), OfAgent(s));
    UniqueIs(f.pathKbs.value + scope.kbs + parents.value + agents.value + stored.value);
    MayExactly(f, s, kb);
    if kb in kbs { GatherHas(kbs, Allowance(f, s), kb); }
    if id :| id in SessionIds(f, scope) && kb in Stored(sessions, id) {
      GatherHas(SessionIds(f, scope), OfSession(s, sessions), id);
    }
  }

  /** The sessions a request names, by its path and anywhere in its body. */
  function NamedSessions(f: Facts, body: Body): seq<string> {
    var inBody := if body.Parsed?
        then Collected(body.value, Kind.Session, if f.retrieval then PLAIN else f.generic) else [];
    UniqueOf(f.pathSessions + ((if f.retrieval then [] else f.query.sessions) + inBody))
  }

  lemma ScopeSessions(f: Facts, s: Services, body: Body, scope: Result<Scoped, GateError>, body': Body)
    requires ScopeOf(f, s, body, scope, body') && scope.Ok?
    ensures SessionIds(f, scope.value) == NamedSessions(f, body)
  {
    if f.retrieval {
      var inBody := Collected(body.value, Kind.Session, PLAIN);
      assert [] + inBody == inBody;
      assert scope.value.sessions == inBody;
    } else if !body.Parsed? {
      assert f.query.sessions + [] == f.query.sessions;
    }
  }

  /** What a request records, and what its success says. */
  lemma ServedIs(f: Facts, s: Services, body: Body, seen: Sessions, r: Result<seq<string>, GateError>, body': Body,
                 records: seq<Recording>)
    requires Answered(f, s, body, seen, r, body', records)
    ensures r.Ok? ==> f.action.Some? && forall kb :: kb in r.value ==> May(f, s, kb) && kb != ""
    ensures r.Ok? ==> forall id, kb :: id in NamedSessions(f, body) && kb in Stored(seen, id) && kb != "" ==>
              kb in r.value
    ensures r.Ok? && r.value != [] ==> forall id :: id in NamedSessions(f, body) ==> Recording(id, r.value) in records
    ensures forall x :: x in records ==> x.session in NamedSessions(f, body) && f.action.Some?
                                         && forall kb :: kb in x.kbs ==> May(f, s, kb) && kb != ""
  {
    if !f.derivedTask && f.action.Some? && f.pathKbs.Ok? {
      var scope :| ScopeOf(f, s, body, scope, body') && Ends(f, s, scope, seen, r, records);
      if scope.Ok? {
        ScopeSessions(f, s, body, scope, body');
        ConcludedIs(f, s, scope.value, seen, r);
        RecordsAre(f, s, scope.value, seen);
        if r.Ok? && r.value != [] { AllRecorded(f, s, scope.value, seen, r); }
      }
    }
  }

  lemma ConcludedIs(f: Facts, s: Services, scope: Scoped, seen: Sessions, r: Result<seq<string>, GateError>)
    requires f.pathKbs.Ok? && f.action.Some? && Concluded(f, s, scope, seen, r)
    ensures r.Ok? ==> Checked(f, s, scope, seen) == r
    ensures r.Ok? ==> forall kb :: kb in r.value ==> May(f, s, kb) && kb != ""
    ensures r.Ok? ==> forall id, kb :: id in SessionIds(f, scope) && kb in Stored(seen, id) && kb != "" ==>
              kb in r.value
  {
    if r.Ok? {
      forall kb | kb in r.value
        ensures May(f, s, kb) && kb != ""
      {
        CheckedCovers(f, s, scope, seen, kb);
      }
      forall id, kb | id in SessionIds(f, scope) && kb in Stored(seen, id) && kb != ""
        ensures kb in r.value
      {
        CheckedCovers(f, s, scope, seen, kb);
      }
    }
  }

  /** Only what was authorized is recorded, also when a later recording fails. */
  lemma RecordsAre(f: Facts, s: Services, scope: Scoped, seen: Sessions)
    requires f.pathKbs.Ok? && f.action.Some?
    ensures forall x :: x in RecordsOf(f, s, scope, seen) ==>
              x.session in SessionIds(f, scope) && forall kb :: kb in x.kbs ==> May(f, s, kb) && kb != ""
  {
    if Checked(f, s, scope, seen).Ok? {
      var kbs := Checked(f, s, scope, seen).value;
      forall kb | kb in kbs
        ensures May(f, s, kb) && kb != ""
      {
        CheckedCovers(f, s, scope, seen, kb);
      }
    }
  }

  lemma AllRecorded(f: Facts, s: Services, scope: Scoped, seen: Sessions, r: Result<seq<string>, GateError>)
    requires f.pathKbs.Ok? && f.action.Some? && Concluded(f, s, scope, seen, r) && r.Ok? && r.value != []
    ensures forall id :: id in SessionIds(f, scope) ==> Recording(id, r.value) in RecordsOf(f, s, scope, seen)
  {
    var ids, records := SessionIds(f, scope), RecordsOf(f, s, scope, seen);
    forall id | id in ids
      ensures Recording(id, r.value) in records
    {
      var i :| 0 <= i < |ids| && ids[i] == id;
      assert records[i] == Recording(id, r.value);
    }
  }

  // ---- Runs ----

  /** A request in a run: the outcome given what it saw of each session when it read it, after `read` recordings, and
      where in the log of all recordings its own are. */
  datatype Turn = Turn(f: Facts, s: Services, body: Body, seen: Sessions, r: Result<seq<string>, GateError>,
                       body': Body, read: map<string, nat>, records: seq<Recording>, at: seq<nat>)

  /** It reads its sessions one by one, each as it is then, and later records for one after the other. */
  ghost predicate TurnOk(t: Turn, log: seq<Recording>, states: seq<Sessions>)
    requires |states| == |log| + 1
  {
    && Answered(t.f, t.s, t.body, t.seen, t.r, t.body', t.records)
    && (forall id :: id in NamedSessions(t.f, t.body) ==>
          id in t.read && t.read[id] <= |log| && Stored(t.seen, id) == Stored(states[t.read[id]], id))
    && |t.at| == |t.records|
    && (forall k :: 0 <= k < |t.at| ==> t.at[k] < |log| && log[t.at[k]] == t.records[k])
    && (forall j, k :: 0 <= j < k < |t.at| ==> t.at[j] < t.at[k])
    && (forall id, k :: id in t.read && 0 <= k < |t.at| ==> t.read[id] <= t.at[k])
  }

  /** What the sessions hold before each recording and after the last. */
  predicate Steps(log: seq<Recording>, states: seq<Sessions>) {
    && |states| == |log| + 1
    && forall k :: 0 <= k < |log| ==> states[k + 1] == Remember(states[k], log[k].session, log[k].kbs)
  }

  /** A run of requests that overlap in any way; the answers of the services change, and the log may hold recordings of
      other requests too. */
  ghost predicate IsRun(turns: seq<Turn>, log: seq<Recording>, states: seq<Sessions>) {
    Steps(log, states) && forall i :: 0 <= i < |turns| ==> TurnOk(turns[i], log, states)
  }

  lemma {:induction false} StatesGrow(log: seq<Recording>, states: seq<Sessions>, i: nat, j: nat)
    requires Steps(log, states) && i <= j <= |log|
    ensures Grows(states[i], states[j])
    decreases j - i
  {
    if i < j {
      StatesGrow(log, states, i, j - 1);
      StepGrows(log, states, j - 1);
      GrowsOn(states[i], states[j - 1], states[j]);
    }
  }

  lemma StepGrows(log: seq<Recording>, states: seq<Sessions>, k: nat)
    requires Steps(log, states) && k < |log|
    ensures Grows(states[k], states[k + 1])
  {
    RememberIs(states[k], log[k].session, log[k].kbs);
  }

  lemma GrowsOn(a: Sessions, b: Sessions, c: Sessions)
    requires Grows(a, b) && Grows(b, c)
    ensures Grows(a, c)
  {
  }

  /** What the sessions hold before each of some recordings and after the last. */
  function StatesOf(sessions: Sessions, log: seq<Recording>): seq<Sessions> {
    seq(|log| + 1, k requires 0 <= k <= |log| => Recorded(sessions, log[..k]))
  }

  lemma RecordedNext(sessions: Sessions, log: seq<Recording>, k: nat)
    requires k < |log|
    ensures StatesOf(sessions, log)[k + 1] == Remember(StatesOf(sessions, log)[k], log[k].session, log[k].kbs)
  {
    assert log[..k + 1][..k] == log[..k];
  }

  lemma StatesAre(sessions: Sessions, log: seq<Recording>)
    ensures Steps(log, StatesOf(sessions, log)) && StatesOf(sessions, log)[0] == sessions
  {
    forall k | 0 <= k < |log|
      ensures StatesOf(sessions, log)[k + 1] == Remember(StatesOf(sessions, log)[k], log[k].session, log[k].kbs)
    {
      RecordedNext(sessions, log, k);
    }
  }

  /** A request handled alone is such a run: it reads every session before it records anything. */
  lemma AloneIsRun(t: Turn)
    requires Answered(t.f, t.s, t.body, t.seen, t.r, t.body', t.records)
    requires t.read == (map id | id in NamedSessions(t.f, t.body) :: 0) && t.at == seq(|t.records|, k => k)
    ensures IsRun([t], t.records, StatesOf(t.seen, t.records))
  {
    StatesAre(t.seen, t.records);
    AloneIsOk(t, StatesOf(t.seen, t.records));
  }

  lemma AloneIsOk(t: Turn, states: seq<Sessions>)
    requires Answered(t.f, t.s, t.body, t.seen, t.r, t.body', t.records)
    requires t.read == (map id | id in NamedSessions(t.f, t.body) :: 0) && t.at == seq(|t.records|, k => k)
    requires |states| == |t.records| + 1 && states[0] == t.seen
    ensures TurnOk(t, t.records, states)
  {
    forall id | id in NamedSessions(t.f, t.body)
      ensures id in t.read && t.read[id] == 0
    {
    }
  }

  /** Each recording of `t` for the session comes before `later` reads it. */
  predicate Before(t: Turn, later: Turn, session: string) {
    && session in later.read && |t.at| == |t.records|
    && forall k :: 0 <= k < |t.at| && t.records[k].session == session ==> t.at[k] < later.read[session]
  }

  /** What a successful request used in a session is there for every later read of the session. */
  lemma StaysStored(turns: seq<Turn>, log: seq<Recording>, states: seq<Sessions>, i: nat, j: nat, session: string,
                    kb: string)
    requires IsRun(turns, log, states) && i < |turns| && j < |turns|
    requires turns[i].r.Ok? && kb in turns[i].r.value && session in NamedSessions(turns[i].f, turns[i].body)
    requires session in NamedSessions(turns[j].f, turns[j].body) && Before(turns[i], turns[j], session)
    ensures kb != "" && kb in Stored(turns[j].seen, session)
  {
    var t := turns[i];
    assert TurnOk(t, log, states) && TurnOk(turns[j], log, states);
    ServedIs(t.f, t.s, t.body, t.seen, t.r, t.body', t.records);
    assert Recording(session, t.r.value) in t.records;
    var k :| 0 <= k < |t.records| && t.records[k] == Recording(session, t.r.value);
    RememberIs(states[t.at[k]], session, t.r.value);
    StatesGrow(log, states, t.at[k] + 1, turns[j].read[session]);
  }

  /** A knowledge base that a successful request used in a session is authorized again by every successful request that
      names the session and reads it after that was recorded. */
  lemma AuthorizedAgain(turns: seq<Turn>, log: seq<Recording>, states: seq<Sessions>, i: nat, j: nat, session: string,
                        kb: string)
    requires IsRun(turns, log, states) && i < |turns| && j < |turns|
    requires turns[i].r.Ok? && kb in turns[i].r.value && session in NamedSessions(turns[i].f, turns[i].body)
    requires session in NamedSessions(turns[j].f, turns[j].body) && Before(turns[i], turns[j], session)
    requires turns[j].r.Ok?
    ensures kb in turns[j].r.value
    ensures May(turns[j].f, turns[j].s, kb)
  {
    var t := turns[j];
    assert TurnOk(t, log, states);
    ServedIs(t.f, t.s, t.body, t.seen, t.r, t.body', t.records);
    StaysStored(turns, log, states, i, j, session, kb);
  }

  /** So while one of them is refused, nothing on the session succeeds. */
  lemma RevokedStops(turns: seq<Turn>, log: seq<Recording>, states: seq<Sessions>, i: nat, j: nat, session: string,
                     kb: string)
    requires IsRun(turns, log, states) && i < |turns| && j < |turns|
    requires turns[i].r.Ok? && kb in turns[i].r.value && session in NamedSessions(turns[i].f, turns[i].body)
    requires session in NamedSessions(turns[j].f, turns[j].body) && Before(turns[i], turns[j], session)
    requires !May(turns[j].f, turns[j].s, kb)
    ensures turns[j].r.Err?
  {
    if turns[j].r.Ok? { AuthorizedAgain(turns, log, states, i, j, session, kb); }
  }

  // ---- What a retrieval is forwarded with ----

  /** The body names a knowledge base, or a document of it, at any depth. */
  ghost predicate AsksFor(s: Services, document: Json, kb: string) {
    || Named(document, Kind.KnowledgeBase, PLAIN, kb)
    || exists d :: Named(document, Kind.Document, PLAIN, d) && s.parent(d) == Ok(kb)
  }

  lemma RequestedIs(s: Services, document: Json, kb: string)
    requires Requested(s, document).Ok? && AsksFor(s, document, kb) && kb != ""
    ensures kb in Requested(s, document).value
  {
    var documents := UniqueOf(Collected(document, Kind.Document, PLAIN));
    var parents := Gather(documents, ParentOf(s)).value;
    UniqueIs(Collected(document, Kind.KnowledgeBase, PLAIN) + parents);
    if Named(document, Kind.KnowledgeBase, PLAIN, kb) {
      CollectedExactly(document, Kind.KnowledgeBase, PLAIN, kb);
    } else {
      var d :| Named(document, Kind.Document, PLAIN, d) && s.parent(d) == Ok(kb);
      CollectedExactly(document, Kind.Document, PLAIN, d);
      UniqueIs(Collected(document, Kind.Document, PLAIN));
      assert d != "" by {
        var part :| Inside(part, document) && Mentions(part, Kind.Document, PLAIN, d);
      }
      GatherHas(documents, ParentOf(s), d);
    }
  }

  /** An explicit scope is what the plan asks for, trimmed, and readable. */
  lemma ExplicitIs(s: Services, values: seq<string>, r: Scope, id: string)
    requires ExplicitScope(LibraryOf(s), values, Ok(r))
    ensures id in values ==> Trim(id) in r.ids && Trim(id) != ""
    ensures id in r.ids ==> s.decide(id, Read).Allowed? && exists v :: v in values && Trim(v) == id
  {
    if id in values {
      var i :| 0 <= i < |values| && values[i] == id;
      TrimmedHas(values, i);
      assert Trim(id) in Elements(r.ids);
    }
    if id in r.ids {
      assert id in Elements(r.ids);
      TrimmedOnly(values, id);
      var i :| 0 <= i < |r.ids| && r.ids[i] == id;
      assert r.entries[i] in r.entries && r.entries[i].id == id;
    }
  }

  /** A default scope is readable because the library lists it, and not only as public. */
  lemma DefaultIs(s: Services, r: Scope, id: string)
    requires DefaultScope(LibraryOf(s), Ok(r)) && id in r.ids
    ensures s.page.Some?
    ensures exists e :: e in s.page.value.items && e.id == id && e.decision.source != ORGANIZATION_PUBLIC
  {
    var i :| 0 <= i < |r.ids| && r.ids[i] == id;
    var e := r.entries[i];
    assert e in multiset(r.entries);
    assert e in multiset(Included(s.page.value.items));
    assert e in Included(s.page.value.items);
  }

  /** The caller can read it: by a decision, or because the library lists it. */
  ghost predicate CanRead(s: Services, id: string) {
    || s.decide(id, Read).Allowed?
    || (s.page.Some? && exists e :: e in s.page.value.items && e.id == id && e.decision.source != ORGANIZATION_PUBLIC)
  }

  /** The one agent that the body names, when it does not stand for all knowledge bases. */
  predicate Confines(s: Services, document: Json, agent: string, a: Agents) {
    UniqueOf(Collected(document, Kind.Agent, PLAIN)) == [agent] && s.agent(agent) == Ok(a) && a.mode != "all"
  }

  /** What a retrieval that is not a chat without knowledge is forwarded with: something; all that it asks for; only
      what the caller can read; nothing outside the agent it names. */
  ghost predicate WellScoped(s: Services, document: Json, ids: seq<string>) {
    && ids != []
    && (forall kb :: AsksFor(s, document, kb) && kb != "" ==> Trim(kb) in ids && Trim(kb) != "")
    && (forall id :: id in ids ==> CanRead(s, id))
    && (forall agent, a, id :: Confines(s, document, agent, a) && id in ids ==> InAgent(a, id))
  }

  ghost predicate InAgent(a: Agents, id: string) {
    exists x :: x in a.ids && Trim(x) == id
  }

  lemma ResolvedIsWellScoped(f: Facts, s: Services, document: Json, plan: Plan, r: Scope)
    requires PlanFor(f, s, document) == Ok(plan) && !plan.pure && Resolution(f, s, plan, Ok(r)) && r.ids != []
    ensures WellScoped(s, document, r.ids)
  {
    forall kb | AsksFor(s, document, kb) && kb != ""
      ensures Trim(kb) in r.ids && Trim(kb) != ""
    {
      AskedIsThere(f, s, document, plan, r, kb);
    }
    forall id | id in r.ids
      ensures CanRead(s, id)
    {
      if plan.selection == Default { DefaultIs(s, r, id); } else { ExplicitIs(s, plan.ids, r, id); }
    }
    forall agent, a, id | Confines(s, document, agent, a) && id in r.ids
      ensures InAgent(a, id)
    {
      AgentConfines(f, s, document, plan, r, agent, a, id);
    }
  }

  lemma AskedIsThere(f: Facts, s: Services, document: Json, plan: Plan, r: Scope, kb: string)
    requires PlanFor(f, s, document) == Ok(plan) && !plan.pure && Resolution(f, s, plan, Ok(r))
    requires AsksFor(s, document, kb) && kb != ""
    ensures Trim(kb) in r.ids && Trim(kb) != ""
  {
    RequestedIs(s, document, kb);
    assert plan.ids == Requested(s, document).value && plan.selection == Explicit;
    ExplicitIs(s, plan.ids, r, kb);
  }

  lemma ForwardedIsWellScoped(f: Facts, s: Services, body: Body, scope: Result<Scoped, GateError>, body': Body)
    requires RetrievalScope(f, s, body, scope, body') && scope.Ok? && !PlanFor(f, s, body.value).value.pure
    ensures body' == Parsed(Rewritten(body.value.fields, scope.value.kbs)) && WellScoped(s, body.value, scope.value.kbs)
  {
    var plan := PlanFor(f, s, body.value).value;
    var r :| Resolution(f, s, plan, r) && Forwarded(s, body.value, r, scope, body');
    ResolvedIsWellScoped(f, s, body.value, plan, r.value);
  }

  lemma AgentConfines(f: Facts, s: Services, document: Json, plan: Plan, r: Scope, agent: string, a: Agents, id: string)
    requires PlanFor(f, s, document) == Ok(plan) && !plan.pure && Resolution(f, s, plan, Ok(r))
    requires Confines(s, document, agent, a) && id in r.ids
    ensures InAgent(a, id)
  {
    var requested := Requested(s, document).value;
    ExplicitIs(s, plan.ids, r, id);
    var v :| v in plan.ids && Trim(v) == id;
    if requested == [] { UniqueIs(a.ids); }
    assert v in a.ids;
  }
}
