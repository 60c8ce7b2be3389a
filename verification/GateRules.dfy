/** gate.go: how a request is authorized, and what a retrieval body is rewritten to, as functions of the services'
    answers during the request. */
module GateRules {
  import opened Basics
  import opened AgentScope
  import opened Scopes

  datatype Action = Read | Configure | Remove | OtherAction

  datatype GateError = NotFound | Unclassified | ResolutionFailed | BodyTooLarge | InvalidJson | AgentScopeInvalid
                     | AgentScopeTooLarge | AgentScopeEmpty | AgentScopeUnavailable | AuditUnavailable
                     | SessionUnavailable | AuthorizationInvalid | AuthorizationUnavailable | PublicationUnavailable

  datatype Agents = Agents(mode: string, ids: seq<string>)

  /** What the services answer while one request is handled. Looking up a document, an agent or a session can fail. */
  datatype Services = Services(
    parent: string -> Result<string, GateError>, agent: string -> Result<Agents, GateError>,
    session: string -> Option<GateError>, listed: string -> bool, recorded: string -> bool,
    decide: (string, Action) -> Access, role: string -> Result<string, Access>,
    page: Option<Page>, unpublished: string -> bool, audited: bool)

  datatype Body = NoJson | TooLong | Blank | Broken | Parsed(value: Json)

  /** What the method, the path and the headers of a request say. `pathKbs` holds the lookups the path needs. */
  datatype Facts = Facts(
    derivedTask: bool, action: Option<Action>, pathKbs: Result<seq<string>, GateError>, pathSessions: seq<string>,
    retrieval: bool, conversation: bool, messageSearch: bool, generic: Generic, query: Scoped,
    agentMutation: bool, download: bool, limitedEdit: bool, correlated: bool, principal: bool)

  datatype Scoped = Scoped(kbs: seq<string>, documents: seq<string>, agents: seq<string>, sessions: seq<string>)

  const PLAIN := Generic(false, false)

  // ---- Lists ----

  /** The values in order of first occurrence, without repetition and without "". */
  function UniqueOf(values: seq<string>): (r: seq<string>)
  {
    if values == [] then []
    else
      var front, v := UniqueOf(values[..|values| - 1]), values[|values| - 1];
      if v == "" || v in front then front else front + [v]
  }

  lemma {:induction false} UniqueIs(values: seq<string>)
    ensures Distinct(UniqueOf(values))
    ensures forall v :: v in UniqueOf(values) <==> v != "" && v in values
  {
    if values != [] {
      var front, v := values[..|values| - 1], values[|values| - 1];
      UniqueIs(front);
      assert values == front + [v];
    }
  }

  // ---- Lookups, one after the other ----

  type Look = string -> Result<seq<string>, GateError>

  /** What looking each id up in turn finds, or the first error. */
  function Gather(ids: seq<string>, look: Look): Result<seq<string>, GateError> {
    if ids == [] then Ok([])
    else
      var front := Gather(ids[..|ids| - 1], look);
      if front.Err? then front
      else
        var found := look(ids[|ids| - 1]);
        if found.Err? then found else Ok(front.value + found.value)
  }

  /** An error ends it. */
  lemma {:induction false} GatherFails(ids: seq<string>, look: Look, i: nat)
    requires i <= |ids| && Gather(ids[..i], look).Err?
    ensures Gather(ids, look) == Gather(ids[..i], look)
    decreases |ids| - i
  {
    if i < |ids| {
      assert ids[..i + 1][..i] == ids[..i];
      GatherFails(ids, look, i + 1);
    } else {
      assert ids[..i] == ids;
    }
  }

  /** Without an error every lookup succeeded and all that was found is there. */
  lemma {:induction false} GatherHas(ids: seq<string>, look: Look, id: string)
    requires Gather(ids, look).Ok? && id in ids
    ensures look(id).Ok? && forall x :: x in look(id).value ==> x in Gather(ids, look).value
    decreases |ids|
  {
    var front := ids[..|ids| - 1];
    assert ids == front + [ids[|ids| - 1]];
    if id in front { GatherHas(front, look, id); }
  }

  function ParentOf(s: Services): Look {
    id => match s.parent(id) case Ok(kb) => Ok([kb]) case Err(e) => Err(e)
  }

  function OfAgent(s: Services): Look {
    id => match s.agent(id) case Ok(agent) => Ok(agent.ids) case Err(e) => Err(e)
  }

  function OfSession(s: Services, sessions: Sessions): Look {
    id => if s.session(id).Some? then Err(s.session(id).value)
          else if !s.listed(id) then Err(SessionUnavailable) else Ok(Stored(sessions, id))
  }

  // ---- What sessions remember ----

  type Sessions = map<string, seq<string>>

  function Stored(sessions: Sessions, id: string): seq<string> {
    if id in sessions then sessions[id] else []
  }

  /** RecordKnowledgeBases adds to what is stored. */
  function Remember(sessions: Sessions, id: string, kbs: seq<string>): Sessions {
    sessions[id := UniqueOf(Stored(sessions, id) + kbs)]
  }

  /** One recording: it is a step of its own. */
  datatype Recording = Recording(session: string, kbs: seq<string>)

  function Recorded(sessions: Sessions, log: seq<Recording>): Sessions {
    if log == [] then sessions
    else Remember(Recorded(sessions, log[..|log| - 1]), log[|log| - 1].session, log[|log| - 1].kbs)
  }

  /** How many ids come before the first one that is not good. */
  function Leading(ids: seq<string>, good: string -> bool): (n: nat)
    ensures n <= |ids| && (forall i :: 0 <= i < n ==> good(ids[i])) && (n < |ids| ==> !good(ids[n]))
  {
    if ids == [] || !good(ids[0]) then 0 else 1 + Leading(ids[1..], good)
  }

  /** The recordings for these sessions, up to the first that fails. */
  function RecordingsFor(s: Services, ids: seq<string>, kbs: seq<string>): seq<Recording> {
    var n := Leading(ids, s.recorded);
    seq(n, i requires 0 <= i < n => Recording(ids[i], kbs))
  }

  // ---- Authorization of one knowledge base ----

  function ActionOn(f: Facts): Action
    requires f.action.Some?
  {
    if f.agentMutation then Read else f.action.value
  }

  function OfAccess(a: Access): GateError
    requires !a.Allowed?
  {
    match a
    case Refused => NotFound
    case Missing => NotFound
    case Malformed => AuthorizationInvalid
    case Failing => AuthorizationUnavailable
  }

  /** authorizeKBAction: `None` when the caller may. An original is not handed out to subscribers and the public; an
      editor may change name and description. */
  function Refusal(f: Facts, s: Services, kb: string): Option<GateError>
    requires f.action.Some?
  {
    var a := s.decide(kb, ActionOn(f));
    if a.Allowed? then
      if f.download && (a.decision.source == "subscription" || a.decision.source == ORGANIZATION_PUBLIC)
      then Some(NotFound)
      else None
    else if a.Refused? && ActionOn(f).Configure? && f.limitedEdit then
      match s.role(kb)
      case Ok(role) => if role == "editor" then None else Some(NotFound)
      case Err(e) => Some(if e.Allowed? then AuthorizationUnavailable else OfAccess(e))
    else Some(OfAccess(a))
  }

  /** The decision service allows `action` on `kb`, and not only to a subscriber or the public when the request
      downloads an original. */
  predicate Granted(f: Facts, s: Services, kb: string, action: Action) {
    var a := s.decide(kb, action);
    && a.Allowed?
    && (f.download ==> a.decision.source != "subscription" && a.decision.source != "organization_public")
  }

  /** An editor changes name and description, which takes the right to configure. */
  predicate EditorMay(f: Facts, s: Services, kb: string) {
    && f.action == Some(Configure) && !f.agentMutation && f.limitedEdit
    && s.decide(kb, Configure).Refused? && s.role(kb) == Ok("editor")
  }

  /** The caller may use `kb` for this request. To bind it to an agent is to read it. */
  predicate May(f: Facts, s: Services, kb: string) {
    || (f.agentMutation && Granted(f, s, kb, Read))
    || (!f.agentMutation && f.action.Some? && Granted(f, s, kb, f.action.value))
    || EditorMay(f, s, kb)
  }

  /** There is no other way through, and each of these is one. */
  lemma MayExactly(f: Facts, s: Services, kb: string)
    requires f.action.Some?
    ensures Refusal(f, s, kb).None? <==> May(f, s, kb)
  {
  }

  /** A knowledge base that there is not and one that is refused look the same; otherwise the error says what failed. */
  lemma RefusalIs(f: Facts, s: Services, kb: string, action: Action)
    requires f.action.Some? && action == (if f.agentMutation then Read else f.action.value) && !May(f, s, kb)
    ensures s.decide(kb, action).Allowed? || s.decide(kb, action).Missing? ==> Refusal(f, s, kb) == Some(NotFound)
    ensures s.decide(kb, action).Refused? && !(action == Configure && f.limitedEdit && s.role(kb).Err?) ==>
              Refusal(f, s, kb) == Some(NotFound)
    ensures s.decide(kb, action).Malformed? ==> Refusal(f, s, kb) == Some(AuthorizationInvalid)
    ensures s.decide(kb, action).Failing? ==> Refusal(f, s, kb) == Some(AuthorizationUnavailable)
  {
  }

  function Allowance(f: Facts, s: Services): Look
    requires f.action.Some?
  {
    kb => if Refusal(f, s, kb).Some? then Err(Refusal(f, s, kb).value) else Ok([kb])
  }

  predicate AllUnpublished(s: Services, kbs: seq<string>) {
    forall kb :: kb in kbs ==> s.unpublished(kb)
  }

  // ---- The whole request, once its scope is known ----

  function SessionIds(f: Facts, scope: Scoped): seq<string> {
    UniqueOf(f.pathSessions + scope.sessions)
  }

  /** Every knowledge base the request touches or its sessions remember, or the first error. */
  function Touched(f: Facts, s: Services, scope: Scoped, sessions: Sessions): Result<seq<string>, GateError>
    requires f.pathKbs.Ok?
  {
    var parents := Gather(UniqueOf(scope.documents), ParentOf(s));
    if parents.Err? then parents
    else
      var agents := Gather(UniqueOf(scope.agents), OfAgent(s));
      if agents.Err? then agents
      else
        var stored := Gather(SessionIds(f, scope), OfSession(s, sessions));
        if stored.Err? then stored
        else Ok(UniqueOf(f.pathKbs.value + scope.kbs + parents.value + agents.value + stored.value))
  }

  /** The knowledge bases the request is authorized for, all of them, or the error that stops it. */
  function Checked(f: Facts, s: Services, scope: Scoped, sessions: Sessions): Result<seq<string>, GateError>
    requires f.pathKbs.Ok? && f.action.Some?
  {
    if f.messageSearch && scope.sessions == [] then Err(NotFound)
    else
      var touched := Touched(f, s, scope, sessions);
      if touched.Err? then touched
      else if Gather(touched.value, Allowance(f, s)).Err? then Gather(touched.value, Allowance(f, s))
      else if f.action == Some(Remove) && (!f.correlated || !AllUnpublished(s, touched.value))
      then Err(PublicationUnavailable)
      else touched
  }

  /** The outcome, `seen` being what the sessions held when they were read. */
  predicate Concluded(f: Facts, s: Services, scope: Scoped, seen: Sessions, r: Result<seq<string>, GateError>)
    requires f.pathKbs.Ok? && f.action.Some?
  {
    match Checked(f, s, scope, seen)
    case Err(e) => r == Err(e)
    case Ok(kbs) =>
      var ids := SessionIds(f, scope);
      r == if kbs == [] || Leading(ids, s.recorded) == |ids| then Ok(kbs) else Err(SessionUnavailable)
  }

  /** What is recorded for it, in order. */
  function RecordsOf(f: Facts, s: Services, scope: Scoped, seen: Sessions): seq<Recording>
    requires f.pathKbs.Ok? && f.action.Some?
  {
    match Checked(f, s, scope, seen)
    case Err(_) => []
    case Ok(kbs) => if kbs == [] then [] else RecordingsFor(s, SessionIds(f, scope), kbs)
  }

  // ---- The scope of a plain request ----

  function Append(a: Scoped, value: Json, g: Generic): Scoped {
    Scoped(a.kbs + Collected(value, Kind.KnowledgeBase, g), a.documents + Collected(value, Kind.Document, g),
           a.agents + Collected(value, Kind.Agent, g), a.sessions + Collected(value, Kind.Session, g))
  }

  function PlainScope(f: Facts, body: Body): Result<Scoped, GateError> {
    match body
    case NoJson => Ok(f.query)
    case TooLong => Err(BodyTooLarge)
    case Blank => Ok(f.query)
    case Broken => Err(InvalidJson)
    case Parsed(value) => Ok(Append(f.query, value, f.generic))
  }

  // ---- The scope of a retrieval request ----

  function Without(fields: seq<Field>, key: string): seq<Field> {
    if fields == [] then []
    else Without(fields[..|fields| - 1], key) + if fields[|fields| - 1].key == key then [] else [fields[|fields| - 1]]
  }

  function With(fields: seq<Field>, key: string, value: Json): seq<Field> {
    Without(fields, key) + [Field(key, value)]
  }

  function TextsOf(ids: seq<string>): Json {
    List(seq(|ids|, i requires 0 <= i < |ids| => Text(ids[i])))
  }

  /** The body that is forwarded for a resolved scope. */
  function Rewritten(fields: seq<Field>, ids: seq<string>): Json {
    var listed := With(fields, "knowledge_base_ids", TextsOf(ids));
    var web := With(Without(listed, "knowledge_base_id"), "web_search_enabled", Flag(false));
    Object(With(web, "mcp_service_ids", List([])))
  }

  /** The body that is forwarded for a chat without knowledge. */
  function PureChat(fields: seq<Field>): Json {
    var f1 := With(Without(fields, "knowledge_base_id"), "knowledge_base_ids", List([]));
    var f2 := With(With(f1, "knowledge_ids", List([])), "tag_ids", List([]));
    var f3 := With(With(f2, "mentioned_items", List([])), "web_search_enabled", Flag(false));
    Object(With(f3, "mcp_service_ids", List([])))
  }

  datatype Plan = Plan(selection: Selection, ids: seq<string>, pure: bool)

  predicate Subset(requested: seq<string>, allowed: seq<string>) {
    forall id :: id in requested ==> id in allowed
  }

  /** Which scope to ask for, given what the body requests and the agents it names. */
  function PlanOf(f: Facts, s: Services, requested: seq<string>, agents: seq<string>): Result<Plan, GateError> {
    if |agents| > 1 then Err(AgentScopeInvalid)
    else if agents == [] then Ok(Plan(if requested == [] then Default else Explicit, requested, false))
    else
      var agent := s.agent(agents[0]);
      if agent.Err? then Err(agent.error)
      else if requested == [] then
        if agent.value.mode == "all" then Ok(Plan(Default, [], false))
        else if agent.value.mode == "none" then Ok(Plan(Explicit, [], f.conversation))
        else Ok(Plan(Explicit, UniqueOf(agent.value.ids), false))
      else if agent.value.mode != "all" && !Subset(requested, agent.value.ids) then Err(NotFound)
      else Ok(Plan(Explicit, requested, false))
  }

  function LibraryOf(s: Services): Library {
    Library(id => s.decide(id, Read), s.page)
  }

  ghost predicate Resolution(f: Facts, s: Services, plan: Plan, r: Result<Scope, ScopeError>) {
    if !f.principal then r == Err(ScopeError.Invalid)
    else if plan.selection == Default then DefaultScope(LibraryOf(s), r)
    else ExplicitScope(LibraryOf(s), plan.ids, r)
  }

  function OfScopeError(e: ScopeError): GateError {
    match e
    case Denied => NotFound
    case Invalid => AgentScopeInvalid
    case TooLarge => AgentScopeTooLarge
    case Unavailable => AgentScopeUnavailable
  }

  /** What the body asks for: the knowledge bases it names and those of the documents it names. */
  function Requested(s: Services, document: Json): Result<seq<string>, GateError> {
    var parents := Gather(UniqueOf(Collected(document, Kind.Document, PLAIN)), ParentOf(s));
    if parents.Err? then parents
    else Ok(UniqueOf(Collected(document, Kind.KnowledgeBase, PLAIN) + parents.value))
  }

  function PlanFor(f: Facts, s: Services, document: Json): Result<Plan, GateError> {
    var requested := Requested(s, document);
    if requested.Err? then Err(requested.error)
    else PlanOf(f, s, requested.value, UniqueOf(Collected(document, Kind.Agent, PLAIN)))
  }

  /** The scope of a planned retrieval and the body it is forwarded with; without an audit record nothing is. */
  ghost predicate Planned(f: Facts, s: Services, document: Json, plan: Plan, scope: Result<Scoped, GateError>,
                          body: Body)
    requires document.Object?
  {
    var sessions := Collected(document, Kind.Session, PLAIN);
    if plan.pure then
      if s.audited then scope == Ok(Scoped([], [], [], sessions)) && body == Parsed(PureChat(document.fields))
      else scope == Err(AuditUnavailable) && body == Parsed(document)
    else
      exists r :: Resolution(f, s, plan, r) && Forwarded(s, document, r, scope, body)
  }

  predicate Forwarded(s: Services, document: Json, r: Result<Scope, ScopeError>, scope: Result<Scoped, GateError>,
                      body: Body)
    requires document.Object?
  {
    match r
    case Err(e) => scope == Err(OfScopeError(e)) && body == Parsed(document)
    case Ok(resolved) =>
      if resolved.ids == [] then scope == Err(AgentScopeEmpty) && body == Parsed(document)
      else if s.audited then
        && scope == Ok(Scoped(resolved.ids, [], [], Collected(document, Kind.Session, PLAIN)))
        && body == Parsed(Rewritten(document.fields, resolved.ids))
      else scope == Err(AuditUnavailable) && body == Parsed(document)
  }

  /** resolveAuthorizedRetrievalScope. */
  ghost predicate RetrievalScope(f: Facts, s: Services, body: Body, scope: Result<Scoped, GateError>, body': Body) {
    if body.TooLong? then scope == Err(BodyTooLarge) && body' == body
    else if !body.Parsed? || !body.value.Object? then scope == Err(InvalidJson) && body' == body
    else
      match PlanFor(f, s, body.value)
      case Err(e) => scope == Err(e) && body' == body
      case Ok(plan) => Planned(f, s, body.value, plan, scope, body')
  }

  // ---- The whole request ----

  ghost predicate ScopeOf(f: Facts, s: Services, body: Body, scope: Result<Scoped, GateError>, body': Body) {
    if f.retrieval then RetrievalScope(f, s, body, scope, body') else scope == PlainScope(f, body) && body' == body
  }

  predicate Ends(f: Facts, s: Services, scope: Result<Scoped, GateError>, seen: Sessions,
                 r: Result<seq<string>, GateError>, records: seq<Recording>)
    requires f.pathKbs.Ok? && f.action.Some?
  {
    if scope.Err? then r == Err(scope.error) && records == []
    else Concluded(f, s, scope.value, seen, r) && records == RecordsOf(f, s, scope.value, seen)
  }

  /** AuthorizeRequest: the outcome `r`, the body as forwarded, and what is recorded. */
  ghost predicate Answered(f: Facts, s: Services, body: Body, seen: Sessions, r: Result<seq<string>, GateError>,
                           body': Body, records: seq<Recording>) {
    if f.derivedTask then r == Err(NotFound) && body' == body && records == []
    else if f.action.None? then r == Err(Unclassified) && body' == body && records == []
    else if f.pathKbs.Err? then r == Err(f.pathKbs.error) && body' == body && records == []
    else exists scope :: ScopeOf(f, s, body, scope, body') && Ends(f, s, scope, seen, r, records)
  }
}
