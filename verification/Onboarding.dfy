/** onboarding.go Service.Onboarding: how an employee becomes a member of the default workspace, under a lock
    per employee, against a service that may execute a request late and an Owner who may act at any time. */
module Onboarding {
  import opened Basics
  import IntentLog
  import Traces

  /** What a record or a call can report. */
  datatype State = Pending | Joining | Ready | Removed | Broken

  /** The error codes, and `Nothing` for none. */
  datatype Code = Nothing | JoinFailed | ResultUnknown | KeyUnavailable | IdentityConflict

  /** The native roles; `NoRole` is the absence of a membership. */
  datatype Role = NoRole | Viewer | Contributor | Admin | Proprietor

  /** The stored progress of one employee; `completed` stands for CompletedAt being set. */
  datatype Record = Record(user: string, tenant: nat, state: State, unknown: bool, completed: bool, error: Code)

  /** CurrentPrincipal: the user and the role in the default workspace. */
  datatype Principal = Principal(user: string, role: Role) | Unreachable

  /** The outcome of the request that adds the member; `status` is the upstream status of a failure. */
  datatype Answer = Accepted | Failed(status: int)

  datatype Status = Status(state: State, error: Code, retryable: bool)

  datatype Pc = Off | Locked | Marking | Posting | Awaiting | Rereading | Completing | Failing

  /** `o` and `seen` are the lock holder's copies of the record and of the role it read last;
      `status` is what the call reports. */
  datatype Client = Client(stored: Option<Record>, o: Record, seen: Role, join: bool, secret: bool, pc: Pc,
                           status: Status)

  /** What is sent to the upstream service. */
  datatype Request = ReadPrincipal | AddMember(role: Role)

  /** `Lock` names whether the call may join and whether the member key can be read. */
  datatype Event = Lock(join: bool, secret: bool) | Die | Observe(p: Principal) | Save | Post | Got(answer: Answer)

  const PENDING := Status(Pending, Nothing, true)
  const READY := Status(Ready, Nothing, false)
  const NOBODY := Record("", 0, Pending, false, false, Nothing)

  /** The role the code asks for. */
  const DEFAULT_ROLE := Viewer

  predicate Definitive(status: int) {
    status in {400, 401, 403, 404, 429}
  }

  predicate AnyDefinitive(statuses: set<int>) {
    exists status :: status in statuses && Definitive(status)
  }

  function NewRecord(user: string, tenant: nat): Record {
    Record(user, tenant, Pending, false, false, Nothing)
  }

  function Completed(o: Record): Record {
    o.(completed := true, state := Ready, unknown := false, error := Nothing)
  }

  function Marked(o: Record): Record {
    o.(state := Joining, unknown := true, error := Nothing)
  }

  function Unjoined(o: Record): Record {
    o.(state := Broken, error := if o.unknown then ResultUnknown else JoinFailed)
  }

  /** SaveOnboarding never clears a completion. */
  function Stored(before: Option<Record>, o: Record): Option<Record> {
    Some(o.(completed := o.completed || (before.Some? && before.value.completed)))
  }

  function Finish(c: Client, status: Status): Client {
    c.(pc := Off, status := status)
  }

  /** Lines 69-128: what follows from the record and the membership just read. */
  function Decide(tenant: nat, c: Client, user: string, role: Role): Client {
    var o := if c.stored.Some? then c.stored.value else NewRecord(user, tenant);
    var d := c.(o := o, seen := role);
    if o.user != user || o.tenant != tenant then Finish(d, Status(Pending, IdentityConflict, true))
    else if o.completed then Finish(d, Status(if role == NoRole then Removed else Ready, Nothing, false))
    else if role != NoRole then
      if d.join then d.(o := Completed(o), pc := Completing) else Finish(d, PENDING)
    else if o.unknown then Finish(d, Status(Broken, ResultUnknown, false))
    else if !d.join then Finish(d, Status(o.state, o.error, true))
    else if !d.secret then Finish(d, Status(Broken, KeyUnavailable, true))
    else d.(o := Marked(o), pc := Marking)
  }

  function Next(tenant: nat, c: Client, e: Event): Option<Client> {
    match e
    case Die => Some(c.(pc := Off))
    case Lock(join, secret) =>
      if c.pc == Off then Some(Client(c.stored, NOBODY, NoRole, join, secret, Locked, PENDING)) else None
    case Post => if c.pc == Posting then Some(c.(pc := Awaiting)) else None
    case Observe(p) =>
      if c.pc == Locked then
        Some(if p.Unreachable? then c.(pc := Off) else Decide(tenant, c, p.user, p.role))
      else if c.pc == Rereading then
        Some(if p.Principal? && p.user == c.o.user && p.role != NoRole
             then c.(o := Completed(c.o), seen := p.role, pc := Completing)
             else c.(o := Unjoined(c.o), pc := Failing))
      else None
    case Got(answer) =>
      if c.pc == Awaiting then
        var cleared := answer.Failed? && Definitive(answer.status);
        Some(c.(o := if cleared then c.o.(unknown := false) else c.o, pc := Rereading))
      else None
    case Save =>
      var saved := c.(stored := Stored(c.stored, c.o));
      (match c.pc
       case Marking => Some(saved.(pc := Posting))
       case Completing => Some(Finish(saved, READY))
       case Failing => Some(Finish(saved, Status(c.o.state, c.o.error, !c.o.unknown)))
       case _ => None)
  }

  /** The step sequence of one tenant, as a value. */
  function Sequence(tenant: nat): (Client, Event) -> Option<Client> {
    (c, e) => Next(tenant, c, e)
  }

  // ---- The service and its Owner ----

  /** A request to add the employee: the role it asks for, and the role its sender had read. */
  datatype Add = Add(role: Role, read: Role)

  /** `role`: the employee's role in the workspace. The requests ever sent are numbered from 0 to `sent`; those on the
      `wire` may still be executed, the `accepted` ones were. */
  datatype World = World(client: Client, role: Role, wire: map<nat, Add>, sent: nat, accepted: set<nat>)

  datatype Setting = Setting(tenant: nat, lies: set<int>)

  /** A refusal of a request on the wire that its sender is told of is part of `Do`: it takes effect with the answer. */
  datatype Label =
    | Do(event: Event, discarded: bool)
    | Execute(n: nat)          // a request is executed: accepted when there is no membership, otherwise refused
    | Lose(n: nat)             // a request is lost
    | Owner(role: Role)        // an Owner adds, changes or (`NoRole`) removes the member

  const CREATION :=
    World(Client(None, NOBODY, NoRole, false, false, Off, PENDING), NoRole, map[], 0, {})

  /** The request of the call that waits for an answer is the last one sent. */
  predicate Honest(s: Setting, w: World, answer: Answer, discarded: bool) {
    var rejected := answer.Failed? && Definitive(answer.status);
    && (answer.Accepted? ==> w.sent > 0 && w.sent - 1 in w.accepted)
    && (discarded ==> rejected && w.sent > 0 && w.sent - 1 in w.wire)
    && (rejected && !discarded ==> answer.status in s.lies)
  }

  /** What the service and the Owner allow at a step of the client, and what it does to them. */
  function Serve(s: Setting, w: World, e: Event, discarded: bool): Option<World> {
    match e
    case Observe(p) => if p.Principal? && p.role != w.role then None else Some(w)
    case Post => Some(w.(wire := w.wire[w.sent := Add(DEFAULT_ROLE, w.client.seen)], sent := w.sent + 1))
    case Got(answer) =>
      if !Honest(s, w, answer, discarded) then None
      else if discarded then Some(w.(wire := w.wire - {w.sent - 1})) else Some(w)
    case _ => Some(w)
  }

  function Step(s: Setting, w: World, l: Label): Option<World> {
    match l
    case Owner(role) => Some(w.(role := role))
    case Lose(n) => if n in w.wire then Some(w.(wire := w.wire - {n})) else None
    case Execute(n) =>
      if n !in w.wire then None
      else if w.role == NoRole then
        Some(w.(role := w.wire[n].role, wire := w.wire - {n}, accepted := w.accepted + {n}))
      else Some(w.(wire := w.wire - {n}))
    case Do(e, discarded) =>
      var c, v := Next(s.tenant, w.client, e), Serve(s, w, e, discarded);
      if c.None? || v.None? then None else Some(v.value.(client := c.value))
  }

  function Run(s: Setting, w: World, labels: seq<Label>): Option<World>
    decreases |labels|
  {
    if labels == [] then Some(w)
    else
      var next := Step(s, w, labels[0]);
      if next.None? then None else Run(s, next.value, labels[1..])
  }

  // ---- What holds at each point of the code ----

  /** While a call holds a record it means to change, the stored one is not completed; a call that is about to add the
      employee has read that there is no membership. */
  predicate PcOk(c: Client) {
    var uncompleted := c.stored.None? || !c.stored.value.completed;
    match c.pc
    case Off => true
    case Locked => true
    case Marking => uncompleted && c.o.unknown && !c.o.completed && c.seen == NoRole
    case Posting => c.stored == Some(c.o) && c.o.unknown && !c.o.completed && c.seen == NoRole
    case Awaiting => c.stored == Some(c.o) && c.o.unknown && !c.o.completed && c.seen == NoRole
    case Rereading => uncompleted && !c.o.completed
    case Completing => uncompleted && c.o.completed && c.seen != NoRole
    case Failing => uncompleted && !c.o.completed
  }

  lemma PcOkNext(tenant: nat, c: Client, e: Event)
    requires PcOk(c) && Next(tenant, c, e).Some?
    ensures PcOk(Next(tenant, c, e).value)
  {
  }

  lemma PcOkStep(s: Setting, w: World, l: Label)
    requires PcOk(w.client) && Step(s, w, l).Some?
    ensures PcOk(Step(s, w, l).value.client)
  {
    if l.Do? { PcOkNext(s.tenant, w.client, l.event); }
  }

  /** The requests are numbered in the order they were sent, and each is executed at most once. */
  ghost predicate Numbered(w: World) {
    && (forall n :: n in w.wire ==> n < w.sent && n !in w.accepted)
    && (forall n :: n in w.accepted ==> n < w.sent)
  }

  lemma NumberedStep(s: Setting, w: World, l: Label)
    requires Numbered(w) && Step(s, w, l).Some?
    ensures Numbered(Step(s, w, l).value)
  {
  }

  // ---- Refinement ----

  function MarkOf(o: Record): IntentLog.Mark {
    if o.completed then IntentLog.Settled else if o.unknown then IntentLog.Unknown else IntentLog.Clear
  }

  function StoredMark(c: Client): IntentLog.Mark {
    if c.stored.None? then IntentLog.Clear else MarkOf(c.stored.value)
  }

  function HolderOf(c: Client): IntentLog.Holder {
    if c.pc == Off || c.pc == Locked then IntentLog.Nobody
    else IntentLog.Holder(MarkOf(c.o),
                          if c.pc == Marking || c.pc == Posting then IntentLog.Armed
                          else if c.pc == Awaiting then IntentLog.Waiting else IntentLog.Ready)
  }

  function LogOf(c: Client, flying: nat, landed: nat): IntentLog.Log {
    IntentLog.Log(StoredMark(c), HolderOf(c), flying, landed)
  }

  function View(w: World): IntentLog.Log {
    LogOf(w.client, |w.wire|, |w.accepted|)
  }

  function FaultOf(s: Setting): IntentLog.Fault {
    IntentLog.Fault(AnyDefinitive(s.lies), false)
  }

  function Moves(s: Setting, w: World, l: Label): seq<IntentLog.Move> {
    match l
    case Owner(_) => [IntentLog.Skip]
    case Lose(_) => [IntentLog.Drop]
    case Execute(_) => if w.role == NoRole then [IntentLog.Land] else [IntentLog.Drop]
    case Do(e, discarded) => ClientMoves(s, w.client, e, discarded)
  }

  function ClientMoves(s: Setting, c: Client, e: Event, discarded: bool): seq<IntentLog.Move> {
    var next := Next(s.tenant, c, e);
    if next.None? then [IntentLog.Skip]
    else
      match e
      case Die => [IntentLog.Crash]
      case Lock(_, _) => [IntentLog.Skip]
      case Post => [IntentLog.Send]
      case Save => if c.pc == Marking then [IntentLog.Save] else [IntentLog.Save, IntentLog.Crash]
      case Observe(_) =>
        if c.pc == Rereading then
          if next.value.pc == Completing then [IntentLog.Settle] else [IntentLog.Skip]
        else if next.value.pc == Marking then [IntentLog.Load, IntentLog.Arm]
        else if next.value.pc == Completing then [IntentLog.Load, IntentLog.Settle]
        else [IntentLog.Skip]
      case Got(answer) =>
        if !(answer.Failed? && Definitive(answer.status)) then [IntentLog.GiveUp]
        else if discarded then [IntentLog.Refuse] else [IntentLog.Lie]
  }

  lemma WithoutOne<K, V>(m: map<K, V>, k: K)
    requires k in m
    ensures |m - {k}| == |m| - 1
  {
    assert (m - {k}).Keys == m.Keys - {k};
  }

  /** A label leads the log where the world goes. */
  ghost predicate Refined(s: Setting, w: World, l: Label)
    requires Step(s, w, l).Some?
  {
    IntentLog.Leads(FaultOf(s), View(w), Moves(s, w, l), View(Step(s, w, l).value))
  }

  /** Every step of the world is a move of the intent log, or two. */
  lemma Refines(s: Setting, w: World, l: Label)
    requires PcOk(w.client) && Numbered(w) && Step(s, w, l).Some?
    ensures Refined(s, w, l)
  {
    if l.Do? {
      RefinesDo(s, w, l.event, l.discarded);
    } else {
      RefinesOutside(s, w, l);
    }
  }

  lemma RefinesOutside(s: Setting, w: World, l: Label)
    requires Numbered(w) && Step(s, w, l).Some? && !l.Do?
    ensures Refined(s, w, l)
  {
    match l
    case Owner(role) => RefinesOwner(s, w, role);
    case Lose(n) => RefinesLose(s, w, n);
    case Execute(n) => RefinesExecute(s, w, n);
  }

  lemma RefinesOwner(s: Setting, w: World, role: Role)
    ensures Refined(s, w, Owner(role))
  {
    assert View(w.(role := role)) == View(w);
  }

  lemma RefinesLose(s: Setting, w: World, n: nat)
    requires n in w.wire
    ensures Refined(s, w, Lose(n))
  {
    WithoutOne(w.wire, n);
    assert View(w.(wire := w.wire - {n})) == View(w).(flying := |w.wire| - 1);
  }

  lemma RefinesExecute(s: Setting, w: World, n: nat)
    requires Numbered(w) && n in w.wire
    ensures Refined(s, w, Execute(n))
  {
    WithoutOne(w.wire, n);
    var v := Step(s, w, Execute(n)).value;
    if w.role == NoRole {
      assert |w.accepted + {n}| == |w.accepted| + 1;
      assert View(v) == View(w).(flying := |w.wire| - 1, landed := |w.accepted| + 1);
    } else {
      assert View(v) == View(w).(flying := |w.wire| - 1);
    }
  }

  lemma RefinesDo(s: Setting, w: World, e: Event, discarded: bool)
    requires PcOk(w.client) && Numbered(w) && Step(s, w, Do(e, discarded)).Some?
    ensures Refined(s, w, Do(e, discarded))
  {
    match e
    case Got(answer) => RefinesGot(s, w, answer, discarded);
    case Post => RefinesPost(s, w, discarded);
    case Observe(p) => RefinesObserve(s, w, p, discarded);
    case _ => RefinesRest(s, w, e, discarded);
  }

  lemma RefinesPost(s: Setting, w: World, discarded: bool)
    requires PcOk(w.client) && Numbered(w) && Step(s, w, Do(Post, discarded)).Some?
    ensures Refined(s, w, Do(Post, discarded))
  {
    assert w.sent !in w.wire;
  }

  lemma RefinesObserve(s: Setting, w: World, p: Principal, discarded: bool)
    requires PcOk(w.client) && Step(s, w, Do(Observe(p), discarded)).Some?
    ensures Refined(s, w, Do(Observe(p), discarded))
  {
    var v := Step(s, w, Do(Observe(p), discarded)).value;
    assert v == w.(client := v.client);
    if w.client.pc == Locked {
      ReadLeads(s, w.client, p, |w.wire|, |w.accepted|);
    } else {
      RereadLeads(s, w.client, p, |w.wire|, |w.accepted|);
    }
  }

  lemma ReadLeads(s: Setting, c: Client, p: Principal, flying: nat, landed: nat)
    requires c.pc == Locked
    ensures IntentLog.Leads(FaultOf(s), LogOf(c, flying, landed), ClientMoves(s, c, Observe(p), false),
                            LogOf(Next(s.tenant, c, Observe(p)).value, flying, landed))
  {
  }

  lemma RereadLeads(s: Setting, c: Client, p: Principal, flying: nat, landed: nat)
    requires PcOk(c) && c.pc == Rereading
    ensures IntentLog.Leads(FaultOf(s), LogOf(c, flying, landed), ClientMoves(s, c, Observe(p), false),
                            LogOf(Next(s.tenant, c, Observe(p)).value, flying, landed))
  {
  }

  lemma RefinesRest(s: Setting, w: World, e: Event, discarded: bool)
    requires PcOk(w.client) && Step(s, w, Do(e, discarded)).Some? && !e.Post? && !e.Got? && !e.Observe?
    ensures Refined(s, w, Do(e, discarded))
  {
  }

  lemma RefinesGot(s: Setting, w: World, answer: Answer, discarded: bool)
    requires PcOk(w.client) && Step(s, w, Do(Got(answer), discarded)).Some?
    ensures Refined(s, w, Do(Got(answer), discarded))
  {
    if discarded { WithoutOne(w.wire, w.sent - 1); }
    if answer.Failed? {
      assert answer.status in s.lies && Definitive(answer.status) ==> AnyDefinitive(s.lies);
    }
  }

  ghost predicate Inv(w: World) {
    PcOk(w.client) && Numbered(w) && IntentLog.Safe(View(w))
  }

  lemma SafeNext(s: Setting, w: World, l: Label)
    requires !AnyDefinitive(s.lies) && Inv(w) && Step(s, w, l).Some?
    ensures IntentLog.Safe(View(Step(s, w, l).value))
  {
    Refines(s, w, l);
    IntentLog.SafeLeads(FaultOf(s), View(w), Moves(s, w, l), View(Step(s, w, l).value));
  }

  lemma InvStep(s: Setting, w: World, l: Label)
    requires !AnyDefinitive(s.lies) && Inv(w) && Step(s, w, l).Some?
    ensures Inv(Step(s, w, l).value)
  {
    SafeNext(s, w, l);
    NumberedStep(s, w, l);
    PcOkStep(s, w, l);
  }

  lemma {:induction false} InvReaches(s: Setting, w: World, labels: seq<Label>, v: World)
    requires !AnyDefinitive(s.lies) && Inv(w) && Run(s, w, labels) == Some(v)
    ensures Inv(v)
    decreases |labels|
  {
    if labels == [] {
      assert v == w;
    } else {
      var next := Step(s, w, labels[0]).value;
      InvStep(s, w, labels[0]);
      InvReaches(s, next, labels[1..], v);
    }
  }

  lemma InvRun(s: Setting, w: World, labels: seq<Label>)
    requires !AnyDefinitive(s.lies) && Inv(w) && Run(s, w, labels).Some?
    ensures Inv(Run(s, w, labels).value)
  {
    InvReaches(s, w, labels, Run(s, w, labels).value);
  }

  // ---- At most one add is accepted ----

  ghost predicate AtMostOneAdd(s: Setting) {
    forall labels :: Run(s, CREATION, labels).Some? ==> |Run(s, CREATION, labels).value.accepted| <= 1
  }

  lemma Prepend(s: Setting, w: World, l: Label, rest: seq<Label>)
    ensures Run(s, w, [l] + rest)
         == (if Step(s, w, l).None? then None else Run(s, Step(s, w, l).value, rest))
  {
    assert ([l] + rest)[1..] == rest;
  }

  /** One label that leads from `w` to `v`. */
  lemma Then(s: Setting, w: World, l: Label, v: World, rest: seq<Label>)
    requires Step(s, w, l) == Some(v)
    ensures Run(s, w, [l] + rest) == Run(s, v, rest)
  {
    Prepend(s, w, l, rest);
  }

  lemma {:induction false} Concat(s: Setting, w: World, a: seq<Label>, b: seq<Label>)
    ensures Run(s, w, a + b)
         == (if Run(s, w, a).None? then None else Run(s, Run(s, w, a).value, b))
    decreases |a|
  {
    if a == [] {
      assert a + b == b;
    } else {
      assert a + b == [a[0]] + (a[1..] + b);
      Prepend(s, w, a[0], a[1..] + b);
      if Step(s, w, a[0]).Some? {
        Concat(s, Step(s, w, a[0]).value, a[1..], b);
      }
    }
  }

  /** A call that sends the add. */
  const SENT: seq<Label> :=
    [Do(Lock(true, true), false), Do(Observe(Principal("u", NoRole)), false), Do(Save, false), Do(Post, false)]

  /** Its answer is a failure with some status, and it cannot read the membership. */
  function Unanswered(status: int): seq<Label> {
    [Do(Got(Failed(status)), false), Do(Observe(Unreachable), false), Do(Save, false)]
  }

  /** The client that has sent the add and waits. */
  function Trying(s: Setting, stored: Option<Record>): Client {
    var o := Marked(if stored.Some? then stored.value else NewRecord("u", s.tenant));
    Client(Some(o), o, NoRole, true, true, Awaiting, PENDING)
  }

  /** The record a joining call of user "u" starts from leaves it free to send the add. */
  predicate Free(s: Setting, stored: Option<Record>) {
    stored.Some? ==>
      stored.value.user == "u" && stored.value.tenant == s.tenant && !stored.value.completed && !stored.value.unknown
  }

  lemma Reads(s: Setting, w: World)
    requires w.client.pc == Off && w.role == NoRole && Free(s, w.client.stored)
    ensures var locked := Client(w.client.stored, NOBODY, NoRole, true, true, Locked, PENDING);
            var marking := locked.(o := Trying(s, w.client.stored).o, pc := Marking);
            && Step(s, w, Do(Lock(true, true), false)) == Some(w.(client := locked))
            && Step(s, w.(client := locked), Do(Observe(Principal("u", NoRole)), false)) == Some(w.(client := marking))
  {
  }

  lemma Sends(s: Setting, w: World)
    requires Free(s, w.client.stored)
    ensures var tried := Trying(s, w.client.stored);
            var marking := Client(w.client.stored, tried.o, NoRole, true, true, Marking, PENDING);
            && Step(s, w.(client := marking), Do(Save, false)) == Some(w.(client := tried.(pc := Posting)))
            && Step(s, w.(client := tried.(pc := Posting)), Do(Post, false))
               == Some(w.(client := tried, wire := w.wire[w.sent := Add(Viewer, NoRole)], sent := w.sent + 1))
  {
  }

  lemma TwoSteps(s: Setting, u: World, l: Label, v: World, m: Label, w: World, rest: seq<Label>)
    requires Step(s, u, l) == Some(v) && Step(s, v, m) == Some(w)
    ensures Run(s, u, [l] + ([m] + rest)) == Run(s, w, rest)
  {
    Then(s, u, l, v, [m] + rest);
    Then(s, v, m, w, rest);
  }

  lemma FourSteps(s: Setting, w0: World, a: Label, w1: World, b: Label, w2: World, c: Label, w3: World, d: Label,
                  w4: World, rest: seq<Label>)
    requires Step(s, w0, a) == Some(w1) && Step(s, w1, b) == Some(w2)
    requires Step(s, w2, c) == Some(w3) && Step(s, w3, d) == Some(w4)
    ensures Run(s, w0, [a, b, c, d] + rest) == Run(s, w4, rest)
  {
    assert [a, b, c, d] + rest == [a] + ([b] + ([c] + ([d] + rest)));
    TwoSteps(s, w0, a, w1, b, w2, [c] + ([d] + rest));
    TwoSteps(s, w2, c, w3, d, w4, rest);
  }

  lemma CallIsSent(s: Setting, w: World, rest: seq<Label>)
    requires w.client.pc == Off && w.role == NoRole && Free(s, w.client.stored)
    ensures var v := World(Trying(s, w.client.stored), NoRole, w.wire[w.sent := Add(Viewer, NoRole)], w.sent + 1,
                           w.accepted);
            Run(s, w, SENT + rest) == Run(s, v, rest)
  {
    var tried := Trying(s, w.client.stored);
    var locked := Client(w.client.stored, NOBODY, NoRole, true, true, Locked, PENDING);
    var marking := locked.(o := tried.o, pc := Marking);
    var v := World(tried, NoRole, w.wire[w.sent := Add(Viewer, NoRole)], w.sent + 1, w.accepted);
    Reads(s, w);
    Sends(s, w);
    FourSteps(s, w, Do(Lock(true, true), false), w.(client := locked), Do(Observe(Principal("u", NoRole)), false),
              w.(client := marking), Do(Save, false), w.(client := tried.(pc := Posting)), Do(Post, false), v, rest);
  }

  /** What such a call leaves behind when it is told of a failure and reads no membership. */
  function AfterFailure(o: Record, status: int): Client {
    var left := Unjoined(if Definitive(status) then o.(unknown := false) else o);
    Client(Some(left), left, NoRole, true, true, Off, Status(Broken, left.error, !left.unknown))
  }

  lemma FailureSteps(s: Setting, w: World, status: int)
    requires w.client.pc == Awaiting && (Definitive(status) ==> status in s.lies)
    ensures var o := if Definitive(status) then w.client.o.(unknown := false) else w.client.o;
            var rereading := w.client.(o := o, pc := Rereading);
            && Step(s, w, Do(Got(Failed(status)), false)) == Some(w.(client := rereading))
            && Step(s, w.(client := rereading), Do(Observe(Unreachable), false))
               == Some(w.(client := rereading.(o := Unjoined(o), pc := Failing)))
  {
  }

  lemma FailureSaved(s: Setting, w: World, o: Record, status: int)
    requires w.client.pc == Failing && w.client.o == Unjoined(if Definitive(status) then o.(unknown := false) else o)
    requires w.client.stored == Some(o) && !o.completed && w.client.seen == NoRole && w.client.join && w.client.secret
    ensures Step(s, w, Do(Save, false)) == Some(w.(client := AfterFailure(o, status)))
  {
  }

  lemma CallFails(s: Setting, w: World, o: Record, status: int, rest: seq<Label>)
    requires w.client == Client(Some(o), o, NoRole, true, true, Awaiting, PENDING) && !o.completed
    requires Definitive(status) ==> status in s.lies
    ensures Run(s, w, Unanswered(status) + rest) == Run(s, w.(client := AfterFailure(o, status)), rest)
  {
    var left := if Definitive(status) then o.(unknown := false) else o;
    var rereading := w.client.(o := left, pc := Rereading);
    var failing := rereading.(o := Unjoined(left), pc := Failing);
    var saving := [Do(Save, false)] + rest;
    var observing := [Do(Observe(Unreachable), false)] + saving;
    FailureSteps(s, w, status);
    FailureSaved(s, w.(client := failing), o, status);
    Then(s, w, Do(Got(Failed(status)), false), w.(client := rereading), observing);
    Then(s, w.(client := rereading), Do(Observe(Unreachable), false), w.(client := failing), saving);
    Then(s, w.(client := failing), Do(Save, false), w.(client := AfterFailure(o, status)), rest);
    assert Unanswered(status) + rest == [Do(Got(Failed(status)), false)] + observing;
  }

  /** The run with two accepted adds: the first one's answer is a rejection all the same, and an Owner has removed the
      employee before the next call. */
  function Twice(status: int): seq<Label> {
    SENT + ([Execute(0)] + (Unanswered(status) + ([Owner(NoRole)] + (SENT + [Execute(1)]))))
  }

  /** A call whose add is executed. */
  lemma CallLands(s: Setting, w: World, rest: seq<Label>)
    requires w.client.pc == Off && w.role == NoRole && w.wire == map[] && Free(s, w.client.stored)
    ensures var v := World(Trying(s, w.client.stored), Viewer, map[], w.sent + 1, w.accepted + {w.sent});
            Run(s, w, SENT + ([Execute(w.sent)] + rest)) == Run(s, v, rest)
  {
    var n := w.sent;
    var sent := World(Trying(s, w.client.stored), NoRole, map[n := Add(Viewer, NoRole)], n + 1, w.accepted);
    CallIsSent(s, w, [Execute(n)] + rest);
    assert w.wire[n := Add(Viewer, NoRole)] == sent.wire && sent.wire - {n} == map[];
    Then(s, sent, Execute(n), World(sent.client, Viewer, map[], n + 1, w.accepted + {n}), rest);
  }

  lemma AcceptsTwice(s: Setting, status: int)
    requires Definitive(status) && status in s.lies
    ensures Run(s, CREATION, Twice(status)).Some? && Run(s, CREATION, Twice(status)).value.accepted == {0, 1}
  {
    var tried := Trying(s, None);
    var landed := World(tried, Viewer, map[], 1, {0});
    var off := landed.(client := AfterFailure(tried.o, status));
    var again := SENT + ([Execute(1)] + []);
    CallLands(s, CREATION, Unanswered(status) + ([Owner(NoRole)] + again));
    assert CREATION.accepted + {0} == {0};
    CallFails(s, landed, tried.o, status, [Owner(NoRole)] + again);
    Then(s, off, Owner(NoRole), off.(role := NoRole), again);
    CallLands(s, off.(role := NoRole), []);
    assert [Execute(1)] + [] == [Execute(1)];
  }

  /** At most one add is accepted per employee, over every run of calls, deaths, late executions and Owner actions,
      exactly when a definitive rejection means that nothing was added. */
  lemma AtMostOneExactly(s: Setting)
    ensures AtMostOneAdd(s) <==> !AnyDefinitive(s.lies)
  {
    if !AnyDefinitive(s.lies) {
      forall labels | Run(s, CREATION, labels).Some?
        ensures |Run(s, CREATION, labels).value.accepted| <= 1
      {
        InvRun(s, CREATION, labels);
      }
    } else {
      var status :| status in s.lies && Definitive(status);
      AcceptsTwice(s, status);
    }
  }

  // ---- What the process did is such a run ----

  /** Two states that no later step can tell apart: the same, or no process and the same stored record. */
  predicate Alike(c: Client, d: Client) {
    c == d || (c.pc == Off && d.pc == Off && c.stored == d.stored)
  }

  lemma AlikeNext(tenant: nat, c: Client, d: Client, e: Event)
    requires Alike(c, d) && Next(tenant, c, e).Some?
    ensures Next(tenant, d, e).Some? && Alike(Next(tenant, c, e).value, Next(tenant, d, e).value)
  {
  }

  /** The client's own events among the labels. */
  function Events(labels: seq<Label>): seq<Event> {
    if labels == [] then []
    else (if labels[0].Do? then [labels[0].event] else []) + Events(labels[1..])
  }

  /** Service and Owner allow each label when it comes; nothing is asked of the client. */
  ghost predicate Permitted(s: Setting, w: World, labels: seq<Label>)
    decreases |labels|
  {
    labels == []
    || (var l := labels[0];
        && (if l.Do? then Serve(s, w, l.event, l.discarded).Some? else Step(s, w, l).Some?)
        && (Step(s, w, l).Some? ==> Permitted(s, Step(s, w, l).value, labels[1..])))
  }

  /** The request an event stands for. */
  function Asked(c: Client, e: Event): Option<Request> {
    if e.Observe? then Some(ReadPrincipal) else if e.Post? then Some(AddMember(DEFAULT_ROLE)) else None
  }

  /** Whatever a process did, in whatever order with late executions, losses and the Owner's actions, is a run. */
  lemma {:induction false} TraceIsRun(s: Setting, w: World, trace: seq<Traces.Point<Client, Request>>,
                                      labels: seq<Label>)
    requires Traces.IsTrace(Sequence(s.tenant), Asked, trace, Events(labels)) && Alike(trace[0].at, w.client)
    requires Permitted(s, w, labels)
    ensures Run(s, w, labels).Some? && Alike(trace[|trace| - 1].at, Run(s, w, labels).value.client)
    decreases |labels|
  {
    if labels != [] {
      var l := labels[0];
      var own := Events(labels);
      if l.Do? {
        assert own[0] == l.event && own[1..] == Events(labels[1..]);
        assert Traces.StepOk(Sequence(s.tenant), Asked, trace, own, 0);
        AlikeNext(s.tenant, trace[0].at, w.client, l.event);
        Traces.Suffix(Sequence(s.tenant), Asked, trace, own, 1);
        TraceIsRun(s, Step(s, w, l).value, trace[1..], labels[1..]);
      } else {
        assert own == Events(labels[1..]);
        TraceIsRun(s, Step(s, w, l).value, trace, labels[1..]);
      }
    }
  }
}
