/** onboarding.go: the locked section itself. It may do nothing that the step sequence of Onboarding does not allow at
    that point, and may send nothing but the requests of those steps, in their order. */
module OnboardingService {
  import opened Basics
  import opened Onboarding
  import Traces

  /** The upstream service; `Unreachable` also stands for an identity that CheckEmployee refuses. */
  class Upstream {
    ghost var requests: seq<Request>       // all that it was ever sent

    constructor () {}

    method CurrentPrincipal() returns (p: Principal)
      modifies this
      ensures requests == old(requests) + [ReadPrincipal]
    {
      requests := requests + [ReadPrincipal];
      p := *;
    }

    method AddTo(role: Role) returns (answer: Answer)
      modifies this
      ensures requests == old(requests) + [AddMember(role)]
    {
      requests := requests + [AddMember(role)];
      answer := *;
    }
  }

  class Service {
    const tenant: nat                    // the default workspace
    const upstream: Upstream
    var stored: Option<Record>           // the employee's row in the store
    ghost var client: Client             // where this call stands
    ghost const start: Client            // where it stood first
    ghost var events: seq<Event>         // what was done since,
    ghost var trace: seq<Traces.Point<Client, Request>>
    ghost var sent: seq<Request>         // and all that the upstream service was sent for it, and before

    /** Events, states and requests agree, but for `ahead`, a request whose event comes next. */
    ghost predicate Sound(ahead: Option<Request>)
      reads this, upstream
    {
      && Traces.IsTrace(Sequence(tenant), Asked, trace, events) && trace[|events|] == Traces.Point(client, sent)
      && trace[0].at == start
      && upstream.requests == Traces.Told(sent, ahead)
    }

    ghost predicate Valid()
      reads this, upstream
    {
      client.stored == stored && Sound(None)
    }

    constructor (tenant: nat, upstream: Upstream, stored: Option<Record>)
      ensures Valid() && this.stored == stored && this.tenant == tenant && this.upstream == upstream
      ensures events == [] && client == start && start.pc == Off && start.stored == stored
    {
      this.tenant, this.upstream, this.stored := tenant, upstream, stored;
      client := Client(stored, NOBODY, NoRole, false, false, Off, PENDING);
      start := Client(stored, NOBODY, NoRole, false, false, Off, PENDING);
      sent := upstream.requests;
      events := [];
      trace := [Traces.Point(Client(stored, NOBODY, NoRole, false, false, Off, PENDING), upstream.requests)];
    }

    ghost method Advance(e: Event)
      requires Sound(Asked(client, e))
      requires Next(tenant, client, e).Some? && Next(tenant, client, e).value.stored == stored
      modifies `client, `events, `trace, `sent
      ensures Valid() && client == Next(tenant, old(client), e).value && events == old(events) + [e]
    {
      var point := Traces.Point(Next(tenant, client, e).value, upstream.requests);
      assert Sequence(tenant)(client, e) == Some(point.at);
      Traces.Grows(Sequence(tenant), Asked, trace, events, e, point);
      client, events, trace, sent := point.at, events + [e], trace + [point], point.sent;
    }

    method Read() returns (p: Principal)
      requires Valid()
      modifies upstream
      ensures Sound(Some(ReadPrincipal)) && upstream.requests == old(upstream.requests) + [ReadPrincipal]
    {
      p := upstream.CurrentPrincipal();
    }

    /** The request that adds the employee, and its answer. */
    method Add() returns (answer: Answer)
      requires Valid() && client.pc == Posting
      modifies `client, `events, `trace, `sent, upstream
      ensures Valid() && upstream.requests == old(upstream.requests) + [AddMember(Viewer)]
      ensures client == old(client).(o := AfterAnswer(old(client).o, answer), pc := Rereading)
      ensures events == old(events) + [Post, Got(answer)]
    {
      answer := upstream.AddTo(DEFAULT_ROLE);
      Advance(Post);
      Advance(Got(answer));
    }

    /** SaveOnboarding of the record in hand; it may fail without effect. */
    method Save(o: Record) returns (ok: bool)
      requires Valid() && client.o == o && client.pc in {Marking, Completing, Failing}
      modifies this
      ensures Valid() && client == Next(tenant, old(client), if ok then Event.Save else Die).value
      ensures stored == if ok then Stored(old(stored), o) else old(stored)
      ensures events == old(events) + [if ok then Event.Save else Die]
    {
      ok := *;
      if ok {
        stored := Stored(stored, o);
        Advance(Event.Save);
      } else {
        Advance(Die);
      }
    }

    /** What was done here, together with anything else that happens meanwhile and that service and Owner allow, is a
        run, and leads to the record stored here. */
    lemma IsRun(s: Setting, w: World, labels: seq<Label>)
      requires Valid() && s.tenant == tenant && Events(labels) == events && Alike(start, w.client)
      requires Permitted(s, w, labels)
      ensures Run(s, w, labels).Some? && Alike(client, Run(s, w, labels).value.client)
      ensures Run(s, w, labels).value.client.stored == stored
    {
      TraceIsRun(s, w, trace, labels);
    }

    /** So is what it would have done if it had died at any point. */
    lemma DiedIsRun(n: nat, s: Setting, w: World, labels: seq<Label>)
      requires Valid() && s.tenant == tenant && Alike(start, w.client)
      requires n <= |events| && Events(labels) == events[..n] + [Die] && Permitted(s, w, labels)
      ensures Run(s, w, labels).Some? && Run(s, w, labels).value.client.stored == trace[n].at.stored
    {
      var dead := Traces.Point(trace[n].at.(pc := Off), trace[n].sent);
      Traces.Interrupted(Sequence(tenant), Asked, trace, events, n, Die, dead);
      TraceIsRun(s, w, trace[..n + 1] + [dead], labels);
    }

    /** The body of the locked section; no status stands for a returned error. `facts` is what it was told. */
    method Onboarding(join: bool, secret: bool) returns (status: Option<Status>, ghost facts: Facts)
      requires Valid() && client.pc == Off
      modifies this, upstream
      ensures Valid() && client.pc == Off
      ensures (stored, status) == Outcome(tenant, old(stored), join, secret, facts)
      ensures upstream.requests == old(upstream.requests)
                + (if Sending(tenant, old(stored), join, secret, facts)
                   then [ReadPrincipal, AddMember(Viewer), ReadPrincipal] else [ReadPrincipal])
    {
      Advance(Lock(join, secret));
      var now := Read();
      facts := Facts(now, false, Accepted, Unreachable, false);
      ghost var locked := client;
      Advance(Observe(now));
      if now.Unreachable? { return None, facts; }
      status, facts := Proceed(locked, now, join, secret);
      assert [ReadPrincipal] + [AddMember(Viewer), ReadPrincipal] == [ReadPrincipal, AddMember(Viewer), ReadPrincipal];
    }

    /** Lines 69-158, after the first read. */
    method Proceed(ghost locked: Client, now: Principal, join: bool, secret: bool)
      returns (status: Option<Status>, ghost facts: Facts)
      requires Valid() && now.Principal? && locked == Client(stored, NOBODY, NoRole, join, secret, Locked, PENDING)
      requires client == Decide(tenant, locked, now.user, now.role)
      modifies this, upstream
      ensures Valid() && client.pc == Off && facts.p == now
      ensures (stored, status) == Outcome(tenant, old(stored), join, secret, facts)
      ensures upstream.requests == old(upstream.requests)
                + (if Sending(tenant, old(stored), join, secret, facts) then [AddMember(Viewer), ReadPrincipal] else [])
    {
      facts := Facts(now, false, Accepted, Unreachable, false);
      var o := if stored.Some? then stored.value else NewRecord(now.user, tenant);
      if o.user != now.user || o.tenant != tenant {
        return Some(Status(Pending, IdentityConflict, true)), facts;
      }
      if o.completed {
        return Some(Status(if now.role == NoRole then Removed else Ready, Nothing, false)), facts;
      }
      if now.role != NoRole {
        if !join { return Some(PENDING), facts; }
        o := Completed(o);
        var kept := Save(o);
        return if kept then Some(READY) else None, facts.(kept := kept);
      }
      if o.unknown { return Some(Status(Broken, ResultUnknown, false)), facts; }
      if !join { return Some(Status(o.state, o.error, true)), facts; }
      if !secret { return Some(Status(Broken, KeyUnavailable, true)), facts; }
      o := o.(state := Joining, unknown := true, error := Nothing);
      var marked := Save(o);
      facts := facts.(marked := marked);
      if !marked { return None, facts; }
      status, facts := Join(o, facts);
    }

    /** Lines 132-157, after the intent was saved. */
    method Join(marked: Record, ghost told: Facts) returns (status: Option<Status>, ghost facts: Facts)
      requires Valid() && client.pc == Posting && client.o == marked && !marked.completed
      modifies this, upstream
      ensures Valid() && client.pc == Off && facts.p == told.p && facts.marked == told.marked
      ensures (stored, status) == Reported(old(stored), AfterAnswer(marked, facts.answer), facts)
      ensures upstream.requests == old(upstream.requests) + [AddMember(Viewer), ReadPrincipal]
    {
      var o := marked;
      var reply := Add();
      if reply.Failed? && Definitive(reply.status) { o := o.(unknown := false); }
      status, facts := Reread(o, told.(answer := reply));
    }

    /** Lines 141-157. */
    method Reread(found: Record, ghost told: Facts) returns (status: Option<Status>, ghost facts: Facts)
      requires Valid() && client.pc == Rereading && client.o == found && !found.completed
      modifies this, upstream
      ensures Valid() && client.pc == Off && facts == told.(q := facts.q, kept := facts.kept)
      ensures (stored, status) == Reported(old(stored), found, facts)
      ensures upstream.requests == old(upstream.requests) + [ReadPrincipal]
    {
      var refreshed := Read();
      var member := refreshed.Principal? && refreshed.user == found.user && refreshed.role != NoRole;
      ghost var kept;
      Advance(Observe(refreshed));
      status, kept := Conclude(found, member);
      facts := told.(q := refreshed, kept := kept);
    }

    /** Lines 142-157: the completion or the failure is saved and reported. */
    method Conclude(found: Record, member: bool) returns (status: Option<Status>, ghost kept: bool)
      requires Valid() && !found.completed
      requires client.pc == (if member then Completing else Failing)
      requires client.o == (if member then Completed(found) else Unjoined(found))
      modifies this
      ensures Valid() && client.pc == Off && kept == status.Some?
      ensures stored == if !kept then old(stored)
                        else Stored(old(stored), if member then Completed(found) else Unjoined(found))
      ensures kept ==> status.value == if member then READY
                                       else Status(Broken, Unjoined(found).error, !found.unknown)
    {
      var o := if member then Completed(found)
               else found.(state := Broken, error := if found.unknown then ResultUnknown else JoinFailed);
      var ok := Save(o);
      kept := ok;
      if !ok { return None, kept; }
      return Some(if member then READY else Status(o.state, o.error, !o.unknown)), kept;
    }
  }

  /** What one call was told: the two reads, the answer to the add, and whether its two saves happened. */
  datatype Facts = Facts(p: Principal, marked: bool, answer: Answer, q: Principal, kept: bool)

  /** The call that starts from this record with this membership decides to add the employee. */
  predicate Decided(tenant: nat, stored: Option<Record>, join: bool, secret: bool, p: Principal) {
    && p.Principal? && p.role == NoRole && join && secret
    && (stored.Some? ==> stored.value.user == p.user && stored.value.tenant == tenant
                         && !stored.value.completed && !stored.value.unknown)
  }

  /** And sends the add when its intent was stored. */
  predicate Sending(tenant: nat, stored: Option<Record>, join: bool, secret: bool, f: Facts) {
    Decided(tenant, stored, join, secret, f.p) && f.marked
  }

  /** The stored record and the report of a call, as a function of what it was told. */
  function Outcome(tenant: nat, stored: Option<Record>, join: bool, secret: bool, f: Facts)
    : (Option<Record>, Option<Status>)
  {
    if f.p.Unreachable? then (stored, None)
    else
      var d := Decide(tenant, Client(stored, NOBODY, NoRole, join, secret, Locked, PENDING), f.p.user, f.p.role);
      if d.pc == Completing then
        if f.kept then (Stored(stored, d.o), Some(READY)) else (stored, None)
      else if d.pc != Marking then (stored, Some(d.status))
      else if !f.marked then (stored, None)
      else Reported(Stored(stored, d.o), AfterAnswer(d.o, f.answer), f)
  }

  function AfterAnswer(marked: Record, answer: Answer): Record {
    if answer.Failed? && Definitive(answer.status) then marked.(unknown := false) else marked
  }

  function Reported(stored: Option<Record>, o: Record, f: Facts): (Option<Record>, Option<Status>) {
    if !f.kept then (stored, None)
    else if f.q.Principal? && f.q.user == o.user && f.q.role != NoRole then (Stored(stored, Completed(o)), Some(READY))
    else (Stored(stored, Unjoined(o)), Some(Status(Broken, Unjoined(o).error, !o.unknown)))
  }

  /** What a call that sends the add leaves: completed exactly when the second reading shows the same user as a member
      and that could be saved; the mark is gone without a completion exactly after a saved definitive rejection. */
  lemma JoinOutcomes(tenant: nat, stored: Option<Record>, f: Facts)
    requires Sending(tenant, stored, true, true, f)
    ensures var (after, status) := Outcome(tenant, stored, true, true, f);
            var rejected := f.answer.Failed? && Definitive(f.answer.status);
            && after.Some? && after.value.user == f.p.user && after.value.tenant == tenant
            && (after.value.completed <==> f.kept && f.q.Principal? && f.q.user == f.p.user && f.q.role != NoRole)
            && (after.value.completed <==> status == Some(READY))
            && (!after.value.completed ==> (after.value.unknown <==> !(rejected && f.kept)))
            && (status.None? <==> !f.kept)
            && (!after.value.completed && f.kept ==>
                  status.value.state == Broken && (status.value.retryable <==> !after.value.unknown))
  {
  }

  /** A call that does not send the add never marks the record unknown and never clears such a mark; it completes the
      record exactly when it reads a membership of the recorded user in a joining call that can save. */
  lemma OtherOutcomes(tenant: nat, stored: Option<Record>, join: bool, secret: bool, f: Facts)
    requires !Sending(tenant, stored, join, secret, f)
    ensures var (after, status) := Outcome(tenant, stored, join, secret, f);
            && (after != stored ==> after.Some? && after.value.completed && status == Some(READY)
                                    && f.p.Principal? && f.p.role != NoRole && join && f.kept)
            && (f.p.Unreachable? ==> status.None?)
            && (status == Some(Status(Ready, Nothing, false)) ==>
                  f.p.Principal? && f.p.role != NoRole && after.Some? && after.value.user == f.p.user)
  {
  }
}
