/** onboarding.go: what an employee is told, exactly when, in terms of the stored record and of what the call saw. */
module OnboardingReports {
  import opened Basics
  import opened Onboarding
  import opened OnboardingService

  // ---- What can be stored ----

  /** A record is completed and clean, or an add was attempted: it is under way, or it failed and the error says
      whether its result is unknown. */
  predicate Shaped(o: Record) {
    if o.completed then o.state == Ready && !o.unknown && o.error == Nothing
    else if o.state == Joining then o.unknown && o.error == Nothing
    else o.state == Broken && o.error == (if o.unknown then ResultUnknown else JoinFailed)
  }

  predicate StoredShaped(stored: Option<Record>) {
    stored.Some? ==> Shaped(stored.value)
  }

  predicate ClientShaped(c: Client) {
    && PcOk(c) && StoredShaped(c.stored)
    && match c.pc
       case Off => true
       case Locked => true
       case Completing => Shaped(c.o)
       case Failing => Shaped(c.o)
       case _ => c.o.state == Joining && c.o.error == Nothing
  }

  lemma ShapedNext(tenant: nat, c: Client, e: Event)
    requires ClientShaped(c) && Next(tenant, c, e).Some?
    ensures ClientShaped(Next(tenant, c, e).value)
  {
    PcOkNext(tenant, c, e);
  }

  lemma {:induction false} ShapedRun(s: Setting, w: World, labels: seq<Label>)
    requires ClientShaped(w.client) && Run(s, w, labels).Some?
    ensures ClientShaped(Run(s, w, labels).value.client)
    decreases |labels|
  {
    if labels != [] {
      var next := Step(s, w, labels[0]).value;
      if labels[0].Do? { ShapedNext(s.tenant, w.client, labels[0].event); }
      ShapedRun(s, next, labels[1..]);
    }
  }

  /** After every run from the start the stored record is one of these. */
  lemma StoredIsShaped(s: Setting, labels: seq<Label>)
    requires Run(s, CREATION, labels).Some?
    ensures StoredShaped(Run(s, CREATION, labels).value.client.stored)
  {
    ShapedRun(s, CREATION, labels);
  }

  // ---- What is reported ----

  /** The record belongs to another user or another workspace. */
  predicate Conflicts(tenant: nat, stored: Option<Record>, p: Principal)
    requires p.Principal?
  {
    stored.Some? && (stored.value.user != p.user || stored.value.tenant != tenant)
  }

  predicate IsCompleted(stored: Option<Record>) {
    stored.Some? && stored.value.completed
  }

  predicate IsUnknown(stored: Option<Record>) {
    stored.Some? && stored.value.unknown
  }

  /** The second reading shows the same user as a member. */
  predicate Joined(p: Principal, q: Principal)
    requires p.Principal?
  {
    q.Principal? && q.user == p.user && q.role != NoRole
  }

  /** The call, for this employee and with no conflict, sends the add. */
  predicate Tries(stored: Option<Record>, join: bool, secret: bool, f: Facts)
    requires f.p.Principal?
  {
    !IsCompleted(stored) && !IsUnknown(stored) && f.p.role == NoRole && join && secret
  }

  /** For a record that can be stored, each report is given in exactly these cases. */
  lemma ReportsExactly(tenant: nat, stored: Option<Record>, join: bool, secret: bool, f: Facts)
    requires StoredShaped(stored) && f.p.Principal?
    ensures var status := Outcome(tenant, stored, join, secret, f).1;
            var conflict, done, unknown := Conflicts(tenant, stored, f.p), IsCompleted(stored), IsUnknown(stored);
            var member, tries := f.p.role != NoRole, Tries(stored, join, secret, f);
            var rejected := f.answer.Failed? && f.answer.status in {400, 401, 403, 404, 429};
            var failed := tries && f.marked && f.kept && !Joined(f.p, f.q);
            && (status == Some(Status(Pending, IdentityConflict, true)) <==> conflict)
            && (status == Some(Status(Ready, Nothing, false)) <==>
                  !conflict && (|| (done && member) || (!done && member && join && f.kept)
                                || (tries && f.marked && f.kept && Joined(f.p, f.q))))
            && (status == Some(Status(Removed, Nothing, false)) <==> !conflict && done && !member)
            && (status == Some(Status(Pending, Nothing, true)) <==>
                  !conflict && !done && !join && (member || stored.None?))
            && (status == Some(Status(Broken, ResultUnknown, false)) <==>
                  !conflict && ((!done && !member && unknown) || (failed && !rejected)))
            && (status == Some(Status(Broken, JoinFailed, true)) <==>
                  !conflict && ((!done && !member && !unknown && stored.Some? && !join) || (failed && rejected)))
            && (status == Some(Status(Broken, KeyUnavailable, true)) <==>
                  !conflict && !done && !member && !unknown && join && !secret)
            && (status == None <==>
                  !conflict && (|| (!done && member && join && !f.kept) || (tries && !(f.marked && f.kept))))
  {
    ReportsElse(tenant, stored, join, secret, f);
  }

  /** There is no other report. */
  lemma ReportsElse(tenant: nat, stored: Option<Record>, join: bool, secret: bool, f: Facts)
    requires StoredShaped(stored) && f.p.Principal?
    ensures Outcome(tenant, stored, join, secret, f).1 in
              {None, Some(Status(Pending, IdentityConflict, true)), Some(Status(Ready, Nothing, false)),
               Some(Status(Removed, Nothing, false)), Some(Status(Pending, Nothing, true)),
               Some(Status(Broken, ResultUnknown, false)), Some(Status(Broken, JoinFailed, true)),
               Some(Status(Broken, KeyUnavailable, true))}
  {
  }

  /** And what is stored after the call: nothing new unless it completes the record, or marks it and sends. */
  lemma StoresExactly(tenant: nat, stored: Option<Record>, join: bool, secret: bool, f: Facts)
    requires f.p.Principal?
    ensures var after := Outcome(tenant, stored, join, secret, f).0;
            var conflict, done, member := Conflicts(tenant, stored, f.p), IsCompleted(stored), f.p.role != NoRole;
            var rejected := f.answer.Failed? && f.answer.status in {400, 401, 403, 404, 429};
            var record := (state: State, unknown: bool, completed: bool, error: Code) =>
              Some(Record(f.p.user, tenant, state, unknown, completed, error));
            if conflict || done then after == stored
            else if member then after == if join && f.kept then record(Ready, false, true, Nothing) else stored
            else if !(Tries(stored, join, secret, f) && f.marked) then after == stored
            else if !f.kept then after == record(Joining, true, false, Nothing)
            else if Joined(f.p, f.q) then after == record(Ready, false, true, Nothing)
            else after == if rejected then record(Broken, false, false, JoinFailed)
                          else record(Broken, true, false, ResultUnknown)
  {
  }

  /** The service cannot be asked: nothing is reported or changed. */
  lemma UnreachableReports(tenant: nat, stored: Option<Record>, join: bool, secret: bool, f: Facts)
    requires f.p.Unreachable?
    ensures Outcome(tenant, stored, join, secret, f) == (stored, None)
  {
  }
}
