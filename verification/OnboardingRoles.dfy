/** Which memberships onboarding brings about: what it sends, what an Owner's choice is worth, what a report of "ready"
    means, and what can still happen after completion. */
module OnboardingRoles {
  import opened Basics
  import opened Onboarding
  import IntentLog

  // ---- What is sent ----

  /** Every request on its way asks for the default role, and its sender had read that there is no membership. */
  ghost predicate DefaultAdds(w: World) {
    forall n :: n in w.wire ==> w.wire[n] == Add(Viewer, NoRole)
  }

  lemma AddsStep(s: Setting, w: World, l: Label)
    requires PcOk(w.client) && DefaultAdds(w) && Step(s, w, l).Some?
    ensures PcOk(Step(s, w, l).value.client) && DefaultAdds(Step(s, w, l).value)
  {
    PcOkStep(s, w, l);
  }

  /** So it is in every run from the start, whatever the service answers and whatever an Owner does. */
  lemma {:induction false} OnlyDefaultAdds(s: Setting, w: World, labels: seq<Label>)
    requires PcOk(w.client) && DefaultAdds(w) && Run(s, w, labels).Some?
    ensures PcOk(Run(s, w, labels).value.client) && DefaultAdds(Run(s, w, labels).value)
    decreases |labels|
  {
    if labels != [] {
      AddsStep(s, w, labels[0]);
      OnlyDefaultAdds(s, Step(s, w, labels[0]).value, labels[1..]);
    }
  }

  /** The steps of one call from its read on: nobody else holds the lock, nothing else is read. */
  predicate WithinCall(labels: seq<Label>) {
    forall i :: 0 <= i < |labels| && labels[i].Do? ==> labels[i].event.Save?
  }

  /** A read, by a call that holds the lock, which truthfully found no membership. */
  ghost predicate ReadNone(s: Setting, w: World, labels: seq<Label>, i: nat) {
    && i < |labels| && labels[i].Do? && labels[i].event.Observe? && WithinCall(labels[i + 1..])
    && Run(s, w, labels[..i]).Some?
    && var before := Run(s, w, labels[..i]).value;
       before.client.pc == Locked && before.role == NoRole && labels[i].event.p.Principal?
  }

  lemma {:induction false} RunLast(s: Setting, w: World, labels: seq<Label>)
    requires labels != []
    ensures var n := |labels| - 1;
            Run(s, w, labels)
            == (if Run(s, w, labels[..n]).None? then None else Step(s, Run(s, w, labels[..n]).value, labels[n]))
  {
    var n := |labels| - 1;
    assert labels == labels[..n] + [labels[n]] && [labels[n]] == [labels[n]] + [];
    Concat(s, w, labels[..n], [labels[n]]);
    if Run(s, w, labels[..n]).Some? {
      Prepend(s, Run(s, w, labels[..n]).value, labels[n], []);
    }
  }

  /** A call about to send the add has read, in this call and under its lock, that there is no membership, and has
      read nothing since. */
  lemma {:induction false} SentAfterReading(s: Setting, labels: seq<Label>)
    requires Run(s, CREATION, labels).Some? && Run(s, CREATION, labels).value.client.pc in {Marking, Posting}
    ensures exists i: nat :: ReadNone(s, CREATION, labels, i)
    decreases |labels|
  {
    var n := |labels| - 1;
    RunLast(s, CREATION, labels);
    var before, l := Run(s, CREATION, labels[..n]).value, labels[n];
    if l.Do? && l.event.Observe? {
      assert labels[n + 1..] == [];
      assert ReadNone(s, CREATION, labels, n);
    } else {
      assert before.client.pc in {Marking, Posting};
      SentAfterReading(s, labels[..n]);
      var i: nat :| ReadNone(s, CREATION, labels[..n], i);
      assert labels[..n][..i] == labels[..i] && labels[i + 1..] == labels[..n][i + 1..] + [l];
      assert ReadNone(s, CREATION, labels, i);
    }
  }

  // ---- Roles ----

  /** The role that Owners leave behind, starting from `role`. */
  function Given(role: Role, labels: seq<Label>): Role
    decreases |labels|
  {
    if labels == [] then role
    else Given(if labels[0].Owner? then labels[0].role else role, labels[1..])
  }

  /** Over every run from the start, Owners' actions included: a role that an Owner gave is the one the employee has,
      and an employee left without one is at most a viewer, by an add that was accepted. */
  lemma OwnersRoleWins(s: Setting, labels: seq<Label>)
    requires Run(s, CREATION, labels).Some?
    ensures var w, given := Run(s, CREATION, labels).value, Given(NoRole, labels);
            && (given != NoRole ==> w.role == given)
            && (given == NoRole ==> w.role == NoRole || (w.role == Viewer && w.accepted != {}))
  {
    RolesFrom(s, CREATION, NoRole, labels);
  }

  lemma {:induction false} RolesFrom(s: Setting, w: World, given: Role, labels: seq<Label>)
    requires PcOk(w.client) && DefaultAdds(w) && Run(s, w, labels).Some?
    requires w.role == given || (given == NoRole && w.role == Viewer && w.accepted != {})
    ensures var v, last := Run(s, w, labels).value, Given(given, labels);
            v.role == last || (last == NoRole && v.role == Viewer && v.accepted != {})
    decreases |labels|
  {
    if labels != [] {
      var l := labels[0];
      AddsStep(s, w, l);
      AcceptedStays(s, w, l);
      RolesFrom(s, Step(s, w, l).value, if l.Owner? then l.role else given, labels[1..]);
    }
  }

  /** What one step does to the role. */
  lemma AcceptedStays(s: Setting, w: World, l: Label)
    requires DefaultAdds(w) && Step(s, w, l).Some?
    ensures var v := Step(s, w, l).value;
            && (w.accepted != {} ==> v.accepted != {})
            && (!l.Owner? ==> v.role == w.role || (w.role == NoRole && v.role == Viewer && v.accepted != {}))
  {
    if l.Execute? { assert l.n in w.accepted + {l.n}; }
  }

  // ---- After completion ----

  ghost predicate Finished(w: World) {
    w.client.stored.Some? && w.client.stored.value.completed
  }

  lemma FinishedStep(s: Setting, w: World, l: Label)
    requires PcOk(w.client) && Finished(w) && Step(s, w, l).Some?
    ensures var v := Step(s, w, l).value;
            && Finished(v) && PcOk(v.client) && v.client.pc in {Off, Locked} && v.sent == w.sent
            && forall n :: n in v.wire ==> n in w.wire && v.wire[n] == w.wire[n]
  {
    PcOkStep(s, w, l);
  }

  /** Once a completed record is stored no add is ever sent again, whatever the environment does; only requests
      sent before can still be accepted. */
  lemma {:induction false} CompletedForever(s: Setting, w: World, labels: seq<Label>)
    requires PcOk(w.client) && Finished(w) && Run(s, w, labels).Some?
    ensures var v := Run(s, w, labels).value;
            && Finished(v) && PcOk(v.client) && v.client.pc in {Off, Locked} && v.sent == w.sent
            && forall n :: n in v.wire ==> n in w.wire && v.wire[n] == w.wire[n]
    decreases |labels|
  {
    if labels == [] {
      assert w.client.pc in {Off, Locked};
    } else {
      FinishedStep(s, w, labels[0]);
      CompletedForever(s, Step(s, w, labels[0]).value, labels[1..]);
    }
  }

  predicate NoOwner(labels: seq<Label>) {
    forall i :: 0 <= i < |labels| ==> !labels[i].Owner?
  }

  /** The employee becomes a member again without any Owner acting. */
  ghost predicate Reappears(s: Setting, w: World) {
    exists labels :: NoOwner(labels) && Run(s, w, labels).Some? && Run(s, w, labels).value.role != NoRole
  }

  /** An employee removed after completion comes back without an Owner exactly when an add is still on its way. */
  lemma ReappearsExactly(s: Setting, w: World)
    requires PcOk(w.client) && DefaultAdds(w) && Finished(w) && w.role == NoRole
    ensures Reappears(s, w) <==> w.wire != map[]
  {
    if n :| n in w.wire {
      var labels := [Execute(n)];
      Prepend(s, w, Execute(n), []);
      assert labels == labels + [] && NoOwner(labels);
    } else {
      assert w.wire == map[];
      forall labels | NoOwner(labels) && Run(s, w, labels).Some?
        ensures Run(s, w, labels).value.role == NoRole
      {
        RoleIsGiven(s, w, labels);
        NothingGiven(w.role, labels);
      }
    }
  }

  lemma {:induction false} NothingGiven(role: Role, labels: seq<Label>)
    requires NoOwner(labels)
    ensures Given(role, labels) == role
  {
    if labels != [] {
      assert !labels[0].Owner?;
      NothingGiven(role, labels[1..]);
    }
  }

  /** After completion with nothing on its way, only an Owner changes the role. */
  lemma {:induction false} RoleIsGiven(s: Setting, w: World, labels: seq<Label>)
    requires PcOk(w.client) && Finished(w) && w.wire == map[] && Run(s, w, labels).Some?
    ensures Run(s, w, labels).value.role == Given(w.role, labels) && Run(s, w, labels).value.wire == map[]
    decreases |labels|
  {
    if labels != [] {
      FinishedStep(s, w, labels[0]);
      assert Step(s, w, labels[0]).value.wire == map[];
      RoleIsGiven(s, Step(s, w, labels[0]).value, labels[1..]);
    }
  }

  /** A call whose answer is lost; then an Owner adds the employee, the next call records the completion, and the Owner
      removes the employee. */
  const REMOVED: seq<Label> :=
    [Owner(Viewer), Do(Lock(true, true), false), Do(Observe(Principal("u", Viewer)), false), Do(Save, false),
     Owner(NoRole)]

  lemma CompletingSteps(s: Setting, w: World, o: Record)
    requires w.client.pc == Off && w.client.stored == Some(o) && w.role == Viewer
    requires o.user == "u" && o.tenant == s.tenant && !o.completed
    ensures var locked := Client(Some(o), NOBODY, NoRole, true, true, Locked, PENDING);
            var completing := locked.(o := Completed(o), seen := Viewer, pc := Completing);
            && Step(s, w, Do(Lock(true, true), false)) == Some(w.(client := locked))
            && Step(s, w.(client := locked), Do(Observe(Principal("u", Viewer)), false))
                == Some(w.(client := completing))
  {
  }

  lemma CompletionSaved(s: Setting, w: World, o: Record)
    requires w.client == Client(Some(o), Completed(o), Viewer, true, true, Completing, PENDING)
    ensures Step(s, w, Do(Save, false))
         == Some(w.(client := Client(Some(Completed(o)), Completed(o), Viewer, true, true, Off, READY)))
  {
  }

  lemma ThenRemoved(s: Setting, w: World, o: Record)
    requires w.client.pc == Off && w.client.stored == Some(o) && w.role == NoRole
    requires o.user == "u" && o.tenant == s.tenant && !o.completed
    ensures Run(s, w, REMOVED)
         == Some(w.(client := Client(Some(Completed(o)), Completed(o), Viewer, true, true, Off, READY)))
  {
    var given := w.(role := Viewer);
    var locked := Client(Some(o), NOBODY, NoRole, true, true, Locked, PENDING);
    var completing := locked.(o := Completed(o), seen := Viewer, pc := Completing);
    var done := Client(Some(Completed(o)), Completed(o), Viewer, true, true, Off, READY);
    var ending := [Do(Save, false)] + ([Owner(NoRole)] + []);
    CompletingSteps(s, given, o);
    CompletionSaved(s, given.(client := completing), o);
    Then(s, w, Owner(Viewer), given, REMOVED[1..]);
    assert REMOVED == [Owner(Viewer)] + REMOVED[1..];
    assert REMOVED[1..] == [Do(Lock(true, true), false)] + ([Do(Observe(Principal("u", Viewer)), false)] + ending);
    TwoSteps(s, given, Do(Lock(true, true), false), given.(client := locked),
             Do(Observe(Principal("u", Viewer)), false), given.(client := completing), ending);
    TwoSteps(s, given.(client := completing), Do(Save, false), given.(client := done), Owner(NoRole),
             w.(client := done), []);
  }

  /** What a first call leaves whose answer is lost. */
  function LostWorld(s: Setting): World {
    World(AfterFailure(Trying(s, None).o, 0), NoRole, map[0 := Add(Viewer, NoRole)], 1, {})
  }

  lemma FirstIsLost(s: Setting, rest: seq<Label>)
    ensures Run(s, CREATION, SENT + (Unanswered(0) + rest)) == Run(s, LostWorld(s), rest)
  {
    var tried := Trying(s, None);
    var sent := World(tried, NoRole, map[0 := Add(Viewer, NoRole)], 1, {});
    CallIsSent(s, CREATION, Unanswered(0) + rest);
    assert CREATION.wire[0 := Add(Viewer, NoRole)] == sent.wire;
    CallFails(s, sent, tried.o, 0, rest);
  }

  /** A removed employee can come back: a completed record, no membership, and an add from before still on its way. */
  lemma LateAdd(s: Setting)
    ensures var w := Run(s, CREATION, SENT + (Unanswered(0) + REMOVED));
            w.Some? && Finished(w.value) && w.value.role == NoRole && w.value.accepted == {} && 0 in w.value.wire
  {
    FirstIsLost(s, REMOVED);
    ThenRemoved(s, LostWorld(s), Unjoined(Trying(s, None).o));
  }

  // ---- Reports ----

  predicate ReadyOk(c: Client) {
    && (c.stored.Some? && c.stored.value.state == Ready ==> c.stored.value.completed)
    && (c.pc !in {Off, Locked} ==> (c.o.state == Ready ==> c.o.completed) && c.status == PENDING)
    && (c.pc == Locked ==> c.status == PENDING)
    && (c.pc == Completing ==> c.seen != NoRole)
    && (c.status.state == Ready ==> c.seen != NoRole)
  }

  /** "ready" is reported only by a call that read a membership: in its last read, which was true at that moment,
      or in the read that made it record the completion. */
  lemma ReadyMeansMember(s: Setting, w: World, l: Label)
    requires PcOk(w.client) && ReadyOk(w.client) && Step(s, w, l).Some? && l.Do?
    ensures var c := Step(s, w, l).value.client;
            && ReadyOk(c)
            && (w.client.pc != Off && c.pc == Off && c.status.state == Ready ==>
                  c.seen != NoRole && (l.event.Observe? ==> c.seen == w.role))
            && (w.client.pc != Completing && c.pc == Completing ==>
                  l.event.Observe? && c.seen == w.role && w.role != NoRole)
            && (Finished(Step(s, w, l).value) && !Finished(w) ==> w.client.pc == Completing)
  {
  }

  lemma {:induction false} ReadyOverRuns(s: Setting, w: World, labels: seq<Label>)
    requires PcOk(w.client) && ReadyOk(w.client) && Run(s, w, labels).Some?
    ensures PcOk(Run(s, w, labels).value.client) && ReadyOk(Run(s, w, labels).value.client)
    decreases |labels|
  {
    if labels != [] {
      var v := Step(s, w, labels[0]).value;
      PcOkStep(s, w, labels[0]);
      if labels[0].Do? {
        ReadyMeansMember(s, w, labels[0]);
      }
      ReadyOverRuns(s, v, labels[1..]);
    }
  }

  /** In every run from the start, the call that ends in "ready" has seen a membership that was there when it looked, or
      recorded the completion that a membership it saw called for. */
  lemma ReadyReports(s: Setting, labels: seq<Label>, l: Label)
    requires Run(s, CREATION, labels).Some? && l.Do?
    requires Step(s, Run(s, CREATION, labels).value, l).Some?
    ensures var w := Run(s, CREATION, labels).value;
            var c := Step(s, w, l).value.client;
            && (w.client.pc != Off && c.pc == Off && c.status.state == Ready ==>
                  c.seen != NoRole && (l.event.Observe? ==> c.seen == w.role))
            && (c.pc == Completing ==> c.seen != NoRole)
  {
    ReadyOverRuns(s, CREATION, labels);
    ReadyMeansMember(s, Run(s, CREATION, labels).value, l);
  }
}
