/** What the call that records the completion knows, and exactly when that makes the completion final: from then on
    only an Owner changes the employee's role. */
module OnboardingCompletion {
  import opened Basics
  import opened Onboarding
  import opened OnboardingRoles
  import IntentLog

  /** What the current call has seen for itself: whether it found the record unknown, and the answer to the add it sent,
      if it sent one. */
  datatype Facts = Facts(unknown: bool, sent: Option<Answer>)

  const NOTHING_KNOWN := Facts(false, None)

  /** A run together with what the current call knows. */
  datatype Watched = Watched(w: World, f: Facts)

  const START := Watched(CREATION, NOTHING_KNOWN)

  predicate UnknownIn(c: Client) {
    c.stored.Some? && c.stored.value.unknown
  }

  /** What the call knows after one more step. */
  function Note(w: World, f: Facts, l: Label): Facts {
    if l.Do? && l.event.Lock? then Facts(UnknownIn(w.client), None)
    else if l.Do? && l.event.Got? then f.(sent := Some(l.event.answer))
    else f
  }

  function Look(s: Setting, o: Watched, l: Label): Option<Watched> {
    var next := Step(s, o.w, l);
    if next.None? then None else Some(Watched(next.value, Note(o.w, o.f, l)))
  }

  function Watch(s: Setting, o: Watched, labels: seq<Label>): Option<Watched>
    decreases |labels|
  {
    if labels == [] then Some(o)
    else
      var next := Look(s, o, labels[0]);
      if next.None? then None else Watch(s, next.value, labels[1..])
  }

  /** Watching changes nothing. */
  lemma {:induction false} WatchIsRun(s: Setting, o: Watched, labels: seq<Label>)
    ensures Run(s, o.w, labels)
         == (if Watch(s, o, labels).None? then None else Some(Watch(s, o, labels).value.w))
    decreases |labels|
  {
    if labels != [] && Look(s, o, labels[0]).Some? {
      WatchIsRun(s, Look(s, o, labels[0]).value, labels[1..]);
    }
  }

  /** The call found that nothing was sent before or that it was rejected, and its own add, if it sent one, was
      accepted or definitively rejected. */
  predicate Certain(f: Facts) {
    !f.unknown && (f.sent.None? || f.sent.value.Accepted? || Definitive(f.sent.value.status))
  }

  /** A call that finds the record unknown sends nothing. */
  predicate Possible(f: Facts) {
    f.unknown ==> f.sent.None?
  }

  /** The call that saves the completion in the last step of a run from the start knows `f`; `y` is the world then. */
  ghost predicate CompletedKnowing(s: Setting, labels: seq<Label>, f: Facts, y: World) {
    var o := Watch(s, START, labels);
    o.Some? && o.value.f == f && o.value.w.client.pc == Completing && Step(s, o.value.w, Do(Save, false)) == Some(y)
  }

  /** After a completion with this knowledge only Owners change the role, in every run and every continuation. */
  ghost predicate Final(s: Setting, f: Facts) {
    forall labels, y, more :: CompletedKnowing(s, labels, f, y) && Run(s, y, more).Some? ==>
      Run(s, y, more).value.role == Given(y.role, more)
  }

  // ---- What a call knows at each point of the code ----

  predicate PossibleHere(o: Watched) {
    match o.w.client.pc
    case Off => true
    case Locked => o.f == Facts(UnknownIn(o.w.client), None)
    case Marking => !o.f.unknown
    case Posting => !o.f.unknown
    case Awaiting => !o.f.unknown
    case _ => Possible(o.f)
  }

  lemma PossibleStep(s: Setting, o: Watched, l: Label)
    requires PossibleHere(o) && Look(s, o, l).Some?
    ensures PossibleHere(Look(s, o, l).value)
  {
  }

  lemma {:induction false} PossibleReach(s: Setting, o: Watched, labels: seq<Label>, v: Watched)
    requires PossibleHere(o) && Watch(s, o, labels) == Some(v)
    ensures PossibleHere(v)
    decreases |labels|
  {
    if labels == [] {
      assert v == o;
    } else {
      PossibleStep(s, o, labels[0]);
      PossibleReach(s, Look(s, o, labels[0]).value, labels[1..], v);
    }
  }

  /** There is no other completion. */
  lemma AlwaysPossible(s: Setting, labels: seq<Label>, f: Facts, y: World)
    requires CompletedKnowing(s, labels, f, y)
    ensures Possible(f)
  {
    PossibleReach(s, START, labels, Watch(s, START, labels).value);
  }

  // ---- Certain completions are final ----

  /** A call that is certain and about to report has nothing on its way. */
  ghost predicate NothingLeft(o: Watched) {
    (o.w.client.pc == Rereading || o.w.client.pc == Completing) && Certain(o.f) ==> |o.w.wire| == 0
  }

  /** A safe log that is clear or has an execution behind it has nothing on its way. */
  lemma NothingFlies(a: IntentLog.Log)
    requires IntentLog.Safe(a)
    requires a.stored.Clear? || a.landed > 0 || (a.holder.Holder? && a.holder.mark.Clear?)
    ensures a.flying == 0
  {
  }

  lemma ReadLeft(s: Setting, o: Watched, p: Principal, discarded: bool, v: Watched)
    requires IntentLog.Safe(View(o.w)) && PossibleHere(o) && o.w.client.pc == Locked
    requires Look(s, o, Do(Observe(p), discarded)) == Some(v)
    ensures NothingLeft(v)
  {
    ReadsClear(s, o, p, discarded, v);
    if v.w.client.pc == Completing && !o.f.unknown {
      NothingFlies(View(o.w));
    }
  }

  lemma ReadsClear(s: Setting, o: Watched, p: Principal, discarded: bool, v: Watched)
    requires o.w.client.pc == Locked && Look(s, o, Do(Observe(p), discarded)) == Some(v)
    ensures v.f == o.f && v.w.wire == o.w.wire && v.w.client.pc != Rereading
    ensures v.w.client.pc == Completing && !UnknownIn(o.w.client) ==> StoredMark(o.w.client).Clear?
  {
  }

  lemma AnswerLeft(s: Setting, o: Watched, answer: Answer, discarded: bool, v: Watched)
    requires !AnyDefinitive(s.lies) && IntentLog.Safe(View(v.w)) && PcOk(o.w.client)
    requires Look(s, o, Do(Got(answer), discarded)) == Some(v)
    ensures NothingLeft(v)
  {
    AnswerClears(s, o, answer, discarded, v);
    if answer.Accepted? || Definitive(answer.status) {
      NothingFlies(View(v.w));
    }
  }

  lemma AnswerClears(s: Setting, o: Watched, answer: Answer, discarded: bool, v: Watched)
    requires PcOk(o.w.client) && Look(s, o, Do(Got(answer), discarded)) == Some(v)
    ensures v.f == o.f.(sent := Some(answer))
    ensures answer.Accepted? ==> |v.w.accepted| > 0
    ensures answer.Failed? && Definitive(answer.status) ==>
              View(v.w).holder == IntentLog.Holder(IntentLog.Clear, IntentLog.Ready)
  {
    if answer.Accepted? { assert o.w.sent - 1 in v.w.accepted; }
  }

  lemma OtherLeft(s: Setting, o: Watched, l: Label, v: Watched)
    requires NothingLeft(o) && Look(s, o, l) == Some(v)
    requires l.Do? ==> !l.event.Got? && !(l.event.Observe? && o.w.client.pc == Locked)
    ensures NothingLeft(v)
  {
  }

  lemma LeftStep(s: Setting, o: Watched, l: Label, v: Watched)
    requires !AnyDefinitive(s.lies) && IntentLog.Safe(View(o.w)) && IntentLog.Safe(View(v.w))
    requires PcOk(o.w.client) && PossibleHere(o) && NothingLeft(o) && Look(s, o, l) == Some(v)
    ensures NothingLeft(v)
  {
    match l
    case Do(Got(answer), discarded) => AnswerLeft(s, o, answer, discarded, v);
    case Do(Observe(p), discarded) =>
      if o.w.client.pc == Locked { ReadLeft(s, o, p, discarded, v); } else { OtherLeft(s, o, l, v); }
    case _ => OtherLeft(s, o, l, v);
  }

  lemma {:induction false} LeftReach(s: Setting, o: Watched, labels: seq<Label>, v: Watched)
    requires !AnyDefinitive(s.lies) && Inv(o.w) && PossibleHere(o) && NothingLeft(o) && Watch(s, o, labels) == Some(v)
    ensures PcOk(v.w.client) && NothingLeft(v)
    decreases |labels|
  {
    if labels == [] {
      assert v == o;
    } else {
      var next := Look(s, o, labels[0]).value;
      InvStep(s, o.w, labels[0]);
      PossibleStep(s, o, labels[0]);
      LeftStep(s, o, labels[0], next);
      LeftReach(s, next, labels[1..], v);
    }
  }

  lemma CompletionIsSaved(s: Setting, x: World, y: World)
    requires PcOk(x.client) && x.client.pc == Completing && Step(s, x, Do(Save, false)) == Some(y)
    ensures PcOk(y.client) && Finished(y) && y.wire == x.wire
  {
  }

  lemma EmptyWire(w: World)
    requires |w.wire| == 0
    ensures w.wire == map[]
  {
  }

  lemma CertainIsFinal(s: Setting, f: Facts, labels: seq<Label>, y: World, more: seq<Label>)
    requires !AnyDefinitive(s.lies) && Certain(f)
    requires CompletedKnowing(s, labels, f, y) && Run(s, y, more).Some?
    ensures Run(s, y, more).value.role == Given(y.role, more)
  {
    var o := Watch(s, START, labels).value;
    LeftReach(s, START, labels, o);
    CompletionIsSaved(s, o.w, y);
    EmptyWire(y);
    RoleIsGiven(s, y, more);
  }

  // ---- The others are not ----

  /** One label that leads from `o` to `v`. */
  lemma Sees(s: Setting, o: Watched, l: Label, v: Watched, rest: seq<Label>)
    requires Look(s, o, l) == Some(v)
    ensures Watch(s, o, [l] + rest) == Watch(s, v, rest)
  {
    assert ([l] + rest)[1..] == rest;
  }

  lemma {:induction false} SeesAll(s: Setting, o: Watched, a: seq<Label>, v: Watched, rest: seq<Label>)
    requires Watch(s, o, a) == Some(v)
    ensures Watch(s, o, a + rest) == Watch(s, v, rest)
    decreases |a|
  {
    if a == [] {
      assert a + rest == rest;
    } else {
      var next := Look(s, o, a[0]).value;
      assert a + rest == [a[0]] + (a[1..] + rest);
      Sees(s, o, a[0], next, a[1..] + rest);
      SeesAll(s, next, a[1..], v, rest);
    }
  }

  lemma SeesThree(s: Setting, o: Watched, a: Label, o1: Watched, b: Label, o2: Watched, c: Label, o3: Watched)
    requires Look(s, o, a) == Some(o1) && Look(s, o1, b) == Some(o2) && Look(s, o2, c) == Some(o3)
    ensures Watch(s, o, [a, b, c]) == Some(o3)
  {
    assert [a, b, c] == [a] + ([b] + ([c] + []));
    Sees(s, o, a, o1, [b] + ([c] + []));
    Sees(s, o1, b, o2, [c] + []);
    Sees(s, o2, c, o3, []);
  }

  const LOCK := Do(Lock(true, true), false)
  const SEE_NONE := Do(Observe(Principal("u", NoRole)), false)
  const SEE_MEMBER := Do(Observe(Principal("u", Viewer)), false)

  /** The world in which the add of `w` has been sent. */
  function SentFrom(s: Setting, w: World): World {
    World(Trying(s, w.client.stored), NoRole, w.wire[w.sent := Add(Viewer, NoRole)], w.sent + 1, w.accepted)
  }

  /** A call that sends the add knows that it found the record not unknown. */
  lemma SendKnows(s: Setting, o: Watched)
    requires o.w.client.pc == Off && o.w.role == NoRole && Free(s, o.w.client.stored)
    ensures Watch(s, o, SENT) == Some(Watched(SentFrom(s, o.w), Facts(false, None)))
  {
    var w, f := o.w, Facts(false, None);
    var tried := Trying(s, w.client.stored);
    var locked := Client(w.client.stored, NOBODY, NoRole, true, true, Locked, PENDING);
    var marking := locked.(o := tried.o, pc := Marking);
    var sent := Watched(SentFrom(s, w), f);
    Reads(s, w);
    Sends(s, w);
    SeesThree(s, o, LOCK, Watched(w.(client := locked), f), SEE_NONE, Watched(w.(client := marking), f),
              Do(Save, false), Watched(w.(client := tried.(pc := Posting)), f));
    SeesAll(s, o, [LOCK, SEE_NONE, Do(Save, false)], Watched(w.(client := tried.(pc := Posting)), f),
        [Do(Post, false)] + []);
    Sees(s, Watched(w.(client := tried.(pc := Posting)), f), Do(Post, false), sent, []);
    assert SENT == [LOCK, SEE_NONE, Do(Save, false)] + ([Do(Post, false)] + []);
  }

  /** The client after a failure it could not read past. */
  lemma FailureKnows(s: Setting, o: Watched, r: Record, status: int)
    requires o.w.client == Client(Some(r), r, NoRole, true, true, Awaiting, PENDING) && !r.completed
    requires Definitive(status) ==> status in s.lies
    ensures Watch(s, o, Unanswered(status))
         == Some(Watched(o.w.(client := AfterFailure(r, status)), o.f.(sent := Some(Failed(status)))))
  {
    var left := if Definitive(status) then r.(unknown := false) else r;
    var rereading := o.w.client.(o := left, pc := Rereading);
    var failing := rereading.(o := Unjoined(left), pc := Failing);
    var f := o.f.(sent := Some(Failed(status)));
    FailureSteps(s, o.w, status);
    FailureSaved(s, o.w.(client := failing), r, status);
    SeesThree(s, o, Do(Got(Failed(status)), false), Watched(o.w.(client := rereading), f),
              Do(Observe(Unreachable), false), Watched(o.w.(client := failing), f),
              Do(Save, false), Watched(o.w.(client := AfterFailure(r, status)), f));
  }

  /** A call that sends the add and is told of a failure. */
  function Lost(status: int): seq<Label> {
    SENT + Unanswered(status)
  }

  /** The world it leaves when it is the first call: the add is still on its way. */
  function AfterLost(s: Setting, status: int): World {
    SentFrom(s, CREATION).(client := AfterFailure(Trying(s, None).o, status))
  }

  lemma LostLeaves(s: Setting, status: int)
    requires Definitive(status) ==> status in s.lies
    ensures Watch(s, START, Lost(status))
         == Some(Watched(AfterLost(s, status), Facts(false, Some(Failed(status)))))
  {
    SendKnows(s, START);
    SeesAll(s, START, SENT, Watched(SentFrom(s, CREATION), Facts(false, None)), Unanswered(status));
    FailureKnows(s, Watched(SentFrom(s, CREATION), Facts(false, None)), Trying(s, None).o, status);
  }

  /** An Owner adds the employee, and the next call reads the membership. */
  const REJOIN: seq<Label> := [Owner(Viewer), LOCK, SEE_MEMBER]

  lemma RejoinKnows(s: Setting, o: Watched, r: Record)
    requires o.w.client.pc == Off && o.w.client.stored == Some(r)
    requires r.user == "u" && r.tenant == s.tenant && !r.completed
    ensures var completing := Client(Some(r), Completed(r), Viewer, true, true, Completing, PENDING);
            Watch(s, o, REJOIN)
            == Some(Watched(o.w.(role := Viewer, client := completing), Facts(r.unknown, None)))
  {
    var given := o.w.(role := Viewer);
    var f := Facts(r.unknown, None);
    CompletingSteps(s, given, r);
    SeesThree(s, o, Owner(Viewer), Watched(given, o.f), LOCK,
              Watched(given.(client := Client(Some(r), NOBODY, NoRole, true, true, Locked, PENDING)), f),
              SEE_MEMBER,
              Watched(given.(client := Client(Some(r), Completed(r), Viewer, true, true, Completing, PENDING)), f));
  }

  /** The answer to an add, an Owner who adds the employee, and the reading of the membership. */
  function Answered(answer: Answer, discarded: bool): seq<Label> {
    [Do(Got(answer), discarded), Owner(Viewer), SEE_MEMBER]
  }

  lemma AnswerKnows(s: Setting, o: Watched, r: Record, answer: Answer, discarded: bool)
    requires o.w.client == Client(Some(r), r, NoRole, true, true, Awaiting, PENDING) && r.user == "u" && !r.completed
    requires Honest(s, o.w, answer, discarded)
    ensures var v := Watch(s, o, Answered(answer, discarded));
            && v.Some? && v.value.f == o.f.(sent := Some(answer)) && v.value.w.client.pc == Completing
            && v.value.w.role == Viewer
            && v.value.w.wire == (if discarded then o.w.wire - {o.w.sent - 1} else o.w.wire)
  {
    var told := Look(s, o, Do(Got(answer), discarded)).value;
    var given := told.(w := told.w.(role := Viewer));
    SeesThree(s, o, Do(Got(answer), discarded), told, Owner(Viewer), given, SEE_MEMBER,
        Look(s, given, SEE_MEMBER).value);
  }

  lemma OwnersLast(role: Role, l: Label)
    requires !l.Owner?
    ensures Given(role, [Owner(NoRole)] + ([l] + [])) == NoRole
  {
    var more, rest := [Owner(NoRole)] + ([l] + []), [l] + [];
    assert more[1..] == rest && rest[1..] == [];
    assert Given(NoRole, rest) == Given(NoRole, rest[1..]);
  }

  /** A completion with the first add still on its way: an Owner removes the employee, and the add is executed. */
  lemma Returns(s: Setting, labels: seq<Label>, x: Watched)
    requires Watch(s, START, labels) == Some(x) && x.w.client.pc == Completing
    requires 0 in x.w.wire && x.w.wire[0].role == Viewer
    ensures !Final(s, x.f)
  {
    var y := Step(s, x.w, Do(Save, false)).value;
    var more := [Owner(NoRole)] + ([Execute(0)] + []);
    var removed := y.(role := NoRole);
    TwoSteps(s, y, Owner(NoRole), removed, Execute(0), Step(s, removed, Execute(0)).value, []);
    OwnersLast(y.role, Execute(0));
    assert CompletedKnowing(s, labels, x.f, y);
  }

  /** The call found the record unknown. */
  lemma FoundUnknown(s: Setting)
    ensures !Final(s, Facts(true, None))
  {
    var o := Watched(AfterLost(s, 0), Facts(false, Some(Failed(0))));
    LostLeaves(s, 0);
    RejoinKnows(s, o, o.w.client.stored.value);
    SeesAll(s, START, Lost(0), o, REJOIN);
    Returns(s, Lost(0) + REJOIN, Watch(s, o, REJOIN).value);
  }

  /** The call sent an add that failed without a definitive status: that add is the one on its way. */
  lemma OwnUncertain(s: Setting, status: int)
    requires !Definitive(status)
    ensures !Final(s, Facts(false, Some(Failed(status))))
  {
    var o := Watched(SentFrom(s, CREATION), Facts(false, None));
    SendKnows(s, START);
    AnswerKnows(s, o, Trying(s, None).o, Failed(status), false);
    SeesAll(s, START, SENT, o, Answered(Failed(status), false));
    Returns(s, SENT + Answered(Failed(status), false), Watch(s, o, Answered(Failed(status), false)).value);
  }

  /** A rejection that was a lie leaves the first add on its way; then no later knowledge helps. */
  lemma LiedBefore(s: Setting, status: int, f: Facts)
    requires Definitive(status) && status in s.lies && Certain(f)
    ensures !Final(s, f)
  {
    var o := Watched(AfterLost(s, status), Facts(false, Some(Failed(status))));
    LostLeaves(s, status);
    if f.sent.None? {
      LiedThenRead(s, Lost(status), o);
    } else {
      SendKnows(s, o);
      SeesAll(s, START, Lost(status), o, SENT);
      LiedThenSent(s, Lost(status) + SENT, Watched(SentFrom(s, o.w), Facts(false, None)), f.sent.value);
    }
  }

  lemma LiedThenRead(s: Setting, labels: seq<Label>, o: Watched)
    requires Watch(s, START, labels) == Some(o) && o.w.client.pc == Off && o.w.client.stored.Some?
    requires var r := o.w.client.stored.value; r.user == "u" && r.tenant == s.tenant && !r.completed && !r.unknown
    requires 0 in o.w.wire && o.w.wire[0].role == Viewer
    ensures !Final(s, Facts(false, None))
  {
    RejoinKnows(s, o, o.w.client.stored.value);
    SeesAll(s, START, labels, o, REJOIN);
    Returns(s, labels + REJOIN, Watch(s, o, REJOIN).value);
  }

  lemma LiedThenSent(s: Setting, labels: seq<Label>, o: Watched, answer: Answer)
    requires Watch(s, START, labels) == Some(o) && o.f == Facts(false, None)
    requires o.w.client.stored.Some? && o.w.client.stored.value.user == "u" && !o.w.client.stored.value.completed
    requires o.w.client == Client(o.w.client.stored, o.w.client.stored.value, NoRole, true, true, Awaiting, PENDING)
    requires o.w.role == NoRole && o.w.sent == 2 && 0 in o.w.wire && o.w.wire[0].role == Viewer
    requires 1 in o.w.wire && o.w.wire[1].role == Viewer
    requires answer.Accepted? || Definitive(answer.status)
    ensures !Final(s, Facts(false, Some(answer)))
  {
    var r := o.w.client.stored.value;
    if answer.Accepted? {
      var landed := Look(s, o, Execute(1)).value;
      assert Watch(s, o, [Execute(1)]) == Some(landed) by { Sees(s, o, Execute(1), landed, []); }
      SeesAll(s, START, labels, o, [Execute(1)]);
      AnswerKnows(s, landed, r, answer, false);
      SeesAll(s, START, labels + [Execute(1)], landed, Answered(answer, false));
      Returns(s, labels + [Execute(1)] + Answered(answer, false), Watch(s, landed, Answered(answer, false)).value);
    } else {
      AnswerKnows(s, o, r, answer, true);
      SeesAll(s, START, labels, o, Answered(answer, true));
      Returns(s, labels + Answered(answer, true), Watch(s, o, Answered(answer, true)).value);
    }
  }

  /** A completion is final exactly when rejections do not lie and the call that records it found the record not unknown
      and sent nothing, or an add that was accepted or definitively rejected. */
  lemma FinalExactly(s: Setting, f: Facts)
    requires Possible(f)
    ensures Final(s, f) <==> Certain(f) && !AnyDefinitive(s.lies)
  {
    if Certain(f) && !AnyDefinitive(s.lies) {
      forall labels, y, more | CompletedKnowing(s, labels, f, y) && Run(s, y, more).Some?
        ensures Run(s, y, more).value.role == Given(y.role, more)
      {
        CertainIsFinal(s, f, labels, y, more);
      }
    } else if f.unknown {
      FoundUnknown(s);
    } else if !Certain(f) {
      OwnUncertain(s, f.sent.value.status);
    } else {
      var status :| status in s.lies && Definitive(status);
      LiedBefore(s, status, f);
    }
  }
}
