/** The write-ahead intent discipline shared by document upload, knowledge-base creation
    and employee onboarding, for one non-idempotent remote write:
    store "outcome unknown", send one request, clear the mark only on a definitive
    rejection, and otherwise never send it again. */
module IntentLog {
  import opened Basics

  /** What is known about the write. */
  datatype Mark = Clear | Unknown | Settled

  /** Where the running process stands: nothing under way, marked but not sent, or sent and not answered. */
  datatype Stage = Ready | Armed | Waiting

  /** The memory of the only process that may hold the lock. */
  datatype Holder = Nobody | Holder(mark: Mark, stage: Stage)

  /** `stored` survives crashes; `flying` requests may still be executed; `landed` counts executions. */
  datatype Log = Log(stored: Mark, holder: Holder, flying: nat, landed: nat)

  /** Which parts of the environment contract are broken: `lies` lets a definitive rejection be
      returned for a request that was or will be executed, `forgets` lets the mark be cleared
      by something other than the answer to the request. */
  datatype Fault = Fault(lies: bool, forgets: bool)

  datatype Move =
    | Load | Crash | Arm | Save | Send | Land | Drop
    | Refuse | Lie | Settle | GiveUp | Forget | Skip

  const INITIAL := Log(Clear, Nobody, 0, 0)

  function Apply(f: Fault, a: Log, m: Move): Option<Log> {
    match m
    case Skip => Some(a)
    case Crash => Some(a.(holder := Nobody))
    case Land => if a.flying > 0 then Some(a.(flying := a.flying - 1, landed := a.landed + 1)) else None
    case Drop => if a.flying > 0 then Some(a.(flying := a.flying - 1)) else None
    case Load => if a.holder.Nobody? then Some(a.(holder := Holder(a.stored, Ready))) else None
    case _ => if a.holder.Nobody? then None else Act(f, a, m)
  }

  /** The moves of the process itself. */
  function Act(f: Fault, a: Log, m: Move): Option<Log>
    requires a.holder.Holder?
  {
    var h := a.holder;
    match m
    case Arm => if h == Holder(Clear, Ready) then Some(a.(holder := Holder(Unknown, Armed))) else None
    case Save => if h.stage.Waiting? then None else Some(a.(stored := h.mark))
    case Send =>
      if h == Holder(Unknown, Armed) && a.stored == Unknown
      then Some(a.(holder := Holder(Unknown, Waiting), flying := a.flying + 1)) else None
    case Refuse =>
      if h.stage.Waiting? && a.flying > 0
      then Some(a.(holder := Holder(Clear, Ready), flying := a.flying - 1)) else None
    case Lie =>
      if h.stage.Waiting? && f.lies then Some(a.(holder := Holder(Clear, Ready))) else None
    case GiveUp => if h.stage.Waiting? then Some(a.(holder := Holder(Unknown, Ready))) else None
    case Settle => if h.stage.Armed? then None else Some(a.(holder := Holder(Settled, Ready)))
    case Forget =>
      if h == Holder(Unknown, Ready) && f.forgets then Some(a.(holder := Holder(Clear, Ready))) else None
    case _ => None
  }

  /** The log after a run of moves, if every move was allowed. */
  function Replay(f: Fault, a: Log, moves: seq<Move>): Option<Log>
    decreases |moves|
  {
    if moves == [] then Some(a)
    else
      var b := Apply(f, a, moves[0]);
      if b.None? then None else Replay(f, b.value, moves[1..])
  }

  /** Nothing the process or the disk calls clear was ever executed or is still under way,
      and a settled mark is never contradicted by the process. */
  ghost predicate Safe(a: Log) {
    && a.landed + a.flying <= 1
    && (a.stored == Clear ==> a.landed + a.flying == 0)
    && (a.holder.Holder? ==>
          && (a.holder.mark == Clear || a.holder.stage == Armed ==> a.landed + a.flying == 0)
          && (a.holder.stage != Ready ==> a.holder.mark == Unknown)
          && (a.stored == Settled ==> a.holder == Holder(Settled, Ready)))
  }

  lemma SafeStep(f: Fault, a: Log, m: Move)
    requires !f.lies && !f.forgets
    requires Safe(a) && Apply(f, a, m).Some?
    ensures Safe(Apply(f, a, m).value)
    ensures a.stored == Settled ==> Apply(f, a, m).value.stored == Settled && m != Send
  {
  }

  lemma {:induction false} SafeRun(f: Fault, a: Log, moves: seq<Move>)
    requires !f.lies && !f.forgets && Safe(a)
    requires Replay(f, a, moves).Some?
    ensures Safe(Replay(f, a, moves).value)
    decreases |moves|
  {
    if moves != [] {
      SafeStep(f, a, moves[0]);
      SafeRun(f, Apply(f, a, moves[0]).value, moves[1..]);
    }
  }

  ghost predicate AlwaysAtMostOnce(f: Fault) {
    forall moves :: Replay(f, INITIAL, moves).Some? ==> Replay(f, INITIAL, moves).value.landed <= 1
  }

  /** The discipline gives at most one execution under exactly the two environment assumptions. */
  lemma AtMostOnceExactly(f: Fault)
    ensures AlwaysAtMostOnce(f) <==> !f.lies && !f.forgets
  {
    if !f.lies && !f.forgets {
      forall moves | Replay(f, INITIAL, moves).Some?
        ensures Replay(f, INITIAL, moves).value.landed <= 1
      {
        SafeRun(f, INITIAL, moves);
      }
    } else {
      var again := if f.lies then [Lie, Skip] else [GiveUp, Forget];
      var last: seq<Move> := ATTEMPT + [];
      var tail := again + last;
      var moves := [Load] + (ATTEMPT + tail);
      var loaded := Log(Clear, Holder(Clear, Ready), 0, 0);
      var once := Log(Unknown, Holder(Unknown, Waiting), 0, 1);
      Prepend(f, INITIAL, Load, ATTEMPT + tail);
      AttemptLands(f, loaded, tail);
      assert tail == [again[0]] + ([again[1]] + last);
      Prepend(f, once, again[0], [again[1]] + last);
      Prepend(f, Apply(f, once, again[0]).value, again[1], last);
      AttemptLands(f, Log(Unknown, Holder(Clear, Ready), 0, 1), []);
      assert Replay(f, INITIAL, moves).value.landed == 2;
    }
  }

  /** One complete attempt whose request is executed. */
  const ATTEMPT: seq<Move> := [Arm, Save, Send, Land]

  lemma AttemptLands(f: Fault, a: Log, rest: seq<Move>)
    requires a.holder == Holder(Clear, Ready)
    ensures Replay(f, a, ATTEMPT + rest)
         == Replay(f, a.(stored := Unknown, holder := Holder(Unknown, Waiting), landed := a.landed + 1), rest)
  {
    var sent := [Land] + rest;
    var saved := [Send] + sent;
    var armed := [Save] + saved;
    var b := a.(holder := Holder(Unknown, Armed));
    var c := b.(stored := Unknown);
    var d := c.(holder := Holder(Unknown, Waiting), flying := a.flying + 1);
    var e := a.(stored := Unknown, holder := Holder(Unknown, Waiting), landed := a.landed + 1);
    Then(f, a, Arm, b, armed);
    Then(f, b, Save, c, saved);
    Then(f, c, Send, d, sent);
    Then(f, d, Land, e, rest);
    assert ATTEMPT + rest == [Arm] + armed;
  }

  /** One move that leads from `a` to `b`. */
  lemma Then(f: Fault, a: Log, m: Move, b: Log, rest: seq<Move>)
    requires Apply(f, a, m) == Some(b)
    ensures Replay(f, a, [m] + rest) == Replay(f, b, rest)
  {
    Prepend(f, a, m, rest);
  }

  lemma Prepend(f: Fault, a: Log, m: Move, rest: seq<Move>)
    ensures Replay(f, a, [m] + rest)
         == (if Apply(f, a, m).None? then None else Replay(f, Apply(f, a, m).value, rest))
  {
    assert ([m] + rest)[1..] == rest;
  }

  /** What a move of the process does to the disk and to its own memory. */
  predicate Turns(m: Move, stored: Mark, h: Holder, stored': Mark, g: Holder) {
    && stored' == (if m.Save? && h.Holder? then h.mark else stored)
    && match m
       case Crash => g == Nobody
       case Load => h == Nobody && g == Holder(stored, Ready)
       case Save => h.Holder? && !h.stage.Waiting? && g == h
       case Arm => h == Holder(Clear, Ready) && g == Holder(Unknown, Armed)
       case Send => h == Holder(Unknown, Armed) && stored == Unknown && g == Holder(Unknown, Waiting)
       case Settle => h.Holder? && !h.stage.Armed? && g == Holder(Settled, Ready)
       case GiveUp => h.Holder? && h.stage.Waiting? && g == Holder(Unknown, Ready)
       case Refuse => h.Holder? && h.stage.Waiting? && g == Holder(Clear, Ready)
       case Lie => h.Holder? && h.stage.Waiting? && g == Holder(Clear, Ready)
       case Forget => h == Holder(Unknown, Ready) && g == Holder(Clear, Ready)
       case _ => m.Skip? && g == h
  }

  /** Such a turn, together with its effect on the remote side, is the move. */
  lemma TurnApplies(f: Fault, a: Log, b: Log, m: Move)
    requires Turns(m, a.stored, a.holder, b.stored, b.holder)
    requires b.landed == a.landed
    requires b.flying == a.flying + (if m.Send? then 1 else if m.Refuse? then -1 else 0)
    requires m.Lie? ==> f.lies
    requires m.Forget? ==> f.forgets
    ensures Apply(f, a, m) == Some(b)
  {
  }

  /** One move or two lead from `a` to `b`. */
  ghost predicate Leads(f: Fault, a: Log, m: seq<Move>, b: Log) {
    && 1 <= |m| <= 2
    && var first := Apply(f, a, m[0]);
       (if first.None? || |m| == 1 then first else Apply(f, first.value, m[1])) == Some(b)
  }

  lemma LeadsReplays(f: Fault, a: Log, m: seq<Move>, b: Log)
    requires Leads(f, a, m, b)
    ensures Replay(f, a, m) == Some(b)
  {
    var first := Apply(f, a, m[0]).value;
    if |m| == 2 {
      assert m == [m[0]] + [m[1]] && [m[1]] == [m[1]] + [];
      Prepend(f, a, m[0], [m[1]]);
      Prepend(f, first, m[1], []);
    } else {
      assert m == [m[0]] + [];
      Prepend(f, a, m[0], []);
    }
  }

  lemma SafeLeads(f: Fault, a: Log, m: seq<Move>, b: Log)
    requires !f.lies && !f.forgets && Safe(a) && Leads(f, a, m, b)
    ensures Safe(b)
  {
    LeadsReplays(f, a, m, b);
    SafeRun(f, a, m);
  }
}
