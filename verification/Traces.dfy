/** What a process did: the events of a step sequence, and before and after each where it stood and what it had sent. */
module Traces {
  import opened Basics

  datatype Point<C, R> = Point(at: C, sent: seq<R>)

  /** The requests sent after one more, if there is one. */
  function Told<R>(sent: seq<R>, request: Option<R>): seq<R> {
    if request.Some? then sent + [request.value] else sent
  }

  /** The event leads from one point to the next and accounts for what is sent in between. */
  ghost predicate StepOk<C, E, R>(next: (C, E) -> Option<C>, asked: (C, E) -> Option<R>, trace: seq<Point<C, R>>,
                                  events: seq<E>, i: nat)
    requires i < |events| < |trace|
  {
    && next(trace[i].at, events[i]) == Some(trace[i + 1].at)
    && trace[i + 1].sent == Told(trace[i].sent, asked(trace[i].at, events[i]))
  }

  /** `trace[i]` is the point before `events[i]`. */
  ghost predicate IsTrace<C, E, R>(next: (C, E) -> Option<C>, asked: (C, E) -> Option<R>, trace: seq<Point<C, R>>,
                                   events: seq<E>)
  {
    && |trace| == |events| + 1
    && forall i: nat {:trigger StepOk(next, asked, trace, events, i)} ::
         i < |events| ==> StepOk(next, asked, trace, events, i)
  }

  lemma Grows<C, E, R>(next: (C, E) -> Option<C>, asked: (C, E) -> Option<R>, trace: seq<Point<C, R>>, events: seq<E>,
                       e: E, p: Point<C, R>)
    requires IsTrace(next, asked, trace, events) && next(trace[|events|].at, e) == Some(p.at)
    requires p.sent == Told(trace[|events|].sent, asked(trace[|events|].at, e))
    ensures IsTrace(next, asked, trace + [p], events + [e])
  {
    var trace', events' := trace + [p], events + [e];
    forall i: nat | i < |events'|
      ensures StepOk(next, asked, trace', events', i)
    {
      if i < |events| { assert StepOk(next, asked, trace, events, i); }
    }
  }

  /** What was done from some point on. */
  lemma Suffix<C, E, R>(next: (C, E) -> Option<C>, asked: (C, E) -> Option<R>, trace: seq<Point<C, R>>,
                        events: seq<E>, n: nat)
    requires IsTrace(next, asked, trace, events) && n <= |events|
    ensures IsTrace(next, asked, trace[n..], events[n..])
  {
    var trace', events' := trace[n..], events[n..];
    forall i: nat | i < |events'|
      ensures StepOk(next, asked, trace', events', i)
    {
      assert StepOk(next, asked, trace, events, n + i);
    }
  }

  /** What was done determines the points in between. */
  lemma {:induction false} Same<C, E, R>(next: (C, E) -> Option<C>, asked: (C, E) -> Option<R>, a: seq<Point<C, R>>,
                                         b: seq<Point<C, R>>, events: seq<E>, more: seq<E>, n: nat)
    requires IsTrace(next, asked, a, events) && IsTrace(next, asked, b, more) && events <= more && a[0] == b[0]
    requires n <= |events|
    ensures a[n] == b[n]
    decreases n
  {
    if n > 0 {
      Same(next, asked, a, b, events, more, n - 1);
      assert StepOk(next, asked, a, events, n - 1) && StepOk(next, asked, b, more, n - 1);
    }
  }

  /** What a process has done that dies at some point. */
  lemma Interrupted<C, E, R>(next: (C, E) -> Option<C>, asked: (C, E) -> Option<R>, trace: seq<Point<C, R>>,
                             events: seq<E>, n: nat, stop: E, p: Point<C, R>)
    requires IsTrace(next, asked, trace, events) && n <= |events| && next(trace[n].at, stop) == Some(p.at)
    requires p.sent == Told(trace[n].sent, asked(trace[n].at, stop))
    ensures IsTrace(next, asked, trace[..n + 1] + [p], events[..n] + [stop])
  {
    var trace', events' := trace[..n + 1], events[..n];
    forall i: nat | i < |events'|
      ensures StepOk(next, asked, trace', events', i)
    {
      assert StepOk(next, asked, trace, events, i);
    }
    Grows(next, asked, trace', events', stop, p);
  }
}
