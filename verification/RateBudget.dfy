/** assistant/store.go Repository.Take: a per-user minute budget and a per-channel day budget, counted in fixed
    windows of one shared table. Times are in microseconds. */
module RateBudget {
  import opened Basics

  const MINUTE := 60_000_000
  const DAY := 86_400_000_000

  /** What a budget is for. `user` is the hashed user id. */
  datatype Scope = PerUser(channel: string, user: string) | PerChannel(channel: string)

  datatype Bucket = Bucket(scope: Scope, start: int)

  datatype Row = Row(used: int, expires: int)

  type Table = map<Bucket, Row>

  /** One call that asks for a place, with the transaction's timestamp and the limits it was given. */
  datatype Call = Call(channel: string, user: string, now: int, minute: int, day: int)

  datatype Window = Window(scope: Scope, limit: int)

  datatype Outcome = Admitted | Refused | Failed

  function Length(scope: Scope): int
    ensures Length(scope) > 0
  {
    if scope.PerUser? then MINUTE else DAY
  }

  /** The window of `scope` that contains `now`. */
  function BucketAt(scope: Scope, now: int): Bucket {
    Bucket(scope, now - now % Length(scope))
  }

  function Expiry(b: Bucket): int {
    b.start + Length(b.scope)
  }

  /** The two windows, in the order they are charged. */
  function Windows(c: Call): seq<Window> {
    [Window(PerUser(c.channel, c.user), c.minute), Window(PerChannel(c.channel), c.day)]
  }

  function Used(t: Table, b: Bucket): int {
    if b in t then t[b].used else 0
  }

  /** The upsert of one window. */
  function Charge(t: Table, b: Bucket): Table {
    t[b := Row(Used(t, b) + 1, if b in t then t[b].expires else Expiry(b))]
  }

  function Cleaned(t: Table, now: int): Table {
    map b | b in t && t[b].expires >= now - DAY :: t[b]
  }

  predicate Admits(t: Table, c: Call) {
    && Used(t, BucketAt(PerUser(c.channel, c.user), c.now)) + 1 <= c.minute
    && Used(t, BucketAt(PerChannel(c.channel), c.now)) + 1 <= c.day
  }

  /** The table after an admitted call. */
  function After(t: Table, c: Call): Table {
    Cleaned(Charge(Charge(t, BucketAt(PerUser(c.channel, c.user), c.now)), BucketAt(PerChannel(c.channel), c.now)),
            c.now)
  }

  /** The table after a history of admitted calls. */
  function TableOf(h: seq<Call>): Table {
    if h == [] then map[] else After(TableOf(h[..|h| - 1]), h[|h| - 1])
  }

  /** Every call of the history was admitted by the table it met. */
  predicate Lawful(h: seq<Call>) {
    h == [] || (Lawful(h[..|h| - 1]) && Admits(TableOf(h[..|h| - 1]), h[|h| - 1]))
  }

  // ---- Counting ----

  predicate Hits(c: Call, scope: Scope) {
    match scope
    case PerUser(channel, user) => c.channel == channel && c.user == user
    case PerChannel(channel) => c.channel == channel
  }

  /** The calls of the history for `scope` whose window numbers lie in a range. */
  function InWindows(h: seq<Call>, scope: Scope, first: int, last: int): nat {
    if h == [] then 0
    else
      var c := h[|h| - 1];
      InWindows(h[..|h| - 1], scope, first, last)
      + (if Hits(c, scope) && first <= c.now / Length(scope) <= last then 1 else 0)
  }

  function Between(h: seq<Call>, scope: Scope, from: int, to: int): nat {
    if h == [] then 0
    else
      var c := h[|h| - 1];
      Between(h[..|h| - 1], scope, from, to) + (if Hits(c, scope) && from <= c.now <= to then 1 else 0)
  }

  function Count(h: seq<Call>, b: Bucket): nat {
    InWindows(h, b.scope, b.start / Length(b.scope), b.start / Length(b.scope))
  }

  predicate Aligned(b: Bucket) {
    b.start % Length(b.scope) == 0
  }

  /** Call `j` was committed after a call counted in `b` and is so late that it cleans the bucket up. */
  predicate Forgets(h: seq<Call>, b: Bucket, i: int, j: int)
    requires 0 <= i < j < |h|
  {
    Counted(h[i], b) && h[j].now > Expiry(b) + DAY
  }

  predicate Counted(c: Call, b: Bucket) {
    Hits(c, b.scope) && b == BucketAt(b.scope, c.now)
  }

  /** Some counted call was followed by one more than a day past the end of the window. */
  ghost predicate Forgotten(h: seq<Call>, b: Bucket) {
    exists i, j :: 0 <= i < j < |h| && Forgets(h, b, i, j)
  }

  lemma WindowOf(scope: Scope, now: int)
    ensures var b := BucketAt(scope, now);
            Aligned(b) && b.start / Length(scope) == now / Length(scope) && b.start <= now < Expiry(b)
  {
    match scope {
      case PerUser(_, _) =>
        assert (now - now % MINUTE) % MINUTE == 0 && (now - now % MINUTE) / MINUTE == now / MINUTE;
      case PerChannel(_) =>
        assert (now - now % DAY) % DAY == 0 && (now - now % DAY) / DAY == now / DAY;
    }
  }

  lemma SameWindow(b: Bucket, now: int)
    requires Aligned(b)
    ensures b.start / Length(b.scope) == now / Length(b.scope) <==> b == BucketAt(b.scope, now)
  {
  }

  /** What a bucket in the table says at least. */
  lemma {:induction false} Bounded(h: seq<Call>, b: Bucket)
    requires Aligned(b)
    ensures b in TableOf(h) ==> TableOf(h)[b].expires == Expiry(b) && 1 <= TableOf(h)[b].used <= Count(h, b)
  {
    if h != [] {
      var front, c := h[..|h| - 1], h[|h| - 1];
      Bounded(front, b);
      SameWindow(b, c.now);
      ChargedTwice(TableOf(front), c, b);
    }
  }

  lemma {:induction false} CountedOrNot(h: seq<Call>, b: Bucket)
    requires Aligned(b)
    ensures Count(h, b) > 0 <==> exists i :: 0 <= i < |h| && Counted(h[i], b)
  {
    if h != [] {
      var front, c := h[..|h| - 1], h[|h| - 1];
      CountedOrNot(front, b);
      SameWindow(b, c.now);
      assert Count(h, b) == Count(front, b) + if Counted(c, b) then 1 else 0;
      if Count(front, b) > 0 {
        var i :| 0 <= i < |front| && Counted(front[i], b);
        assert Counted(h[i], b);
      }
      if Counted(c, b) { assert Counted(h[|h| - 1], b); }
      if i :| 0 <= i < |h| && Counted(h[i], b) {
        if i < |front| { assert Counted(front[i], b); }
      }
    }
  }

  /** One more call forgets a bucket exactly when it is late and there was something to forget. */
  lemma ForgottenNext(h: seq<Call>, b: Bucket)
    requires Aligned(b) && h != []
    ensures var front, c := h[..|h| - 1], h[|h| - 1];
            Forgotten(h, b) <==> Forgotten(front, b) || (c.now > Expiry(b) + DAY && Count(front, b) > 0)
  {
    var front, c := h[..|h| - 1], h[|h| - 1];
    CountedOrNot(front, b);
    if i, j :| 0 <= i < j < |h| && Forgets(h, b, i, j) {
      if j < |front| { assert Forgets(front, b, i, j); } else { assert Counted(front[i], b); }
    }
    if i, j :| 0 <= i < j < |front| && Forgets(front, b, i, j) { assert Forgets(h, b, i, j); }
    if c.now > Expiry(b) + DAY && Count(front, b) > 0 {
      var i :| 0 <= i < |front| && Counted(front[i], b);
      assert Forgets(h, b, i, |front|);
    }
  }

  /** A bucket holds exactly the number of committed calls in its window if and only if none of them was followed by a
      call more than a day past the end of the window. */
  lemma {:induction false} Exact(h: seq<Call>, b: Bucket)
    requires Aligned(b)
    ensures Used(TableOf(h), b) == Count(h, b) <==> !Forgotten(h, b)
  {
    if h != [] {
      var front, c := h[..|h| - 1], h[|h| - 1];
      Exact(front, b);
      Bounded(front, b);
      SameWindow(b, c.now);
      ChargedTwice(TableOf(front), c, b);
      ForgottenNext(h, b);
      if Counted(c, b) { WindowOf(b.scope, c.now); }
    }
  }

  // ---- Who is refused ----

  /** So many calls of this user on this channel were admitted in the minute of `c`. */
  function InMinute(h: seq<Call>, c: Call): nat {
    Between(h, PerUser(c.channel, c.user), c.now - c.now % MINUTE, c.now - c.now % MINUTE + MINUTE - 1)
  }

  /** And so many on this channel in its day. */
  function InDay(h: seq<Call>, c: Call): nat {
    Between(h, PerChannel(c.channel), c.now - c.now % DAY, c.now - c.now % DAY + DAY - 1)
  }

  lemma {:induction false} CountIsBetween(h: seq<Call>, b: Bucket)
    requires Aligned(b)
    ensures Count(h, b) == Between(h, b.scope, b.start, Expiry(b) - 1)
  {
    if h != [] {
      CountIsBetween(h[..|h| - 1], b);
      WindowHolds(b, h[|h| - 1].now);
    }
  }

  lemma WindowHolds(b: Bucket, now: int)
    requires Aligned(b)
    ensures b.start / Length(b.scope) == now / Length(b.scope) <==> b.start <= now < Expiry(b)
  {
    match b.scope {
      case PerUser(_, _) => assert b.start % MINUTE == 0;
      case PerChannel(_) => assert b.start % DAY == 0;
    }
  }

  /** The budget of the user's minute or of the channel's day is used up. */
  predicate UsedUp(h: seq<Call>, c: Call) {
    InMinute(h, c) >= c.minute || InDay(h, c) >= c.day
  }

  lemma WindowRefuses(h: seq<Call>, scope: Scope, now: int, limit: int)
    ensures var b := BucketAt(scope, now);
            && (Used(TableOf(h), b) + 1 > limit ==> Between(h, scope, b.start, Expiry(b) - 1) >= limit)
            && (Used(TableOf(h), b) + 1 <= limit && Between(h, scope, b.start, Expiry(b) - 1) >= limit ==>
                  Forgotten(h, b))
  {
    var b := BucketAt(scope, now);
    WindowOf(scope, now);
    CountIsBetween(h, b);
    Bounded(h, b);
    Exact(h, b);
  }

  /** Whoever is refused has used up a budget; and whoever has is refused, unless a call that ran a day behind made the
      table forget one of the two windows. */
  lemma RefusedExactly(h: seq<Call>, c: Call)
    ensures !Admits(TableOf(h), c) ==> UsedUp(h, c)
    ensures Admits(TableOf(h), c) && UsedUp(h, c) ==>
              || Forgotten(h, BucketAt(PerUser(c.channel, c.user), c.now))
              || Forgotten(h, BucketAt(PerChannel(c.channel), c.now))
  {
    WindowRefuses(h, PerUser(c.channel, c.user), c.now, c.minute);
    WindowRefuses(h, PerChannel(c.channel), c.now, c.day);
  }

  /** What one admitted call does to one bucket. */
  lemma ChargedTwice(t: Table, c: Call, b: Bucket)
    requires b in t ==> t[b].expires == Expiry(b)
    ensures var hit := Hits(c, b.scope) && b == BucketAt(b.scope, c.now);
            var kept := Expiry(b) >= c.now - DAY;
            && Used(After(t, c), b) == (if kept then Used(t, b) + (if hit then 1 else 0) else 0)
            && (b in After(t, c) <==> kept && (b in t || hit))
            && (b in After(t, c) ==> After(t, c)[b].expires == Expiry(b))
  {
  }

  // ---- Limits over windows and intervals ----

  /** No timestamp is more than `lag` microseconds before that of a call committed earlier. */
  predicate Lagging(h: seq<Call>, lag: int) {
    forall i, j :: 0 <= i < j < |h| ==> h[i].now <= h[j].now + lag
  }

  /** The largest lag that does no harm. */
  const MAX_LAG := DAY + 1

  /** Every call for `scope` was given at most this limit. */
  predicate Limited(h: seq<Call>, scope: Scope, limit: int) {
    forall i :: 0 <= i < |h| && Hits(h[i], scope) ==> (if scope.PerUser? then h[i].minute else h[i].day) <= limit
  }

  /** A call that is admitted to a window has not been preceded by one that forgot it. */
  lemma NotYetForgotten(h: seq<Call>, b: Bucket)
    requires h != [] && Lagging(h, MAX_LAG) && Counted(h[|h| - 1], b)
    ensures !Forgotten(h[..|h| - 1], b)
  {
    var front, c := h[..|h| - 1], h[|h| - 1];
    WindowOf(b.scope, c.now);
    forall i, j | 0 <= i < j < |front|
      ensures !Forgets(front, b, i, j)
    {
      assert h[j].now <= h[|h| - 1].now + MAX_LAG;
    }
  }

  /** No window ever holds more admitted calls than the limit. */
  lemma {:induction false} WindowWithinLimit(h: seq<Call>, b: Bucket, limit: nat)
    requires Aligned(b) && Lawful(h) && Lagging(h, MAX_LAG) && Limited(h, b.scope, limit)
    ensures Count(h, b) <= limit
  {
    if h != [] {
      var front, c := h[..|h| - 1], h[|h| - 1];
      assert forall i :: 0 <= i < |front| ==> front[i] == h[i];
      WindowWithinLimit(front, b, limit);
      SameWindow(b, c.now);
      if Counted(c, b) {
        NotYetForgotten(h, b);
        Exact(front, b);
        assert Hits(h[|h| - 1], b.scope);
      }
    }
  }

  lemma {:induction false} WindowsAdd(h: seq<Call>, scope: Scope, first: int, last: int)
    requires first <= last
    ensures InWindows(h, scope, first, last) == InWindows(h, scope, first, last - 1) + InWindows(h, scope, last, last)
  {
    if h != [] {
      WindowsAdd(h[..|h| - 1], scope, first, last);
    }
  }

  lemma {:induction false} NoWindows(h: seq<Call>, scope: Scope, first: int, last: int)
    requires last < first
    ensures InWindows(h, scope, first, last) == 0
  {
    if h != [] {
      NoWindows(h[..|h| - 1], scope, first, last);
    }
  }

  lemma {:induction false} RangeWithinLimit(h: seq<Call>, scope: Scope, first: int, n: nat, limit: nat)
    requires Lawful(h) && Lagging(h, MAX_LAG) && Limited(h, scope, limit)
    ensures InWindows(h, scope, first, first + n - 1) <= n * limit
    decreases n
  {
    if n == 0 {
      NoWindows(h, scope, first, first - 1);
    } else {
      var last := first + n - 1;
      RangeWithinLimit(h, scope, first, n - 1, limit);
      WindowsAdd(h, scope, first, last);
      var b := Bucket(scope, last * Length(scope));
      assert b.start / Length(scope) == last && Aligned(b);
      WindowWithinLimit(h, b, limit);
      assert n * limit == (n - 1) * limit + limit;
    }
  }

  lemma {:induction false} IntervalInWindows(h: seq<Call>, scope: Scope, from: int, to: int)
    ensures Between(h, scope, from, to) <= InWindows(h, scope, from / Length(scope), to / Length(scope))
  {
    if h != [] {
      IntervalInWindows(h[..|h| - 1], scope, from, to);
    }
  }

  function Ceil(n: nat, d: int): nat
    requires d > 0
  {
    (n + d - 1) / d
  }

  /** With fixed limits, any interval of length `span`, ends included, holds at most one window more than its length
      in windows, times the limit, of admitted calls. */
  lemma IntervalWithinLimit(h: seq<Call>, scope: Scope, from: int, span: nat, limit: nat)
    requires Lawful(h) && Lagging(h, MAX_LAG) && Limited(h, scope, limit)
    ensures Between(h, scope, from, from + span) <= (Ceil(span, Length(scope)) + 1) * limit
  {
    var first, last := from / Length(scope), (from + span) / Length(scope);
    WindowsSpanned(scope, from, span);
    var n := last - first + 1;
    IntervalInWindows(h, scope, from, from + span);
    RangeWithinLimit(h, scope, first, n, limit);
    TimesMonotone(n, Ceil(span, Length(scope)) + 1, limit);
  }

  lemma WindowsSpanned(scope: Scope, from: int, span: nat)
    ensures 0 <= (from + span) / Length(scope) - from / Length(scope) <= Ceil(span, Length(scope))
  {
    if scope.PerUser? {
      assert 0 <= (from + span) / MINUTE - from / MINUTE <= Ceil(span, MINUTE);
    } else {
      assert 0 <= (from + span) / DAY - from / DAY <= Ceil(span, DAY);
    }
  }

  lemma TimesMonotone(a: int, b: int, c: nat)
    requires a <= b
    ensures a * c <= b * c
  {
  }

  /** With this lag no history of admitted calls ever exceeds a limit in a window. */
  ghost predicate WindowsHold(lag: int) {
    forall h, b, limit: nat ::
      Aligned(b) && Lawful(h) && Lagging(h, lag) && Limited(h, b.scope, limit) ==> Count(h, b) <= limit
  }

  /** The limits hold in every window and every history exactly when timestamps run back by at most a day and a
      microsecond. */
  lemma WindowsHoldExactly(lag: int)
    ensures WindowsHold(lag) <==> lag <= MAX_LAG
  {
    if lag <= MAX_LAG {
      forall h, b, limit: nat | Aligned(b) && Lawful(h) && Lagging(h, lag) && Limited(h, b.scope, limit)
        ensures Count(h, b) <= limit
      {
        assert Lagging(h, MAX_LAG) by { SmallerLag(h, lag); }
        WindowWithinLimit(h, b, limit);
      }
    } else {
      LateCallExceeds(lag);
    }
  }

  lemma SmallerLag(h: seq<Call>, lag: int)
    requires Lagging(h, lag) && lag <= MAX_LAG
    ensures Lagging(h, MAX_LAG)
  {
    forall i, j | 0 <= i < j < |h|
      ensures h[i].now <= h[j].now + MAX_LAG
    {
      assert h[i].now <= h[j].now + lag;
    }
  }

  const FIRST := Call("c", "u", DAY - 1, 1, 1)       // at the end of a window
  const OTHER := Call("d", "v", 2 * DAY + 1, 1, 1)   // on another channel, just late enough to forget the window
  const WINDOW := Bucket(PerChannel("c"), 0)

  /** With a greater lag a call can come back to a window that is forgotten. */
  lemma LateCallExceeds(lag: int)
    requires lag > MAX_LAG
    ensures !WindowsHold(lag)
  {
    var h1 := [] + [FIRST];
    var h2 := h1 + [OTHER];
    var h := h2 + [FIRST];
    LateLawful();
    LateCount();
    forall i, j | 0 <= i < j < |h|
      ensures h[i].now <= h[j].now + lag
    {
      assert h[i] in {FIRST, OTHER} && h[j] in {FIRST, OTHER};
    }
    assert Lagging(h, lag) && Limited(h, WINDOW.scope, 1);
  }

  lemma LateCount()
    ensures Aligned(WINDOW) && Count((([] + [FIRST]) + [OTHER]) + [FIRST], WINDOW) == 2
  {
    Append([], FIRST);
    Append([] + [FIRST], OTHER);
    Append(([] + [FIRST]) + [OTHER], FIRST);
    assert (DAY - 1) / DAY == 0 && 0 % DAY == 0 && 0 / DAY == 0;
  }

  /** The first call is admitted, the second one cleans up after it, and so the first is admitted again. */
  lemma LateLawful()
    ensures Lawful((([] + [FIRST]) + [OTHER]) + [FIRST])
  {
    var h1 := [] + [FIRST];
    var h2 := h1 + [OTHER];
    Append([], FIRST);
    Append(h1, OTHER);
    Append(h2, FIRST);
    OtherUnused(PerUser("d", "v"));
    OtherUnused(PerChannel("d"));
    Gone(PerUser("c", "u"));
    Gone(PerChannel("c"));
  }

  lemma OtherUnused(scope: Scope)
    requires !Hits(FIRST, scope)
    ensures Used(TableOf([] + [FIRST]), BucketAt(scope, OTHER.now)) == 0
  {
    var b := BucketAt(scope, OTHER.now);
    Append([], FIRST);
    WindowOf(scope, OTHER.now);
    ChargedTwice(TableOf([]), FIRST, b);
  }

  lemma Gone(scope: Scope)
    requires Hits(FIRST, scope)
    ensures Used(TableOf(([] + [FIRST]) + [OTHER]), BucketAt(scope, FIRST.now)) == 0
  {
    var h1 := [] + [FIRST];
    var b := BucketAt(scope, FIRST.now);
    Append(h1, OTHER);
    WindowOf(scope, FIRST.now);
    Bounded(h1, b);
    FirstExpires(scope);
    ChargedTwice(TableOf(h1), OTHER, b);
  }

  /** The call at the end of a day is at the end of both its windows. */
  lemma FirstExpires(scope: Scope)
    ensures Expiry(BucketAt(scope, FIRST.now)) == DAY
  {
    match scope {
      case PerUser(_, _) => assert (DAY - 1) % MINUTE == MINUTE - 1;
      case PerChannel(_) => assert (DAY - 1) % DAY == DAY - 1;
    }
  }

  lemma Append(h: seq<Call>, c: Call)
    ensures TableOf(h + [c]) == After(TableOf(h), c)
    ensures Lawful(h + [c]) <==> Lawful(h) && Admits(TableOf(h), c)
    ensures forall b :: Count(h + [c], b) == Count(h, b)
              + (if Hits(c, b.scope) && c.now / Length(b.scope) == b.start / Length(b.scope) then 1 else 0)
  {
    assert (h + [c])[..|h + [c]| - 1] == h;
  }

  // ---- The transaction ----

  /** Where the database fails: before its `n`th statement, at the commit without effect, or in telling of a commit. */
  datatype Fault = Fine | Statement(n: nat) | NotCommitted | Unheard

  class Repository {
    var table: Table                     // the shared rate windows
    ghost var committed: seq<Call>       // the admitted calls, in commit order

    ghost predicate Valid()
      reads this
    {
      table == TableOf(committed) && Lawful(committed)
    }

    constructor ()
      ensures Valid() && committed == []
    {
      table, committed := map[], [];
    }

    /** The call holds the channel lock, so no other call for the channel runs meanwhile; nothing is visible before the
        commit. A failed call has changed nothing, unless its commit succeeded unheard. */
    method Take(c: Call, fault: Fault) returns (outcome: Outcome)
      requires Valid()
      modifies this
      ensures Valid()
      ensures outcome.Admitted? ==> Charges(c)
      ensures outcome.Refused? ==> Spares() && !Admits(old(table), c) && UsedUp(old(committed), c)
      ensures outcome.Failed? ==> Spares() || (fault.Unheard? && Charges(c))
      ensures fault.Fine? ==> (outcome.Admitted? <==> Admits(old(table), c)) && !outcome.Failed?
      ensures fault.Unheard? && Admits(old(table), c) ==> outcome.Failed? && Charges(c)
    {
      var tx: Table;
      outcome, tx := ChargeBoth(c, fault);
      ChargedBoth(table, c);
      RefusedExactly(committed, c);
      if !outcome.Admitted? { return; }
      if fault == Statement(2) { return Failed; }
      tx := Cleaned(tx, c.now);
      if fault.NotCommitted? { return Failed; }
      Append(committed, c);
      table := tx;
      committed := committed + [c];
      if fault.Unheard? { return Failed; }
    }

    /** The call was admitted and counts. */
    twostate predicate Charges(c: Call)
      reads this
    {
      Admits(old(table), c) && committed == old(committed) + [c] && table == After(old(table), c)
    }

    twostate predicate Spares()
      reads this
    {
      table == old(table) && committed == old(committed)
    }

    /** The loop over the two windows, on the transaction's own copy. */
    method ChargeBoth(c: Call, fault: Fault) returns (outcome: Outcome, tx: Table)
      ensures outcome.Admitted? ==> tx == Charged(table, c, 2) && Room(table, c, 0) && Room(table, c, 1)
      ensures outcome.Refused? ==> !Room(table, c, 0) || !Room(table, c, 1)
      ensures outcome.Failed? ==> fault.Statement?
    {
      tx := table;
      var statements: nat := 0;
      var windows := Windows(c);
      for i := 0 to |windows|
        invariant tx == Charged(table, c, i)
        invariant forall j :: 0 <= j < i ==> Room(table, c, j)
      {
        if fault == Statement(statements) { return Failed, tx; }
        var bucket := BucketAt(windows[i].scope, c.now);
        tx := Charge(tx, bucket);
        if tx[bucket].used > windows[i].limit { return Refused, tx; }
        statements := statements + 1;
      }
      outcome := Admitted;
    }
  }

  /** The staged table after the first `n` windows. */
  function Charged(t: Table, c: Call, n: nat): Table
    requires n <= 2
  {
    if n == 0 then t else Charge(Charged(t, c, n - 1), BucketAt(Windows(c)[n - 1].scope, c.now))
  }

  /** The `i`th window has room for one more. */
  predicate Room(t: Table, c: Call, i: nat)
    requires i < 2
  {
    Used(Charged(t, c, i), BucketAt(Windows(c)[i].scope, c.now)) + 1 <= Windows(c)[i].limit
  }

  /** The two windows do not disturb each other. */
  lemma ChargedBoth(t: Table, c: Call)
    ensures Cleaned(Charged(t, c, 2), c.now) == After(t, c)
    ensures Admits(t, c) <==> Room(t, c, 0) && Room(t, c, 1)
  {
    var user, channel := BucketAt(PerUser(c.channel, c.user), c.now), BucketAt(PerChannel(c.channel), c.now);
    assert Charged(t, c, 0) == t;
    assert Charged(t, c, 1) == Charge(t, user);
    assert Charged(t, c, 2) == Charge(Charge(t, user), channel);
    assert user != channel;
  }

  /** An admitted call counts once in each of its two windows and leaves
      both within its limits. */
  lemma AdmittedCounts(t: Table, c: Call, b: Bucket)
    requires Aligned(b) && (b in t ==> t[b].expires == Expiry(b)) && Expiry(b) >= c.now - DAY && Admits(t, c)
    ensures Used(After(t, c), b) == Used(t, b) + (if Counted(c, b) then 1 else 0)
    ensures Counted(c, b) ==>
              Used(After(t, c), b) <= (if b.scope.PerUser? then c.minute else c.day)
  {
    ChargedTwice(t, c, b);
  }
}
