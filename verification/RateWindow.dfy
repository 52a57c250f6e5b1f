/** The window of http.go: each user's events of the last minute, in place of the log of all of them. */
module RateWindow {
  import opened Text

  const MINUTE := 60_000_000_000 // nanoseconds

  type Log = map<string, seq<int>>

  function Of(log: Log, user: string): seq<int> { if user in log then log[user] else [] }

  /** The events less than a minute old. */
  function Recent(times: seq<int>, now: int): (r: seq<int>)
    ensures |r| <= |times|
  {
    if times == [] then []
    else
      var t := times[|times| - 1];
      Recent(times[..|times| - 1], now) + if now - t < MINUTE then [t] else []
  }

  lemma RecentMore(times: seq<int>, t: int, now: int)
    ensures Recent(times + [t], now) == Recent(times, now) + if now - t < MINUTE then [t] else []
  {
    assert (times + [t])[..|times|] == times;
  }

  /** What was forgotten at one time does not count later either. */
  lemma {:induction false} RecentTwice(times: seq<int>, now: int, later: int)
    requires now <= later
    ensures Recent(Recent(times, now), later) == Recent(times, later)
  {
    if times != [] {
      var n := |times| - 1;
      RecentTwice(times[..n], now, later);
      if now - times[n] < MINUTE {
        RecentMore(Recent(times[..n], now), times[n], later);
      } else {
        Unit(Recent(times[..n], now));
        Unit(Recent(times[..n], later));
      }
    }
  }

  /** In order, and none after the clock. */
  predicate Ordered(times: seq<int>, clock: int) {
    times == [] || (times[|times| - 1] <= clock && Ordered(times[..|times| - 1], times[|times| - 1]))
  }

  lemma {:induction false} OrderedLater(times: seq<int>, clock: int, later: int)
    requires Ordered(times, clock) && clock <= later
    ensures Ordered(times, later)
  {
  }

  lemma {:induction false} RecentOrdered(times: seq<int>, clock: int, now: int)
    requires Ordered(times, clock)
    ensures Ordered(Recent(times, now), clock)
  {
    if times != [] {
      var n := |times| - 1;
      RecentOrdered(times[..n], times[n], now);
      var r := Recent(times[..n], now);
      if now - times[n] < MINUTE {
        assert (r + [times[n]])[..|r|] == r;
      } else {
        Unit(r);
        OrderedLater(r, times[n], clock);
      }
    }
  }

  /** When the last event is a minute old, they all are. */
  lemma {:induction false} StaleIsEmpty(times: seq<int>, clock: int, now: int)
    requires Ordered(times, clock) && now - clock >= MINUTE
    ensures Recent(times, now) == []
  {
    if times != [] { StaleIsEmpty(times[..|times| - 1], times[|times| - 1], now); }
  }

  // ---- The operations ----

  /** The window: swept is nothing before the first add. */
  datatype State = State(m: Log, swept: Option<int>)

  function Counted(s: State, user: string, now: int): State {
    var recent := Recent(Of(s.m, user), now);
    s.(m := if recent == [] then s.m - {user} else s.m[user := recent])
  }

  predicate Stale(times: seq<int>, now: int) { |times| == 0 || now - times[|times| - 1] >= MINUTE }

  function Swept(m: Log, now: int): Log { map user | user in m && !Stale(m[user], now) :: m[user] }

  predicate SweepDue(s: State, now: int) { s.swept.None? || now - s.swept.value > MINUTE }

  /** add: the clock is read for the sweep, and again for the event. */
  function Added(s: State, user: string, now: int, stamp: int): State {
    var m := if SweepDue(s, now) then Swept(s.m, now) else s.m;
    State(m[user := Of(m, user) + [stamp]], if SweepDue(s, now) then Some(now) else s.swept)
  }

  class Window {
    var m: Log
    var swept: Option<int>

    constructor ()
      ensures Now() == State(map[], None)
    {
      m, swept := map[], None;
    }

    function Now(): State
      reads this
    {
      State(m, swept)
    }

    /** The events that still count, moved to the front of the same slice. */
    method Compact(a: array<int>, now: int) returns (n: nat)
      modifies a
      ensures n <= a.Length && a[..n] == Recent(old(a[..]), now)
    {
      n := 0;
      ghost var all := a[..];
      for i := 0 to a.Length
        invariant n <= i && a[..n] == Recent(all[..i], now) && a[i..] == all[i..]
      {
        assert a[i] == a[i..][0] == all[i];
        assert all[..i + 1] == all[..i] + [all[i]];
        RecentMore(all[..i], all[i], now);
        var t := a[i];
        if now - t < MINUTE {
          ghost var front, back := a[..n], a[i + 1..];
          a[n] := t;
          n := n + 1;
          assert a[..n] == front + [t];
          assert a[i + 1..] == back;
        }
        assert all[i + 1..] == all[i..][1..];
      }
      assert all[..a.Length] == all;
    }

    method Count(user: string, now: int) returns (n: nat)
      modifies this`m
      ensures Now() == Counted(old(Now()), user, now) && n == |Recent(Of(old(m), user), now)|
    {
      var times := Of(m, user);
      var a := new int[|times|](i requires 0 <= i < |times| => times[i]);
      assert a[..] == times;
      n := Compact(a, now);
      if n == 0 { m := m - {user}; } else { m := m[user := a[..n]]; }
    }

    method Add(user: string, now: int, stamp: int)
      modifies this
      ensures Now() == Added(old(Now()), user, now, stamp)
    {
      if SweepDue(Now(), now) {
        var rest := m.Keys;
        ghost var before := m;
        while rest != {}
          invariant rest <= before.Keys && m.Keys == rest + Swept(before, now).Keys
          invariant forall k <- m :: m[k] == before[k]
          decreases rest
        {
          var k :| k in rest;
          if Stale(m[k], now) { m := m - {k}; }
          rest := rest - {k};
        }
        assert m == Swept(before, now);
        swept := Some(now);
      }
      m := m[user := Of(m, user) + [stamp]];
    }

    method Over(user: string, max: nat, now: int, addNow: int, stamp: int) returns (over: bool)
      modifies this
      ensures over == (|Recent(Of(old(m), user), now)| >= max)
      ensures Now() == var s := Counted(old(Now()), user, now); if over then s else Added(s, user, addNow, stamp)
    {
      var n := Count(user, now);
      if n >= max { return true; }
      Add(user, addNow, stamp);
      over := false;
    }
  }

  // ---- The full log ----

  /** A window and the log of all events agree on every count from the clock on. */
  ghost predicate Refines(m: Log, log: Log, clock: int) {
    && (forall user :: Ordered(Of(m, user), clock))
    && (forall user, now :: now >= clock ==> Recent(Of(m, user), now) == Recent(Of(log, user), now))
  }

  function Logged(log: Log, user: string, stamp: int): Log { log[user := Of(log, user) + [stamp]] }

  lemma CountRefines(s: State, log: Log, clock: int, user: string, now: int)
    requires Refines(s.m, log, clock) && clock <= now
    ensures Refines(Counted(s, user, now).m, log, now)
  {
    var m' := Counted(s, user, now).m;
    assert Of(m', user) == Recent(Of(s.m, user), now);
    forall u ensures Ordered(Of(m', u), now) {
      RecentOrdered(Of(s.m, u), clock, now);
      OrderedLater(Of(m', u), clock, now);
    }
    forall u, t | t >= now ensures Recent(Of(m', u), t) == Recent(Of(log, u), t) {
      RecentTwice(Of(s.m, u), now, t);
      assert Recent(Of(s.m, u), t) == Recent(Of(log, u), t);
    }
  }

  lemma SweptRefines(m: Log, log: Log, clock: int, now: int)
    requires Refines(m, log, clock) && clock <= now
    ensures Refines(Swept(m, now), log, now)
  {
    forall u ensures Ordered(Of(Swept(m, now), u), now) { OrderedLater(Of(m, u), clock, now); }
    forall u, t | t >= now ensures Recent(Of(Swept(m, now), u), t) == Recent(Of(log, u), t) {
      assert Recent(Of(m, u), t) == Recent(Of(log, u), t);
      var times := Of(m, u);
      if times != [] && Stale(times, now) { StaleIsEmpty(times, times[|times| - 1], t); }
    }
  }

  lemma AppendOrdered(times: seq<int>, clock: int, stamp: int)
    requires Ordered(times, clock) && clock <= stamp
    ensures Ordered(times + [stamp], stamp)
  {
    OrderedLater(times, clock, stamp);
    assert (times + [stamp])[..|times|] == times;
  }

  lemma AppendAgrees(kept: seq<int>, all: seq<int>, stamp: int, t: int)
    requires Recent(kept, t) == Recent(all, t)
    ensures Recent(kept + [stamp], t) == Recent(all + [stamp], t)
  {
    RecentMore(kept, stamp, t);
    RecentMore(all, stamp, t);
  }

  lemma LogRefines(m: Log, log: Log, clock: int, user: string, stamp: int)
    requires Refines(m, log, clock) && clock <= stamp
    ensures Refines(Logged(m, user, stamp), Logged(log, user, stamp), stamp)
  {
    forall u ensures Ordered(Of(Logged(m, user, stamp), u), stamp) {
      if u == user { AppendOrdered(Of(m, user), clock, stamp); } else { OrderedLater(Of(m, u), clock, stamp); }
    }
    forall u, t | t >= stamp ensures Recent(Of(Logged(m, user, stamp), u), t) == Recent(Of(Logged(log, user, stamp), u), t) {
      assert Recent(Of(m, u), t) == Recent(Of(log, u), t);
      if u == user { AppendAgrees(Of(m, user), Of(log, user), stamp, t); }
    }
  }

  lemma AddRefines(s: State, log: Log, clock: int, user: string, now: int, stamp: int)
    requires Refines(s.m, log, clock) && clock <= now <= stamp
    ensures Refines(Added(s, user, now, stamp).m, Logged(log, user, stamp), stamp)
  {
    if SweepDue(s, now) {
      SweptRefines(s.m, log, clock, now);
      LogRefines(Swept(s.m, now), log, now, user, stamp);
    } else {
      LogRefines(s.m, log, clock, user, stamp);
    }
  }

  // ---- Runs ----

  datatype Op =
    | Count(user: string, now: int)
    | Add(user: string, now: int, stamp: int)
    | Over(user: string, max: nat, now: int, addNow: int, stamp: int)

  datatype Run = Run(s: State, log: Log, clock: int)

  /** The clock does not go back. */
  predicate Timely(r: Run, op: Op) {
    match op
    case Count(_, now) => r.clock <= now
    case Add(_, now, stamp) => r.clock <= now <= stamp
    case Over(_, _, now, addNow, stamp) => r.clock <= now <= addNow <= stamp
  }

  predicate Accepts(r: Run, op: Op) { op.Over? && |Recent(Of(r.s.m, op.user), op.now)| < op.max }

  function Apply(r: Run, op: Op): Run {
    match op
    case Count(user, now) => Run(Counted(r.s, user, now), r.log, now)
    case Add(user, now, stamp) => Run(Added(r.s, user, now, stamp), Logged(r.log, user, stamp), stamp)
    case Over(user, max, now, addNow, stamp) =>
      var s := Counted(r.s, user, now);
      if Accepts(r, op) then Run(Added(s, user, addNow, stamp), Logged(r.log, user, stamp), stamp) else Run(s, r.log, now)
  }

  ghost predicate Good(r: Run) { Refines(r.s.m, r.log, r.clock) }

  lemma AcceptedRefines(r: Run, op: Op)
    requires Good(r) && Timely(r, op) && Accepts(r, op)
    ensures Good(Apply(r, op))
  {
    CountRefines(r.s, r.log, r.clock, op.user, op.now);
    AddRefines(Counted(r.s, op.user, op.now), r.log, op.now, op.user, op.addNow, op.stamp);
  }

  function RunAll(r: Run, ops: seq<Op>): Option<Run>
    decreases |ops|
  {
    if ops == [] then Some(r) else if !Timely(r, ops[0]) then None else RunAll(Apply(r, ops[0]), ops[1..])
  }

  /** How many events are in the minute from a on. */
  function InSpan(times: seq<int>, a: int): nat {
    if times == [] then 0
    else InSpan(times[..|times| - 1], a) + if a <= times[|times| - 1] < a + MINUTE then 1 else 0
  }

  lemma {:induction false} SpanIsRecent(times: seq<int>, a: int, now: int)
    requires now < a + MINUTE
    ensures InSpan(times, a) <= |Recent(times, now)|
  {
    if times != [] { SpanIsRecent(times[..|times| - 1], a, now); }
  }

  /** The events of this user all come from over, with this limit. */
  predicate Limited(op: Op, user: string, max: nat) {
    match op
    case Count(_, _) => true
    case Add(u, _, _) => u != user
    case Over(u, m, _, _, _) => u == user ==> m == max
  }

  lemma StepKeepsLimit(r: Run, op: Op, user: string, max: nat, a: int)
    requires Good(r) && Timely(r, op) && Limited(op, user, max)
    requires InSpan(Of(r.log, user), a) <= max
    ensures InSpan(Of(Apply(r, op).log, user), a) <= max
  {
    if Accepts(r, op) && op.user == user {
      var times := Of(r.log, user);
      assert (times + [op.stamp])[..|times|] == times;
      if op.stamp < a + MINUTE {
        SpanIsRecent(times, a, op.now);
        assert Recent(Of(r.s.m, user), op.now) == Recent(times, op.now);
      }
    }
  }

  /** Every operation keeps the agreement with the log, and the limit of a user where it applies. */
  lemma {:induction false} RunKeeps(r: Run, ops: seq<Op>, user: string, max: nat, a: int)
    requires Good(r) && RunAll(r, ops).Some?
    ensures Good(RunAll(r, ops).value)
    ensures (forall op <- ops :: Limited(op, user, max)) && InSpan(Of(r.log, user), a) <= max ==>
      InSpan(Of(RunAll(r, ops).value.log, user), a) <= max
    decreases |ops|
  {
    if ops != [] {
      match ops[0] {
        case Count(u, now) => CountRefines(r.s, r.log, r.clock, u, now);
        case Add(u, now, stamp) => AddRefines(r.s, r.log, r.clock, u, now, stamp);
        case Over(u, _, now, _, _) =>
          if Accepts(r, ops[0]) { AcceptedRefines(r, ops[0]); } else { CountRefines(r.s, r.log, r.clock, u, now); }
      }
      assert Good(Apply(r, ops[0])) && RunAll(r, ops) == RunAll(Apply(r, ops[0]), ops[1..]);
      assert ops[0] in ops && forall op <- ops[1..] :: op in ops;
      if Limited(ops[0], user, max) && InSpan(Of(r.log, user), a) <= max { StepKeepsLimit(r, ops[0], user, max, a); }
      RunKeeps(Apply(r, ops[0]), ops[1..], user, max, a);
    }
  }

  /** Nothing was logged yet. */
  function FromStart(clock: int): Run { Run(State(map[], None), map[], clock) }

  lemma StartRefines(clock: int)
    ensures Good(FromStart(clock)) && forall user, a :: InSpan(Of(map[], user), a) == 0
  {
  }

  /** Main result: after any mix of counts, adds and sweeps, the window counts what the full log counts. */
  lemma WindowRefinesLog(clock: int, ops: seq<Op>, user: string, now: int)
    requires var r := FromStart(clock); RunAll(r, ops).Some? && now >= RunAll(r, ops).value.clock
    ensures var r := RunAll(FromStart(clock), ops).value;
      Recent(Of(r.s.m, user), now) == Recent(Of(r.log, user), now)
  {
    StartRefines(clock);
    RunKeeps(FromStart(clock), ops, user, 0, 0);
  }

  // ---- What is refused, from the calls and their answers alone ----

  /** The answers of a run, call by call: whether over let the event happen. */
  function Answers(r: Run, ops: seq<Op>): (yes: seq<bool>)
    ensures |yes| == |ops|
    decreases |ops|
  {
    if ops == [] then [] else [Accepts(r, ops[0])] + Answers(Apply(r, ops[0]), ops[1..])
  }

  /** The call records an event of this user. */
  predicate Records(op: Op, yes: bool, user: string) { op.user == user && (op.Add? || (op.Over? && yes)) }

  /** How many calls recorded an event of this user at a time in f. */
  function Recorded(ops: seq<Op>, yes: seq<bool>, user: string, f: int -> bool): nat
    requires |yes| == |ops|
  {
    if ops == [] then 0
    else (if Records(ops[0], yes[0], user) && f(ops[0].stamp) then 1 else 0) + Recorded(ops[1..], yes[1..], user, f)
  }

  function Stamps(ops: seq<Op>, yes: seq<bool>, user: string): seq<int>
    requires |yes| == |ops|
  {
    if ops == [] then []
    else (if Records(ops[0], yes[0], user) then [ops[0].stamp] else []) + Stamps(ops[1..], yes[1..], user)
  }

  lemma {:induction false} LogIsStamps(r: Run, ops: seq<Op>, user: string)
    requires RunAll(r, ops).Some?
    ensures Of(RunAll(r, ops).value.log, user) == Of(r.log, user) + Stamps(ops, Answers(r, ops), user)
    decreases |ops|
  {
    Unit(Of(r.log, user));
    if ops != [] {
      var r', yes := Apply(r, ops[0]), Answers(r, ops);
      assert yes[1..] == Answers(r', ops[1..]);
      LogIsStamps(r', ops[1..], user);
      Assoc(Of(r.log, user), if Records(ops[0], yes[0], user) then [ops[0].stamp] else [], Stamps(ops[1..], yes[1..], user));
      LogStep(r, ops[0], user);
    }
  }

  lemma LogStep(r: Run, op: Op, user: string)
    ensures Of(Apply(r, op).log, user) == Of(r.log, user) + if Records(op, Accepts(r, op), user) then [op.stamp] else []
  {
    Unit(Of(r.log, user));
  }

  lemma {:induction false} RecentConcat(a: seq<int>, b: seq<int>, now: int)
    ensures Recent(a + b, now) == Recent(a, now) + Recent(b, now)
  {
    if b == [] {
      Unit(a);
      Unit(Recent(a, now));
    } else {
      var n := |b| - 1;
      assert a + b == a + b[..n] + [b[n]];
      RecentMore(a + b[..n], b[n], now);
      RecentConcat(a, b[..n], now);
      Assoc(Recent(a, now), Recent(b[..n], now), if now - b[n] < MINUTE then [b[n]] else []);
    }
  }

  lemma {:induction false} RecentIsRecorded(ops: seq<Op>, yes: seq<bool>, user: string, now: int)
    requires |yes| == |ops|
    ensures |Recent(Stamps(ops, yes, user), now)| == Recorded(ops, yes, user, t => now - t < MINUTE)
  {
    if ops != [] {
      var first := if Records(ops[0], yes[0], user) then [ops[0].stamp] else [];
      RecentIsRecorded(ops[1..], yes[1..], user, now);
      RecentConcat(first, Stamps(ops[1..], yes[1..], user), now);
      assert first != [] ==> first[..0] == [] && [] + first == first;
    }
  }

  /** Main result: after any calls, an event is let happen exactly when fewer than max of its user's were recorded less
      than a minute ago, by the calls before it and their answers. */
  lemma OverCountsTheMinute(clock: int, ops: seq<Op>, op: Op)
    requires RunAll(FromStart(clock), ops).Some? && op.Over? && Timely(RunAll(FromStart(clock), ops).value, op)
    ensures Accepts(RunAll(FromStart(clock), ops).value, op)
            <==> Recorded(ops, Answers(FromStart(clock), ops), op.user, t => op.now - t < MINUTE) < op.max
  {
    var start := FromStart(clock);
    var r := RunAll(start, ops).value;
    StartRefines(clock);
    RunKeeps(start, ops, op.user, 0, 0);
    assert Recent(Of(r.s.m, op.user), op.now) == Recent(Of(r.log, op.user), op.now);
    LogIsStamps(start, ops, op.user);
    Unit(Stamps(ops, Answers(start, ops), op.user));
    RecentIsRecorded(ops, Answers(start, ops), op.user, op.now);
  }

  lemma {:induction false} SpanIsRecorded(ops: seq<Op>, yes: seq<bool>, user: string, a: int)
    requires |yes| == |ops|
    ensures InSpan(Stamps(ops, yes, user), a) == Recorded(ops, yes, user, t => a <= t < a + MINUTE)
  {
    if ops != [] {
      var first := if Records(ops[0], yes[0], user) then [ops[0].stamp] else [];
      SpanIsRecorded(ops[1..], yes[1..], user, a);
      SpanConcat(first, Stamps(ops[1..], yes[1..], user), a);
      assert first != [] ==> first[..0] == [];
    }
  }

  lemma {:induction false} SpanConcat(x: seq<int>, y: seq<int>, a: int)
    ensures InSpan(x + y, a) == InSpan(x, a) + InSpan(y, a)
  {
    if y == [] {
      Unit(x);
    } else {
      var n := |y| - 1;
      assert (x + y)[..|x + y| - 1] == x + y[..n];
      SpanConcat(x, y[..n], a);
    }
  }

  /** Main result: calls of over, one after the other, let happen at most max events of a user in any minute. */
  lemma AtMostMaxAMinute(clock: int, ops: seq<Op>, user: string, max: nat, a: int)
    requires RunAll(FromStart(clock), ops).Some? && forall op <- ops :: Limited(op, user, max)
    ensures Recorded(ops, Answers(FromStart(clock), ops), user, t => a <= t < a + MINUTE) <= max
  {
    var start := FromStart(clock);
    StartRefines(clock);
    RunKeeps(start, ops, user, max, a);
    LogIsStamps(start, ops, user);
    Unit(Stamps(ops, Answers(start, ops), user));
    SpanIsRecorded(ops, Answers(start, ops), user, a);
  }

  /** More than a minute after the last sweep, or before the first, an add forgets everyone whose last event is a minute
      old; otherwise it forgets nobody. Either way it forgets no event of the last minute. */
  lemma SweepForgetsTheStale(s: State, user: string, now: int, stamp: int, other: string)
    requires other != user
    ensures var s', due := Added(s, user, now, stamp), s.swept == None || now - s.swept.value > MINUTE;
      && (other in s'.m ==> other in s.m)
      && (other in s.m ==>
            (other !in s'.m <==> due && (s.m[other] == [] || now - s.m[other][|s.m[other]| - 1] >= MINUTE)))
      && (other in s'.m ==> s'.m[other] == s.m[other])
      && s'.swept == if due then Some(now) else s.swept
  {
  }

  /** A count forgets exactly what is a minute old, and a user of whom nothing is left. */
  lemma CountForgetsTheOld(s: State, user: string, now: int, other: string)
    ensures var m' := Counted(s, user, now).m;
      && (other != user ==> (other in m' <==> other in s.m) && (other in s.m ==> m'[other] == s.m[other]))
      && (user in m' <==> user in s.m && Recent(s.m[user], now) != [])
      && (user in m' ==> m'[user] == Recent(s.m[user], now))
      && Counted(s, user, now).swept == s.swept
  {
  }
}
