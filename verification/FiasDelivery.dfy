/** Runs of fiasd with failures, crashes, reconnections and messages queued at any time: what is delivered, and when. */
module FiasDelivery {
  import opened Text
  import opened FiasWire
  import opened FiasLinkRecords
  import opened Fiasd

  /** A turn of the daemon, its death and restart, or a script queueing a message for the PMS. */
  datatype Event = Turn(e: Env) | Crash | Queue(message: Message)

  /** The daemon and the next id of its table, with a log kept beside it:
      sends: the ids of the queued records that went out whole, in order;
      queued: the ids of all messages but LE that were ever queued;
      locked: DS received on this connection and no DE since;
      granted: LA received on this connection, or LD received and LA sent in answer. */
  datatype Sys = Sys(m: Machine, nextId: nat, sends: seq<nat>, queued: seq<nat>,
                     locked: bool, answering: bool, granted: bool)

  const INITIAL: Sys := Sys(Machine(Start, false, "", 0, 0, [], []), 0, [], [], false, false, false)

  predicate IsLE(m: Message) { Op(m.cmd) == "LE" }

  predicate Reading(s: State) { s in {WaitForData, WaitForLA, WaitForLSLA, WaitForSincro} }

  function Received(m: Machine, e: Env): string {
    if Reading(m.state) && e.result == RecordRead then Op(e.incoming) else ""
  }

  predicate SendsQueued(c: Setup, m: Machine, e: Env) {
    || (m.state == SendData && e.sent)
    || (m.state == ReadDB && e.sent && Step(c, m, e).1 != [])
  }

  predicate Stores(c: Setup, m: Machine, e: Env) { Step(c, m, e).0.stored != m.stored }

  function Apply(c: Setup, s: Sys, ev: Event): Sys {
    match ev
    case Turn(e) =>
      var op := Received(s.m, e);
      var connecting := s.m.state == Start && e.connected;
      Sys(Step(c, s.m, e).0, s.nextId,
          if s.m.state == SendData && e.sent then s.sends + [s.m.recordId] else s.sends,
          s.queued,
          !connecting && (if op == "DS" then true else if op == "DE" then false else s.locked),
          !connecting && (if op != "" then op == "LD" else s.answering),
          !connecting && (s.granted || op == "LA" || (s.m.state == SendLA && e.sent && s.answering)))
    case Crash => s.(m := s.m.(state := Start, lock := false, record := "", recordId := 0))
    case Queue(message) =>
      s.(m := s.m.(queue := s.m.queue + [Entry(s.nextId, message, false)]), nextId := s.nextId + 1,
         queued := if IsLE(message) then s.queued else s.queued + [s.nextId])
  }

  function Run(c: Setup, s: Sys, run: seq<Event>): Sys
    decreases |run|
  {
    if run == [] then s else Run(c, Apply(c, s, run[0]), run[1..])
  }

  /** Messages are queued through insertFiasMessage. */
  predicate Queueable(run: seq<Event>) {
    forall i :: 0 <= i < |run| && run[i].Queue? ==> Acceptable(run[i].message)
  }

  // ---- The queue without its LE messages ----

  function DoneId(e: Entry): seq<nat> { if e.done && !IsLE(e.message) then [e.id] else [] }
  function UndoneId(e: Entry): seq<nat> { if !e.done && !IsLE(e.message) then [e.id] else [] }

  function DoneIds(queue: seq<Entry>): seq<nat> {
    if queue == [] then [] else DoneId(queue[0]) + DoneIds(queue[1..])
  }

  function UndoneIds(queue: seq<Entry>): seq<nat> {
    if queue == [] then [] else UndoneId(queue[0]) + UndoneIds(queue[1..])
  }

  /** e comes before all of rest, and is done when one of them is. */
  predicate Before(e: Entry, rest: seq<Entry>) {
    forall x <- rest :: e.id < x.id && (x.done ==> e.done)
  }

  /** Ids grow along the table, below the next one; the done messages come first. */
  predicate Ordered(queue: seq<Entry>, nextId: nat) {
    queue == [] ||
    (queue[0].id < nextId && |queue[0].message.cmd| >= 2 && Before(queue[0], queue[1..]) && Ordered(queue[1..], nextId))
  }

  /** Adjacent repeats of a message count once. */
  function Collapse(s: seq<nat>): seq<nat> {
    if s == [] then []
    else
      var n := |s| - 1;
      Collapse(s[..n]) + (if n > 0 && s[n - 1] == s[n] then [] else [s[n]])
  }

  lemma {:induction false} CollapseLast(s: seq<nat>)
    requires s != []
    ensures Collapse(s) != [] && Collapse(s)[|Collapse(s)| - 1] == s[|s| - 1]
  {
    var n := |s| - 1;
    if n > 0 && s[n - 1] == s[n] { CollapseLast(s[..n]); }
  }

  lemma CollapseMore(s: seq<nat>, x: nat)
    ensures Collapse(s + [x])
            == if Collapse(s) != [] && Collapse(s)[|Collapse(s)| - 1] == x then Collapse(s) else Collapse(s) + [x]
  {
    assert (s + [x])[..|s|] == s;
    if s != [] { CollapseLast(s); }
  }

  lemma {:induction false} FindDone(queue: seq<Entry>, x: nat) returns (e: Entry)
    requires x in DoneIds(queue)
    ensures e in queue && e.id == x && e.done
  {
    if x in DoneId(queue[0]) { e := queue[0]; } else { e := FindDone(queue[1..], x); }
  }

  lemma {:induction false} IdsConcat(a: seq<Entry>, b: seq<Entry>)
    ensures DoneIds(a + b) == DoneIds(a) + DoneIds(b)
    ensures UndoneIds(a + b) == UndoneIds(a) + UndoneIds(b)
  {
    if a == [] {
      Text.Unit(b);
    } else {
      assert (a + b)[0] == a[0] && (a + b)[1..] == a[1..] + b;
      IdsConcat(a[1..], b);
      Assoc(DoneId(a[0]), DoneIds(a[1..]), DoneIds(b));
      Assoc(UndoneId(a[0]), UndoneIds(a[1..]), UndoneIds(b));
    }
  }

  lemma {:induction false} AllDone(queue: seq<Entry>)
    requires forall x <- queue :: x.done
    ensures UndoneIds(queue) == []
  {
    if queue != [] {
      assert queue[0] in queue;
      AllDone(queue[1..]);
    }
  }

  lemma {:induction false} NothingDone(queue: seq<Entry>)
    requires forall x <- queue :: !x.done
    ensures DoneIds(queue) == []
  {
    if queue != [] {
      assert queue[0] in queue;
      NothingDone(queue[1..]);
    }
  }

  lemma {:induction false} OrderedAt(queue: seq<Entry>, nextId: nat, i: nat, j: nat)
    requires Ordered(queue, nextId) && i < |queue| && j < |queue|
    ensures |queue[i].message.cmd| >= 2 && queue[i].id < nextId
    ensures i < j ==> queue[i].id < queue[j].id && (queue[j].done ==> queue[i].done)
  {
    if i == 0 {
      if j > 0 { assert queue[j] in queue[1..]; }
    } else if j == 0 {
      OrderedAt(queue[1..], nextId, i - 1, i - 1);
    } else {
      OrderedAt(queue[1..], nextId, i - 1, j - 1);
    }
  }

  lemma {:induction false} OrderedBy(queue: seq<Entry>, nextId: nat)
    requires forall i :: 0 <= i < |queue| ==> |queue[i].message.cmd| >= 2 && queue[i].id < nextId
    requires forall i, j :: 0 <= i < j < |queue| ==> queue[i].id < queue[j].id && (queue[j].done ==> queue[i].done)
    ensures Ordered(queue, nextId)
  {
    if queue != [] { OrderedBy(queue[1..], nextId); }
  }

  lemma {:induction false} IdsAround(queue: seq<Entry>, a: seq<Entry>, e: Entry, b: seq<Entry>)
    requires queue == a + [e] + b && (forall x <- a :: x.done) && (forall x <- b :: !x.done)
    ensures DoneIds(queue) == DoneIds(a) + DoneId(e) && UndoneIds(queue) == UndoneId(e) + UndoneIds(b)
  {
    IdsConcat(a + [e], b);
    IdsConcat(a, [e]);
    Text.Unit(DoneId(e));
    Text.Unit(UndoneId(e));
    AllDone(a);
    NothingDone(b);
    Text.Unit(DoneIds(a) + DoneId(e));
  }

  lemma FirstParts(queue: seq<Entry>, nextId: nat, k: nat)
    requires Ordered(queue, nextId) && k == FirstUndone(queue) < |queue|
    ensures (forall x <- queue[..k] :: x.done) && (forall x <- queue[k + 1..] :: !x.done)
    ensures MarkDone(queue, queue[k].id) == queue[..k] + [queue[k].(done := true)] + queue[k + 1..]
  {
    forall i | 0 <= i < |queue|
      ensures i != k ==> queue[i].id != queue[k].id
      ensures i > k ==> !queue[i].done
    {
      OrderedAt(queue, nextId, i, k);
      OrderedAt(queue, nextId, k, i);
    }
  }

  lemma {:induction false} MarkedOrdered(queue: seq<Entry>, nextId: nat)
    requires Ordered(queue, nextId) && FirstUndone(queue) < |queue|
    ensures Ordered(MarkDone(queue, queue[FirstUndone(queue)].id), nextId)
  {
    var k := FirstUndone(queue);
    var queue' := MarkDone(queue, queue[k].id);
    forall i | 0 <= i < |queue'| ensures |queue'[i].message.cmd| >= 2 && queue'[i].id < nextId {
      OrderedAt(queue, nextId, i, i);
    }
    forall i, j | 0 <= i < j < |queue'|
      ensures queue'[i].id < queue'[j].id && (queue'[j].done ==> queue'[i].done)
    {
      OrderedAt(queue, nextId, i, j);
      OrderedAt(queue, nextId, k, j);
    }
    OrderedBy(queue', nextId);
  }

  lemma {:induction false} IdsBeforeMark(queue: seq<Entry>, nextId: nat, k: nat)
    requires Ordered(queue, nextId) && k == FirstUndone(queue) < |queue|
    ensures DoneIds(queue) == DoneIds(queue[..k])
    ensures UndoneIds(queue) == UndoneId(queue[k]) + UndoneIds(queue[k + 1..])
  {
    FirstParts(queue, nextId, k);
    assert queue == queue[..k] + [queue[k]] + queue[k + 1..];
    IdsAround(queue, queue[..k], queue[k], queue[k + 1..]);
    Text.Unit(DoneIds(queue[..k]));
  }

  lemma {:induction false} IdsAfterMark(queue: seq<Entry>, nextId: nat, k: nat)
    requires Ordered(queue, nextId) && k == FirstUndone(queue) < |queue|
    ensures DoneIds(MarkDone(queue, queue[k].id)) == DoneIds(queue[..k]) + UndoneId(queue[k])
    ensures UndoneIds(MarkDone(queue, queue[k].id)) == UndoneIds(queue[k + 1..])
  {
    FirstParts(queue, nextId, k);
    IdsAround(MarkDone(queue, queue[k].id), queue[..k], queue[k].(done := true), queue[k + 1..]);
    Text.Unit(UndoneIds(queue[k + 1..]));
  }

  /** Marking the first message not done moves it from the undone ids to the done ones. */
  lemma {:induction false} MarkFirst(queue: seq<Entry>, nextId: nat, e: Entry, queue': seq<Entry>)
    requires Ordered(queue, nextId) && FirstUndone(queue) < |queue|
    requires e == queue[FirstUndone(queue)] && queue' == MarkDone(queue, e.id)
    ensures Ordered(queue', nextId)
    ensures DoneIds(queue') == DoneIds(queue) + UndoneId(e) && UndoneIds(queue) == UndoneId(e) + UndoneIds(queue')
  {
    MarkedOrdered(queue, nextId);
    IdsBeforeMark(queue, nextId, FirstUndone(queue));
    IdsAfterMark(queue, nextId, FirstUndone(queue));
  }

  lemma {:induction false} FirstNotDone(queue: seq<Entry>, nextId: nat, k: nat)
    requires Ordered(queue, nextId) && k == FirstUndone(queue) < |queue|
    ensures queue[k].id !in DoneIds(queue)
  {
    if queue[k].id in DoneIds(queue) {
      var e := FindDone(queue, queue[k].id);
      var i :| 0 <= i < |queue| && queue[i] == e;
      OrderedAt(queue, nextId, i, k);
      OrderedAt(queue, nextId, k, i);
      assert false;
    }
  }

  lemma {:induction false} DropKeeps(queue: seq<Entry>, nextId: nat)
    requires Ordered(queue, nextId)
    ensures DoneIds(DropPendingLE(queue)) == DoneIds(queue) && UndoneIds(DropPendingLE(queue)) == UndoneIds(queue)
    ensures Ordered(DropPendingLE(queue), nextId)
  {
    if queue != [] {
      var rest := DropPendingLE(queue[1..]);
      DropKeeps(queue[1..], nextId);
      if queue[0].message.cmd == "LE" && !queue[0].done {
        Text.Unit(rest);
      } else {
        assert DropPendingLE(queue) == [queue[0]] + rest;
        assert DropPendingLE(queue)[1..] == rest;
      }
    }
  }

  lemma {:induction false} FirstKept(queue: seq<Entry>, e: Entry)
    requires FirstUndone(queue) < |queue|
    ensures FirstUndone(queue + [e]) == FirstUndone(queue)
  {
    assert (queue + [e])[0] == queue[0] && (queue + [e])[1..] == queue[1..] + [e];
    if queue[0].done { FirstKept(queue[1..], e); }
  }

  lemma {:induction false} OrderedMore(queue: seq<Entry>, e: Entry)
    requires !e.done && Ordered(queue, e.id) && |e.message.cmd| >= 2
    ensures Ordered(queue + [e], e.id + 1)
  {
    if queue != [] {
      assert (queue + [e])[0] == queue[0] && (queue + [e])[1..] == queue[1..] + [e];
      OrderedMore(queue[1..], e);
    }
  }

  lemma QueueMore(queue: seq<Entry>, e: Entry)
    requires !e.done
    ensures DoneIds(queue + [e]) == DoneIds(queue) && UndoneIds(queue + [e]) == UndoneIds(queue) + UndoneId(e)
  {
    IdsConcat(queue, [e]);
    Text.Unit(UndoneId(e));
    Text.Unit(DoneIds(queue));
  }

  // ---- The invariant ----

  /** The record about to be sent is the first message not done. */
  predicate OnFirst(c: Setup, m: Machine) {
    var k := FirstUndone(m.queue);
    k < |m.queue| && m.recordId == m.queue[k].id && !IsLE(m.queue[k].message)
    && m.record == RecordOf(c.wire, m.queue[k].message)
  }

  /** Complete sends, repeats collapsed: the done messages in order, with at most the next one after them. */
  predicate SentInOrder(queue: seq<Entry>, sends: seq<nat>) {
    || Collapse(sends) == DoneIds(queue)
    || (UndoneIds(queue) != [] && Collapse(sends) == DoneIds(queue) + [UndoneIds(queue)[0]])
  }

  predicate Kept(queue: seq<Entry>, nextId: nat, queued: seq<nat>, sends: seq<nat>) {
    Ordered(queue, nextId) && queued == DoneIds(queue) + UndoneIds(queue) && SentInOrder(queue, sends)
  }

  predicate Delivering(c: Setup, s: Sys) {
    Kept(s.m.queue, s.nextId, s.queued, s.sends) && (s.m.state == SendData ==> OnFirst(c, s.m))
  }

  lemma RecordStartsLE(c: Setup, m: Message)
    requires |m.cmd| >= 2
    ensures "LE" <= RecordOf(c.wire, m) <==> IsLE(m)
  {
    var r := RecordOf(c.wire, m);
    assert r[0] == m.cmd[0] && r[1] == m.cmd[1];
    assert Op(m.cmd) == [m.cmd[0], m.cmd[1]];
  }

  /** A complete send of the first undone message keeps the order, marked or not. */
  lemma {:induction false} SendKeepsOrder(c: Setup, s: Sys)
    requires Delivering(c, s) && s.m.state == SendData
    ensures UndoneIds(s.m.queue) != [] && UndoneIds(s.m.queue)[0] == s.m.recordId
    ensures Collapse(s.sends + [s.m.recordId]) == DoneIds(s.m.queue) + [UndoneIds(s.m.queue)[0]]
  {
    var x, k := s.m.recordId, FirstUndone(s.m.queue);
    MarkFirst(s.m.queue, s.nextId, s.m.queue[k], MarkDone(s.m.queue, x));
    FirstNotDone(s.m.queue, s.nextId, k);
    CollapseMore(s.sends, x);
  }

  lemma SendTurn(c: Setup, s: Sys, e: Env)
    requires Delivering(c, s) && s.m.state == SendData
    ensures Delivering(c, Apply(c, s, Turn(e)))
  {
    var s', k := Apply(c, s, Turn(e)), FirstUndone(s.m.queue);
    if e.sent {
      SendKeepsOrder(c, s);
      if e.update == Updated {
        MarkFirst(s.m.queue, s.nextId, s.m.queue[k], s'.m.queue);
        Assoc(DoneIds(s.m.queue), [s.m.queue[k].id], UndoneIds(s'.m.queue));
      }
    }
  }

  /** stReadDB leaves the queue as it is, or marks its first message, an LE; before a send it holds that first one. */
  lemma {:induction false} QueryOutcome(c: Setup, s: Sys, e: Env)
    requires Ordered(s.m.queue, s.nextId) && s.m.state == ReadDB
    ensures var m', k := Step(c, s.m, e).0, FirstUndone(s.m.queue);
      && (m'.state == SendData ==> m'.queue == s.m.queue && OnFirst(c, m'))
      && (m'.queue != s.m.queue ==>
            k < |s.m.queue| && IsLE(s.m.queue[k].message) && m'.queue == MarkDone(s.m.queue, s.m.queue[k].id))
  {
    var k := FirstUndone(s.m.queue);
    if k < |s.m.queue| {
      OrderedAt(s.m.queue, s.nextId, k, k);
      RecordStartsLE(c, s.m.queue[k].message);
    }
  }

  lemma {:induction false} MarkLE(queue: seq<Entry>, nextId: nat, queued: seq<nat>, sends: seq<nat>, e: Entry, queue': seq<Entry>)
    requires Kept(queue, nextId, queued, sends) && FirstUndone(queue) < |queue|
    requires e == queue[FirstUndone(queue)] && IsLE(e.message) && queue' == MarkDone(queue, e.id)
    ensures Kept(queue', nextId, queued, sends)
  {
    MarkFirst(queue, nextId, e, queue');
    Text.Unit(DoneIds(queue));
    Text.Unit(UndoneIds(queue'));
  }

  lemma {:induction false} QueryTurn(c: Setup, s: Sys, e: Env)
    requires Delivering(c, s) && s.m.state == ReadDB
    ensures Delivering(c, Apply(c, s, Turn(e)))
  {
    QueryOutcome(c, s, e);
    var queue' := Step(c, s.m, e).0.queue;
    if queue' != s.m.queue {
      MarkLE(s.m.queue, s.nextId, s.queued, s.sends, s.m.queue[FirstUndone(s.m.queue)], queue');
    }
  }

  /** Everywhere else a turn leaves the queue alone, and does not lead to a send. */
  lemma {:induction false} OtherTurns(c: Setup, m: Machine, e: Env)
    requires m.state !in {SendData, ReadDB, Start}
    ensures Step(c, m, e).0.queue == m.queue && Step(c, m, e).0.state != SendData
  {
  }

  lemma {:induction false} KeptMore(queue: seq<Entry>, queued: seq<nat>, sends: seq<nat>, e: Entry)
    requires Kept(queue, e.id, queued, sends) && !e.done && |e.message.cmd| >= 2
    ensures Kept(queue + [e], e.id + 1, queued + UndoneId(e), sends)
  {
    QueueMore(queue, e);
    OrderedMore(queue, e);
    Assoc(DoneIds(queue), UndoneIds(queue), UndoneId(e));
  }

  lemma {:induction false} QueueEvent(c: Setup, s: Sys, message: Message)
    requires Delivering(c, s) && Acceptable(message)
    ensures Delivering(c, Apply(c, s, Queue(message)))
  {
    var e := Entry(s.nextId, message, false);
    var s' := Apply(c, s, Queue(message));
    KeptMore(s.m.queue, s.queued, s.sends, e);
    Text.Unit(s.queued);
    assert s'.m == s.m.(queue := s.m.queue + [e]) && s'.queued == s.queued + UndoneId(e);
    if s.m.state == SendData { FirstKept(s.m.queue, e); }
  }

  lemma {:induction false} ApplyKeepsDelivering(c: Setup, s: Sys, ev: Event)
    requires Delivering(c, s) && (ev.Queue? ==> Acceptable(ev.message))
    ensures Delivering(c, Apply(c, s, ev))
  {
    match ev
    case Crash =>
    case Queue(message) => QueueEvent(c, s, message);
    case Turn(e) =>
      if s.m.state == SendData { SendTurn(c, s, e);
      } else if s.m.state == ReadDB { QueryTurn(c, s, e);
      } else if s.m.state == Start { DropKeeps(s.m.queue, s.nextId);
      } else { OtherTurns(c, s.m, e); }
  }

  lemma {:induction false} RunKeepsDelivering(c: Setup, s: Sys, run: seq<Event>)
    requires Delivering(c, s) && Queueable(run)
    ensures Delivering(c, Run(c, s, run))
    decreases |run|
  {
    if run != [] {
      ApplyKeepsDelivering(c, s, run[0]);
      RunKeepsDelivering(c, Apply(c, s, run[0]), run[1..]);
    }
  }

  /** Main result, delivery: after any run every message but LE that was queued is still in the table, those
      marked done went out whole, and the complete sends are the queue in id order, repeats collapsed. */
  lemma {:induction false} DeliveredInOrder(c: Setup, run: seq<Event>)
    requires Queueable(run)
    ensures var s := Run(c, INITIAL, run);
      && s.queued == DoneIds(s.m.queue) + UndoneIds(s.m.queue)
      && DoneIds(s.m.queue) <= Collapse(s.sends) <= s.queued
      && |Collapse(s.sends)| <= |DoneIds(s.m.queue)| + 1
  {
    assert Delivering(c, INITIAL);
    RunKeepsDelivering(c, INITIAL, run);
  }

  // ---- The lock and the grant ----

  /** Where the daemon may be once the link was granted. */
  predicate Open(s: State) { s in {WaitForData, ReadDB, SendData, WriteDB} }

  predicate Guarded(c: Setup, s: Sys) {
    && (Open(s.m.state) ==> s.granted)
    && (s.m.state == SendLA ==> s.answering)
    && (s.locked && s.m.state !in {AtDisconnected, Start, Exited} ==> s.m.lock && s.granted)
    && (s.m.state == SendData ==> !s.m.lock)
  }

  /** No queued record goes out while the swap is on, and none goes out or is stored before the grant. */
  predicate Respectful(c: Setup, s: Sys, ev: Event) {
    ev.Turn? ==>
      && (SendsQueued(c, s.m, ev.e) ==> s.granted && !s.locked)
      && (Stores(c, s.m, ev.e) ==> s.granted)
  }

  /** The turns that read a record. */
  lemma ReadingGuarded(c: Setup, s: Sys, e: Env)
    requires Guarded(c, s) && Reading(s.m.state)
    ensures Guarded(c, Apply(c, s, Turn(e))) && Respectful(c, s, Turn(e))
  {
  }

  /** The turns on the message tables. */
  lemma TablesGuarded(c: Setup, s: Sys, e: Env)
    requires Guarded(c, s) && s.m.state in {ReadDB, WriteDB, SendData}
    ensures Guarded(c, Apply(c, s, Turn(e))) && Respectful(c, s, Turn(e))
  {
    if s.m.state == WriteDB {
      assert Step(c, s.m, e).0.state in {ReadDB, AtDisconnected};
    } else if s.m.state == SendData {
      assert Step(c, s.m, e).0.state in {WaitForData, Start, AtDisconnected};
    } else {
      assert Step(c, s.m, e).0.state in {WaitForData, SendData, SendLS, Exited, AtDisconnected};
    }
  }

  /** The others. */
  lemma LinkGuarded(c: Setup, s: Sys, e: Env)
    requires Guarded(c, s) && s.m.state in {Start, AtDisconnected, SendLA, SendLDLRLA, SendLS, Exited}
    ensures Guarded(c, Apply(c, s, Turn(e))) && Respectful(c, s, Turn(e))
  {
  }

  lemma ApplyKeepsGuarded(c: Setup, s: Sys, ev: Event)
    requires Guarded(c, s)
    ensures Guarded(c, Apply(c, s, ev)) && Respectful(c, s, ev)
  {
    match ev
    case Crash =>
    case Queue(_) =>
    case Turn(e) =>
      if Reading(s.m.state) { ReadingGuarded(c, s, e);
      } else if s.m.state in {ReadDB, WriteDB, SendData} { TablesGuarded(c, s, e);
      } else { LinkGuarded(c, s, e); }
  }

  predicate AllRespectful(c: Setup, s: Sys, run: seq<Event>)
    decreases |run|
  {
    run == [] || (Respectful(c, s, run[0]) && AllRespectful(c, Apply(c, s, run[0]), run[1..]))
  }

  lemma {:induction false} RunIsRespectful(c: Setup, s: Sys, run: seq<Event>)
    requires Guarded(c, s)
    ensures AllRespectful(c, s, run)
    decreases |run|
  {
    if run != [] {
      ApplyKeepsGuarded(c, s, run[0]);
      RunIsRespectful(c, Apply(c, s, run[0]), run[1..]);
    }
  }

  /** Main result, order of the link: in every turn of every run. */
  lemma SwapAndGrantRespected(c: Setup, run: seq<Event>)
    ensures AllRespectful(c, INITIAL, run)
  {
    RunIsRespectful(c, INITIAL, run);
  }
}
