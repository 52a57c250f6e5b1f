/** What a new connection does with LE messages left over from before: they are gone, and only they. */
module FiasStart {
  import opened Text
  import opened FiasWire
  import opened FiasLinkRecords
  import opened FiasDelivery
  import F = Fiasd
  import S = FiasServer

  predicate PendingLE(e: Entry) { e.message.cmd == "LE" && !e.done }

  /** kept is the queue without its waiting LE messages: at[i] is the place its i-th entry had. */
  predicate WithoutLE(queue: seq<Entry>, kept: seq<Entry>, at: seq<nat>) {
    Taken(queue, kept, at) && Increasing(at) && Missed(queue, at)
  }

  predicate Taken(queue: seq<Entry>, kept: seq<Entry>, at: seq<nat>) {
    Picks(queue, kept, at) && forall i :: 0 <= i < |kept| ==> !PendingLE(kept[i])
  }

  /** Only waiting LE messages are not taken. */
  predicate Missed(queue: seq<Entry>, at: seq<nat>) {
    forall k: nat :: k < |queue| && !PendingLE(queue[k]) ==> k in at
  }

  /** One waiting LE more in front. */
  lemma DroppedFront(queue: seq<Entry>, kept: seq<Entry>, at: seq<nat>)
    requires queue != [] && PendingLE(queue[0]) && WithoutLE(queue[1..], kept, at)
    ensures WithoutLE(queue, kept, Shifted(at))
  {
    PicksLater(queue, kept, at);
    ShiftedFront(at);
    forall k: nat | k < |queue| && !PendingLE(queue[k]) ensures k in Shifted(at) {
      assert queue[1..][k - 1] == queue[k];
      ShiftedHas(at, k - 1);
    }
  }

  /** One other entry more in front. */
  lemma KeptFront(queue: seq<Entry>, kept: seq<Entry>, at: seq<nat>)
    requires queue != [] && !PendingLE(queue[0]) && WithoutLE(queue[1..], kept, at)
    ensures WithoutLE(queue, [queue[0]] + kept, [0] + Shifted(at))
  {
    PicksLater(queue, kept, at);
    PicksFirst(queue, kept, Shifted(at));
    ShiftedFront(at);
    MissedFront(queue, at);
  }

  lemma MissedFront(queue: seq<Entry>, at: seq<nat>)
    requires queue != [] && Missed(queue[1..], at)
    ensures Missed(queue, [0] + Shifted(at))
  {
    forall k: nat | k < |queue| && !PendingLE(queue[k]) ensures k in [0] + Shifted(at) {
      if k > 0 {
        assert queue[1..][k - 1] == queue[k];
        ShiftedHas(at, k - 1);
      }
    }
  }

  lemma {:induction false} Drops(queue: seq<Entry>) returns (at: seq<nat>)
    ensures WithoutLE(queue, DropPendingLE(queue), at)
  {
    at := [];
    if queue != [] {
      var rest := Drops(queue[1..]);
      Text.Unit(DropPendingLE(queue[1..]));
      if PendingLE(queue[0]) {
        DroppedFront(queue, DropPendingLE(queue[1..]), rest);
        at := Shifted(rest);
      } else {
        KeptFront(queue, DropPendingLE(queue[1..]), rest);
        at := [0] + Shifted(rest);
      }
    }
  }

  lemma SameEntries(queue: seq<Entry>, kept: seq<Entry>, at: seq<nat>)
    requires WithoutLE(queue, kept, at)
    ensures forall e :: e in kept <==> e in queue && !PendingLE(e)
  {
    forall e | e in queue && !PendingLE(e) ensures e in kept {
      var k: nat :| k < |queue| && queue[k] == e;
      assert k in at;
      var i :| 0 <= i < |at| && at[i] == k;
      assert kept[i] == e;
    }
  }

  /** Main result: the first turn of a connection takes the waiting LE messages out of the queue, and leaves every other
      one as it is and where it is; on the PBX side, */
  lemma PbxStartForgetsLE(c: Setup, m: F.Machine, e: Env) returns (at: seq<nat>)
    requires m.state == F.Start
    ensures var m' := F.Step(c, m, e).0;
      && WithoutLE(m.queue, m'.queue, at) && (forall x :: x in m'.queue <==> x in m.queue && !(x.message.cmd == "LE" && !x.done))
      && m'.stored == m.stored && F.Step(c, m, e).1 == []
  {
    at := Drops(m.queue);
    SameEntries(m.queue, DropPendingLE(m.queue), at);
  }

  /** and on the PMS side. */
  lemma PmsStartForgetsLE(c: Setup, m: S.Machine, e: Env) returns (at: seq<nat>)
    requires m.state == S.Start
    ensures var m' := S.Step(c, m, e).0;
      && WithoutLE(m.queue, m'.queue, at) && (forall x :: x in m'.queue <==> x in m.queue && !(x.message.cmd == "LE" && !x.done))
      && m'.stored == m.stored && S.Step(c, m, e).1 == []
  {
    at := Drops(m.queue);
    SameEntries(m.queue, DropPendingLE(m.queue), at);
  }

  // ---- Over runs ----

  predicate HasId(queue: seq<Entry>, id: nat) { exists i :: 0 <= i < |queue| && queue[i].id == id }

  lemma HasIdMore(queue: seq<Entry>, x: Entry, id: nat)
    ensures HasId(queue + [x], id) ==> HasId(queue, id) || x.id == id
  {
    var more := queue + [x];
    if HasId(more, id) {
      var i :| 0 <= i < |more| && more[i].id == id;
      assert i < |queue| ==> queue[i].id == id;
    }
  }

  /** No turn brings an id back. */
  lemma PbxIdsStay(c: Setup, m: F.Machine, e: Env, id: nat)
    requires HasId(F.Step(c, m, e).0.queue, id)
    ensures HasId(m.queue, id)
  {
    var queue' := F.Step(c, m, e).0.queue;
    var i :| 0 <= i < |queue'| && queue'[i].id == id;
    if m.state == F.Start {
      var at := PbxStartForgetsLE(c, m, e);
      assert m.queue[at[i]].id == id;
    } else if queue' == m.queue {
    } else {
      assert queue' == MarkDone(m.queue, m.recordId) || (m.state == F.ReadDB && |queue'| == |m.queue|);
      assert m.queue[i].id == id;
    }
  }

  /** The id was given out, and the table has no row of it any more. */
  predicate Forgotten(s: Sys, id: nat) { id < s.nextId && !HasId(s.m.queue, id) }

  lemma ForgottenStep(c: Setup, s: Sys, ev: Event, id: nat)
    requires Forgotten(s, id)
    ensures Forgotten(Apply(c, s, ev), id)
  {
    match ev
    case Turn(e) =>
      if HasId(F.Step(c, s.m, e).0.queue, id) { PbxIdsStay(c, s.m, e, id); }
    case Crash =>
    case Queue(message) =>
      HasIdMore(s.m.queue, Entry(s.nextId, message, false), id);
  }

  lemma {:induction false} ForgottenRun(c: Setup, s: Sys, run: seq<Event>, id: nat)
    requires Forgotten(s, id)
    ensures Forgotten(Run(c, s, run), id)
    decreases |run|
  {
    if run != [] {
      ForgottenStep(c, s, run[0], id);
      ForgottenRun(c, Apply(c, s, run[0]), run[1..], id);
    }
  }

  /** The queued message whose record or link end goes out in this turn, if any. */
  function SentId(c: Setup, m: F.Machine, e: Env): Option<nat> {
    if F.Step(c, m, e).1 == [] then None
    else if m.state == F.SendData then Some(m.recordId)
    else if m.state == F.ReadDB && FirstUndone(m.queue) < |m.queue| then Some(m.queue[FirstUndone(m.queue)].id)
    else None
  }

  lemma {:induction false} SentIsQueued(c: Setup, s: Sys, e: Env)
    requires Delivering(c, s)
    ensures SentId(c, s.m, e).Some? ==> HasId(s.m.queue, SentId(c, s.m, e).value)
  {
    if s.m.state == F.SendData { assert OnFirst(c, s.m); }
  }

  /** Main result, over runs: an LE that was waiting when a connection starts is never sent, on that connection or any
      later one. */
  lemma OldLEIsNeverSent(c: Setup, before: seq<Event>, e: Env, x: Entry, after: seq<Event>, later: Env)
    requires Queueable(before) && Queueable(after)
    requires var s := Run(c, INITIAL, before); s.m.state == F.Start && x in s.m.queue && PendingLE(x)
    ensures var s' := Run(c, Apply(c, Run(c, INITIAL, before), Turn(e)), after);
      !HasId(s'.m.queue, x.id) && SentId(c, s'.m, later) != Some(x.id)
  {
    var s := Run(c, INITIAL, before);
    var s1 := Apply(c, s, Turn(e));
    assert Delivering(c, INITIAL);
    RunKeepsDelivering(c, INITIAL, before);
    ApplyKeepsDelivering(c, s, Turn(e));
    StartForgets(c, s, e, x);
    ForgottenRun(c, s1, after, x.id);
    RunKeepsDelivering(c, s1, after);
    SentIsQueued(c, Run(c, s1, after), later);
  }

  lemma {:induction false} StartForgets(c: Setup, s: Sys, e: Env, x: Entry)
    requires Delivering(c, s) && s.m.state == F.Start && x in s.m.queue && PendingLE(x)
    ensures Forgotten(Apply(c, s, Turn(e)), x.id)
  {
    var at := PbxStartForgetsLE(c, s.m, e);
    var queue' := F.Step(c, s.m, e).0.queue;
    OneOfItsId(s.m.queue, s.nextId, x, x);
    if HasId(queue', x.id) {
      var i :| 0 <= i < |queue'| && queue'[i].id == x.id;
      assert queue'[i] in queue';
      OneOfItsId(s.m.queue, s.nextId, queue'[i], x);
    }
  }

  lemma OneOfItsId(queue: seq<Entry>, nextId: nat, a: Entry, b: Entry)
    requires Ordered(queue, nextId) && a in queue && b in queue && a.id == b.id
    ensures a == b && a.id < nextId
  {
    var i :| 0 <= i < |queue| && queue[i] == a;
    var j :| 0 <= j < |queue| && queue[j] == b;
    OrderedAt(queue, nextId, i, j);
    OrderedAt(queue, nextId, j, i);
  }
}
