/** The two daemons joined by two channels: the handshake, data both ways, the idle link check, and what they leave. */
module FiasLink {
  import opened Text
  import opened FiasWire
  import opened FiasLinkRecords
  import F = Fiasd
  import S = FiasServer

  datatype Setups = Setups(pbx: Setup, pms: Setup)

  /** Both machines, the records in flight each way, oldest first, and how many link checks may still start. */
  datatype Link = Link(f: F.Machine, s: S.Machine, toPms: seq<string>, toPbx: seq<string>, checks: nat)

  datatype Side = Pbx | Pms

  /** A turn of one side's daemon, or a message put into the queue that side sends from. */
  datatype Event = Turn(side: Side, e: Env) | Queue(side: Side, id: nat, message: Message)

  predicate ReadsPbx(s: F.State) { s in {F.WaitForSincro, F.WaitForData, F.WaitForLA, F.WaitForLSLA} }

  // ---- Queues and setups ----

  /** The messages still to send, in order. */
  function Unsent(queue: seq<Entry>): seq<Message> {
    if queue == [] then [] else (if queue[0].done then [] else [queue[0].message]) + Unsent(queue[1..])
  }

  /** Data to send, under ids of their own. */
  predicate DataQueue(c: Config, queue: seq<Entry>) {
    && (forall m <- Unsent(queue) :: Data(c, m))
    && (forall i, j :: 0 <= i < j < |queue| ==> queue[i].id != queue[j].id)
  }

  predicate Fresh(queue: seq<Entry>, id: nat) { forall i :: 0 <= i < |queue| ==> queue[i].id != id }

  predicate TableRecords(c: Setup) { forall i :: 0 <= i < |c.table| ==> Op(c.table[i]) in {"LD", "LR"} }

  /** What a link check needs of the server's table: an LD first, and every later record one that fiasd can store. */
  predicate ValidTable(c: Setup) {
    && c.table != [] && Op(c.table[0]) == "LD"
    && forall i :: 1 <= i < |c.table| ==> Acceptable(Parse(c.wire, c.table[i]))
  }

  /** One wire format for both, and tables of LD and LR records, of any length. */
  predicate ValidSetups(c: Setups) {
    && ValidConfig(c.pbx.wire) && PlainSeparator(c.pbx.wire) && c.pms.wire == c.pbx.wire
    && TableRecords(c.pbx) && TableRecords(c.pms)
  }

  // ---- The turns ----

  /** fiasd would start a link check in this turn. */
  predicate StartsCheck(c: Setups, l: Link, e: Env) {
    l.f.state == F.ReadDB && !l.f.lock && Unsent(l.f.queue) == [] && l.f.lastCommunication + c.pbx.interval < e.now
  }

  /** A check is under way that the server does not know of. */
  predicate CheckPending(l: Link) {
    l.f.state == F.SendLS || (l.f.state == F.WaitForLSLA && exists i :: 0 <= i < |l.toPms| && Op(l.toPms[i]) == "LS")
  }

  /** No socket or database error, and no timeout but the polling one of the data state; a read takes the oldest
      record in flight. A check starts when nothing for the PBX is waiting or in flight, and `checks` times in all;
      nothing is queued for the PBX until the server has taken the check's LS. */
  predicate Allowed(c: Setups, l: Link, ev: Event) {
    match ev
    case Turn(side, e) =>
      && e.connected && e.sent && e.dbOk && e.update == Updated && Dated(e)
      && (match side
          case Pbx =>
            && (ReadsPbx(l.f.state) ==>
                  || (e.result == RecordRead && l.toPbx != [] && e.incoming == l.toPbx[0])
                  || (e.result == TimedOut && l.f.state == F.WaitForData))
            && (StartsCheck(c, l, e) ==> l.toPbx == [] && Unsent(l.s.queue) == [] && l.checks > 0)
          case Pms =>
            S.Reads(l.s.state) ==>
              || (e.result == RecordRead && l.toPms != [] && e.incoming == l.toPms[0])
              || (e.result == TimedOut && l.s.state == S.WaitForData))
    case Queue(side, id, m) =>
      && Data(c.pbx.wire, m)
      && (match side
          case Pbx => Fresh(l.f.queue, id)
          case Pms => Fresh(l.s.queue, id) && !CheckPending(l))
  }

  /** The turn is a poll: the data state gave up waiting. */
  predicate Poll(l: Link, ev: Event) {
    match ev
    case Turn(Pbx, e) => l.f.state == F.WaitForData && e.result == TimedOut
    case Turn(Pms, e) => l.s.state == S.WaitForData && e.result == TimedOut
    case Queue(_, _, _) => false
  }

  function PbxNext(c: Setups, l: Link, e: Env): Link {
    var (f, out) := F.Step(c.pbx, l.f, e);
    var took := ReadsPbx(l.f.state) && e.result == RecordRead && l.toPbx != [];
    var checking := l.f.state == F.ReadDB && f.state == F.SendLS && l.checks > 0;
    Link(f, l.s, l.toPms + out, if took then l.toPbx[1..] else l.toPbx, if checking then l.checks - 1 else l.checks)
  }

  function PmsNext(c: Setups, l: Link, e: Env): Link {
    var (s, out) := S.Step(c.pms, l.s, e);
    var took := S.Reads(l.s.state) && e.result == RecordRead && l.toPms != [];
    Link(l.f, s, if took then l.toPms[1..] else l.toPms, l.toPbx + out, l.checks)
  }

  function Next(c: Setups, l: Link, ev: Event): Link {
    match ev
    case Turn(Pbx, e) => PbxNext(c, l, e)
    case Turn(Pms, e) => PmsNext(c, l, e)
    case Queue(Pbx, id, m) => l.(f := l.f.(queue := l.f.queue + [Entry(id, m, false)]))
    case Queue(Pms, id, m) => l.(s := l.s.(queue := l.s.queue + [Entry(id, m, false)]))
  }

  // ---- The phases of the link ----

  datatype Phase =
    | Greeting | GreetingSent | Announcing | Announced | Granting | Granted
    | Idle | Checking | CheckSent | Answering | Answered | Confirming

  /** What the server stores in its data states. */
  predicate DataRecord(c: Config, r: string) {
    Op(r) != "LS" && Op(r) != "LE" && Op(r) != "LA" && Acceptable(Parse(c, r))
  }

  predicate AllData(c: Config, ch: seq<string>) { forall i :: 0 <= i < |ch| ==> DataRecord(c, ch[i]) }

  /** What fiasd takes in its data states: data, the swap's two commands, and the rest of an announcement. */
  predicate Taken(c: Config, r: string) {
    Op(r) != "LS" && Op(r) != "LE" && (Op(r) == "LA" || Op(r) == "DS" || Op(r) == "DE" || Acceptable(Parse(c, r)))
  }

  predicate AllTaken(c: Config, ch: seq<string>) { forall i :: 0 <= i < |ch| ==> Taken(c, ch[i]) }

  predicate LastIsLA(ch: seq<string>) { ch != [] && Op(ch[|ch| - 1]) == "LA" }

  /** The message in hand is the first of the queue. */
  predicate Sending(c: Config, queue: seq<Entry>, recordId: nat, record: string) {
    var k := FirstUndone(queue);
    k < |queue| && queue[k].id == recordId && record == RecordOf(c, queue[k].message)
  }

  predicate PbxIdle(c: Config, m: F.Machine) {
    match m.state
    case WaitForData => true
    case ReadDB => true
    case WriteDB => Acceptable(Parse(c, m.record))
    case SendData => Sending(c, m.queue, m.recordId, m.record)
    case _ => false
  }

  predicate PmsIdle(c: Config, m: S.Machine) {
    match m.state
    case WaitForData => true
    case ReadDB => true
    case WriteDB => Acceptable(Parse(c, m.record))
    case SendData => Sending(c, m.queue, m.recordId, m.record)
    case _ => false
  }

  /** The server in its data states with data on the way, or still owed the LA that lets it go on. */
  predicate PmsReady(c: Config, m: S.Machine, ch: seq<string>) {
    if m.state == S.WaitForLA then ch != [] && Op(ch[0]) == "LA" && AllData(c, ch[1..])
    else PmsIdle(c, m) && AllData(c, ch)
  }

  predicate In(c: Setups, l: Link, p: Phase) {
    var w := c.pbx.wire;
    match p
    case Greeting =>
      l.f.state == F.WaitForSincro && l.s.state in {S.Start, S.SendLS} && l.toPms == [] && l.toPbx == []
    case GreetingSent =>
      && l.f.state == F.WaitForSincro && l.s.state == S.WaitForLDLRLA
      && l.toPms == [] && |l.toPbx| == 1 && Op(l.toPbx[0]) == "LS"
    case Announcing =>
      l.f.state == F.SendLDLRLA && l.s.state == S.WaitForLDLRLA && l.toPms == [] && l.toPbx == []
    case Announced =>
      && l.f.state == F.WaitForLA && l.s.state == S.WaitForLDLRLA && l.toPbx == [] && LastIsLA(l.toPms)
      && forall i :: 0 <= i < |l.toPms| - 1 ==> Op(l.toPms[i]) in {"LD", "LR"}
    case Granting =>
      l.f.state == F.WaitForLA && l.s.state == S.SendLA && l.toPms == [] && l.toPbx == []
    case Granted =>
      && l.f.state == F.WaitForLA && PmsIdle(w, l.s) && l.toPms == []
      && l.toPbx != [] && Op(l.toPbx[0]) == "LA" && AllTaken(w, l.toPbx[1..])
    case Idle =>
      PbxIdle(w, l.f) && PmsReady(w, l.s, l.toPms) && AllTaken(w, l.toPbx)
    case Checking =>
      && l.f.state == F.SendLS && PmsReady(w, l.s, l.toPms) && l.toPbx == []
      && Unsent(l.s.queue) == [] && ValidTable(c.pms)
    case CheckSent =>
      && l.f.state == F.WaitForLSLA && l.toPbx == [] && l.toPms != [] && Op(l.toPms[|l.toPms| - 1]) == "LS"
      && PmsReady(w, l.s, l.toPms[..|l.toPms| - 1])
      && Unsent(l.s.queue) == [] && ValidTable(c.pms)
    case Answering =>
      && l.f.state == F.WaitForLSLA && l.s.state == S.SendLDLRLA && l.toPms == [] && l.toPbx == []
      && ValidTable(c.pms)
    case Answered =>
      && l.f.state == F.WaitForLSLA && l.s.state == S.WaitForLA && l.toPms == []
      && l.toPbx != [] && Op(l.toPbx[0]) == "LD" && AllTaken(w, l.toPbx[1..])
    case Confirming =>
      l.f.state == F.SendLA && l.s.state == S.WaitForLA && l.toPms == [] && AllTaken(w, l.toPbx)
  }

  /** What holds in every phase: only data to send, and no check for a table that cannot answer it. */
  predicate Steady(c: Setups, l: Link) {
    && DataQueue(c.pbx.wire, l.f.queue) && DataQueue(c.pbx.wire, l.s.queue)
    && (l.checks > 0 ==> ValidTable(c.pms))
  }

  ghost predicate Inv(c: Setups, l: Link) { Steady(c, l) && exists p :: In(c, l, p) }

  // ---- The measure ----

  function Longest(c: Setups): nat { |c.pbx.table| + |c.pms.table| }

  function RecordWeight(c: Setups, r: string): nat { if Op(r) == "LS" then 5 * Longest(c) + 20 else 5 }

  function Weight(c: Setups, ch: seq<string>): nat {
    if ch == [] then 0 else RecordWeight(c, ch[0]) + Weight(c, ch[1..])
  }

  function PbxRank(c: Setups, s: F.State): nat {
    match s
    case SendData => 1
    case ReadDB => 2
    case WriteDB => 3
    case SendLA => 6
    case WaitForLSLA => 2
    case WaitForLA => 1
    case SendLDLRLA => 5 * Longest(c) + 10
    case SendLS => 5 * Longest(c) + 30
    case _ => 0
  }

  function PmsRank(c: Setups, s: S.State): nat {
    match s
    case SendData => 1
    case ReadDB => 2
    case WriteDB => 3
    case WaitForLA => 1
    case WaitForLDLRLA => 4
    case SendLA => 8
    case SendLDLRLA => 5 * Longest(c) + 10
    case SendLS => 5 * Longest(c) + 30
    case Start => 5 * Longest(c) + 31
    case _ => 0
  }

  function ChecksWeight(c: Setups, n: nat): nat { if n == 0 then 0 else 5 * Longest(c) + 40 + ChecksWeight(c, n - 1) }

  function Measure(c: Setups, l: Link): nat {
    PbxRank(c, l.f.state) + PmsRank(c, l.s.state) + Weight(c, l.toPms) + Weight(c, l.toPbx)
    + 5 * |Unsent(l.f.queue)| + 5 * |Unsent(l.s.queue)| + ChecksWeight(c, l.checks)
  }

  lemma {:induction false} WeightConcat(c: Setups, a: seq<string>, b: seq<string>)
    ensures Weight(c, a + b) == Weight(c, a) + Weight(c, b)
  {
    if a == [] {
      Text.Unit(b);
    } else {
      assert (a + b)[1..] == a[1..] + b;
      WeightConcat(c, a[1..], b);
    }
  }

  lemma {:induction false} WeightLight(c: Setups, ch: seq<string>)
    requires forall i :: 0 <= i < |ch| ==> Op(ch[i]) != "LS"
    ensures Weight(c, ch) == 5 * |ch|
  {
    if ch != [] { WeightLight(c, ch[1..]); }
  }

  // ---- Queues ----

  lemma {:induction false} FirstUnsent(queue: seq<Entry>)
    ensures var k := FirstUndone(queue);
      if k == |queue| then Unsent(queue) == [] else Unsent(queue) != [] && Unsent(queue)[0] == queue[k].message
  {
    if queue != [] && queue[0].done { FirstUnsent(queue[1..]); }
  }

  lemma {:induction false} MarkedAway(queue: seq<Entry>, id: nat)
    requires Fresh(queue, id)
    ensures MarkDone(queue, id) == queue
  {
  }

  /** Marking the message in hand takes it out of those to send. */
  lemma {:induction false} MarkedFirst(queue: seq<Entry>)
    requires forall i, j :: 0 <= i < j < |queue| ==> queue[i].id != queue[j].id
    requires FirstUndone(queue) < |queue|
    ensures Unsent(queue) != []
    ensures Unsent(MarkDone(queue, queue[FirstUndone(queue)].id)) == Unsent(queue)[1..]
  {
    var k := FirstUndone(queue);
    var marked := MarkDone(queue, queue[k].id);
    if k == 0 {
      MarkedAway(queue[1..], queue[0].id);
      assert marked[1..] == queue[1..];
    } else {
      assert marked[1..] == MarkDone(queue[1..], queue[k].id);
      MarkedFirst(queue[1..]);
    }
  }

  lemma {:induction false} UnsentMore(queue: seq<Entry>, x: Entry)
    requires !x.done
    ensures Unsent(queue + [x]) == Unsent(queue) + [x.message]
    ensures FirstUndone(queue) < |queue| ==> FirstUndone(queue + [x]) == FirstUndone(queue)
  {
    if queue == [] {
      assert [x][1..] == [] && queue + [x] == [x];
    } else {
      assert (queue + [x])[0] == queue[0] && (queue + [x])[1..] == queue[1..] + [x];
      UnsentMore(queue[1..], x);
    }
  }

  lemma {:induction false} NoPendingLE(queue: seq<Entry>)
    requires forall m <- Unsent(queue) :: m.cmd != "LE"
    ensures DropPendingLE(queue) == queue
  {
    if queue != [] {
      assert !queue[0].done ==> queue[0].message in Unsent(queue);
      assert forall m <- Unsent(queue[1..]) :: m in Unsent(queue);
      NoPendingLE(queue[1..]);
    }
  }

  /** The sent message's record: data for either side. */
  lemma SentRecord(c: Config, m: Message)
    requires ValidConfig(c) && Data(c, m)
    ensures DataRecord(c, RecordOf(c, m)) && Taken(c, RecordOf(c, m)) && !("LE" <= RecordOf(c, m))
    ensures Parse(c, RecordOf(c, m)) == NormalMessage(m)
  {
    ParseRecord(c, m);
    var r := RecordOf(c, m);
    assert m.cmd == [m.cmd[0], m.cmd[1]] && m.cmd != "LE";
    assert r[0] == m.cmd[0] && r[1] == m.cmd[1];
  }

  /** The announcement of a table, as the two receivers need it. */
  lemma AnnounceShape(c: Setup, e: Env)
    requires TableRecords(c)
    ensures var a := Announce(c, e);
      && |a| == |c.table| + 1 && LastIsLA(a)
      && (forall i :: 0 <= i < |a| - 1 ==> Op(a[i]) in {"LD", "LR"})
      && (forall i :: 0 <= i < |a| ==> Op(a[i]) != "LS")
  {
    var a := Announce(c, e);
    LinkRecordOp(c.wire, "LA", e);
    forall i | 0 <= i < |c.table| ensures Op(a[i]) in {"LD", "LR"} {
      TableRecordOp(c.table[i], e);
      assert Op(c.table[i]) in {"LD", "LR"};
    }
  }

  lemma AnnounceWeight(c: Setups, side: Setup, e: Env)
    requires TableRecords(side)
    ensures Weight(c, Announce(side, e)) == 5 * |side.table| + 5
  {
    AnnounceShape(side, e);
    WeightLight(c, Announce(side, e));
  }

  lemma AnnounceTaken(c: Setup, e: Env)
    requires TableRecords(c) && ValidTable(c) && PlainSeparator(c.wire) && Dated(e)
    ensures var a := Announce(c, e); Op(a[0]) == "LD" && AllTaken(c.wire, a[1..])
  {
    AnnounceShape(c, e);
    var a := Announce(c, e);
    TableRecordOp(c.table[0], e);
    forall i | 0 <= i < |a| - 1 ensures Taken(c.wire, a[1..][i]) {
      if i < |c.table| - 1 { TableRecordOk(c.wire, c.table[i + 1], e); }
    }
  }

  // ---- Every event keeps the phases, and only polls and queueing do not shrink the measure ----

  /** A poll may raise the measure by two, a message queued by five. */
  predicate Falls(c: Setups, l: Link, ev: Event, l': Link) {
    if Poll(l, ev) then Measure(c, l') <= Measure(c, l) + 2
    else if ev.Queue? then Measure(c, l') <= Measure(c, l) + 5
    else Measure(c, l') < Measure(c, l)
  }

  /** The event keeps the link in a phase, and its measure falls. */
  ghost predicate Good(c: Setups, l: Link, ev: Event, l': Link, p: Phase) {
    l' == Next(c, l, ev) && Steady(c, l') && In(c, l', p) && Falls(c, l, ev, l')
  }

  /** What the PBX's data states keep, whatever the PMS is doing. */
  predicate PbxPart(c: Setups, l: Link) {
    PbxIdle(c.pbx.wire, l.f) && DataQueue(c.pbx.wire, l.f.queue) && AllTaken(c.pbx.wire, l.toPbx)
  }

  /** At most one record more in flight. */
  predicate OneMore(ch: seq<string>, ch': seq<string>) {
    ch' == ch || (|ch'| == |ch| + 1 && ch'[..|ch|] == ch)
  }

  /** A data turn of the PBX: nothing changes on the other side but a data record more in flight. */
  ghost predicate PbxTurn(c: Setups, l: Link, e: Env, l': Link) {
    && l' == PbxNext(c, l, e) && PbxPart(c, l') && l'.s == l.s && l'.checks == l.checks && Falls(c, l, Turn(Pbx, e), l')
    && OneMore(l.toPms, l'.toPms)
    && (l'.toPms != l.toPms ==> DataRecord(c.pbx.wire, l'.toPms[|l.toPms|]))
  }

  lemma {:induction false} PbxReads(c: Setups, l: Link, e: Env, l': Link)
    requires PbxPart(c, l) && Allowed(c, l, Turn(Pbx, e)) && l.f.state == F.WaitForData && l' == PbxNext(c, l, e)
    ensures PbxTurn(c, l, e, l')
  {
    Text.Unit(l.toPms);
    if e.result == TimedOut {
      assert l' == l.(f := l.f.(state := F.ReadDB));
    } else {
      var r := l.toPbx[0];
      var op := Op(r);
      assert Taken(c.pbx.wire, r);
      var s' := if op == "LA" || op == "DS" || op == "DE" then F.WaitForData else F.WriteDB;
      var lock' := if op == "DS" then true else if op == "DE" then false else l.f.lock;
      assert l' == l.(f := l.f.(state := s', lock := lock', record := r, lastCommunication := e.now),
                      toPbx := l.toPbx[1..]);
    }
  }

  lemma {:induction false} PbxStores(c: Setups, l: Link, e: Env, l': Link)
    requires PbxPart(c, l) && Allowed(c, l, Turn(Pbx, e)) && l.f.state == F.WriteDB && l' == PbxNext(c, l, e)
    ensures PbxTurn(c, l, e, l')
  {
    Text.Unit(l.toPms);
    var got := Parse(c.pbx.wire, l.f.record);
    assert l' == l.(f := l.f.(state := F.ReadDB, stored := l.f.stored + [got]));
  }

  lemma KeepsDataQueue(c: Config, queue: seq<Entry>)
    requires DataQueue(c, queue) && FirstUndone(queue) < |queue|
    ensures DataQueue(c, MarkDone(queue, queue[FirstUndone(queue)].id))
    ensures |Unsent(MarkDone(queue, queue[FirstUndone(queue)].id))| == |Unsent(queue)| - 1
    ensures Data(c, queue[FirstUndone(queue)].message)
  {
    FirstUnsent(queue);
    MarkedFirst(queue);
  }

  lemma {:induction false} PbxSends(c: Setups, l: Link, e: Env, l': Link)
    requires ValidSetups(c)
    requires PbxPart(c, l) && Allowed(c, l, Turn(Pbx, e)) && l.f.state == F.SendData && l' == PbxNext(c, l, e)
    ensures PbxTurn(c, l, e, l')
  {
    var w, r := c.pbx.wire, l.f.record;
    KeepsDataQueue(w, l.f.queue);
    SentRecord(w, l.f.queue[FirstUndone(l.f.queue)].message);
    WeightConcat(c, l.toPms, [r]);
    assert Weight(c, [r]) == 5;
    assert l' == l.(f := l.f.(state := F.WaitForData, queue := MarkDone(l.f.queue, l.f.recordId),
                              lastCommunication := e.now),
                    toPms := l.toPms + [r]);
  }

  lemma {:induction false} PbxQueries(c: Setups, l: Link, e: Env, l': Link)
    requires ValidSetups(c)
    requires PbxPart(c, l) && Allowed(c, l, Turn(Pbx, e)) && l.f.state == F.ReadDB && l' == PbxNext(c, l, e)
    ensures !StartsCheck(c, l, e) ==> PbxTurn(c, l, e, l')
    ensures StartsCheck(c, l, e) ==>
      l' == l.(f := l.f.(state := F.SendLS), checks := l.checks - 1) && Falls(c, l, Turn(Pbx, e), l')
  {
    Text.Unit(l.toPms);
    FirstUnsent(l.f.queue);
    var k := FirstUndone(l.f.queue);
    if l.f.lock {
      assert l' == l.(f := l.f.(state := F.WaitForData));
    } else if k < |l.f.queue| {
      var m := l.f.queue[k].message;
      SentRecord(c.pbx.wire, m);
      assert l' == l.(f := l.f.(state := F.SendData, record := RecordOf(c.pbx.wire, m), recordId := l.f.queue[k].id));
    } else if StartsCheck(c, l, e) {
      assert l' == l.(f := l.f.(state := F.SendLS), checks := l.checks - 1);
    } else {
      assert l' == l.(f := l.f.(state := F.WaitForData));
    }
  }

  lemma {:induction false} PbxIdleTurn(c: Setups, l: Link, e: Env, l': Link) returns (q: Phase)
    requires ValidSetups(c) && Steady(c, l) && Allowed(c, l, Turn(Pbx, e)) && l' == PbxNext(c, l, e) && In(c, l, Idle)
    ensures Good(c, l, Turn(Pbx, e), l', q)
  {
    q := Idle;
    assert PbxPart(c, l);
    if l.f.state == F.WaitForData { PbxReads(c, l, e, l');
    } else if l.f.state == F.WriteDB { PbxStores(c, l, e, l');
    } else if l.f.state == F.SendData { PbxSends(c, l, e, l');
    } else {
      PbxQueries(c, l, e, l');
      if StartsCheck(c, l, e) { q := Checking; return; }
    }
    StillReady(c.pbx.wire, l.s, l.toPms, l'.toPms);
  }

  lemma StillReady(c: Config, m: S.Machine, ch: seq<string>, ch': seq<string>)
    requires PmsReady(c, m, ch) && OneMore(ch, ch') && (ch' != ch ==> DataRecord(c, ch'[|ch|]))
    ensures PmsReady(c, m, ch')
  {
    if ch' != ch {
      assert ch' == ch + [ch'[|ch|]];
      if ch != [] { assert ch'[1..] == ch[1..] + [ch'[|ch|]]; }
    }
  }

  // ---- The data turns of the server ----

  /** A data turn of the PMS, with `tail` of the channel out of its reach: nothing changes on the other side but a
      data record more in flight, and not even that when its queue is done. */
  ghost predicate PmsTurn(c: Setups, l: Link, e: Env, l': Link, ch': seq<string>, tail: seq<string>) {
    && l' == PmsNext(c, l, e) && l'.toPms == ch' + tail && PmsReady(c.pbx.wire, l'.s, ch')
    && DataQueue(c.pbx.wire, l'.s.queue) && l'.f == l.f && l'.checks == l.checks && Falls(c, l, Turn(Pms, e), l')
    && (Unsent(l.s.queue) == [] ==> l'.toPbx == l.toPbx && Unsent(l'.s.queue) == [])
    && OneMore(l.toPbx, l'.toPbx)
    && (l'.toPbx != l.toPbx ==> Taken(c.pbx.wire, l'.toPbx[|l.toPbx|]))
  }

  /** The server may take this turn without reaching into the tail. */
  predicate PmsMay(c: Setups, l: Link, e: Env, ch: seq<string>, tail: seq<string>) {
    && l.toPms == ch + tail && PmsReady(c.pbx.wire, l.s, ch) && DataQueue(c.pbx.wire, l.s.queue)
    && Allowed(c, l, Turn(Pms, e)) && (S.Reads(l.s.state) && e.result == RecordRead ==> ch != [])
  }

  lemma {:induction false} PmsReads(c: Setups, l: Link, e: Env, l': Link, ch: seq<string>, tail: seq<string>)
    returns (ch': seq<string>)
    requires PmsMay(c, l, e, ch, tail) && l' == PmsNext(c, l, e) && l.s.state in {S.WaitForData, S.WaitForLA}
    ensures PmsTurn(c, l, e, l', ch', tail)
  {
    Text.Unit(l.toPbx);
    ch' := ch;
    if e.result == TimedOut {
      assert l' == l.(s := l.s.(state := S.ReadDB));
    } else {
      var r := ch[0];
      ch' := ch[1..];
      assert l.toPms[0] == r && l.toPms[1..] == ch' + tail;
      assert l.s.state == S.WaitForData ==> DataRecord(c.pbx.wire, r);
      var s' := if l.s.state == S.WaitForLA then S.WaitForData else S.WriteDB;
      assert l' == l.(s := l.s.(state := s', record := r), toPms := l.toPms[1..]);
    }
  }

  lemma {:induction false} PmsSends(c: Setups, l: Link, e: Env, l': Link, ch: seq<string>, tail: seq<string>)
    requires ValidSetups(c) && PmsMay(c, l, e, ch, tail) && l' == PmsNext(c, l, e) && l.s.state == S.SendData
    ensures PmsTurn(c, l, e, l', ch, tail)
  {
    var w, r := c.pbx.wire, l.s.record;
    KeepsDataQueue(w, l.s.queue);
    FirstUnsent(l.s.queue);
    SentRecord(w, l.s.queue[FirstUndone(l.s.queue)].message);
    WeightConcat(c, l.toPbx, [r]);
    assert Weight(c, [r]) == 5;
    assert l' == l.(s := l.s.(state := S.WaitForData, queue := MarkDone(l.s.queue, l.s.recordId)),
                    toPbx := l.toPbx + [r]);
  }

  lemma {:induction false} PmsQueries(c: Setups, l: Link, e: Env, l': Link, ch: seq<string>, tail: seq<string>)
    requires ValidSetups(c) && PmsMay(c, l, e, ch, tail) && l' == PmsNext(c, l, e) && l.s.state in {S.ReadDB, S.WriteDB}
    ensures PmsTurn(c, l, e, l', ch, tail)
  {
    Text.Unit(l.toPbx);
    if l.s.state == S.WriteDB {
      assert l' == l.(s := l.s.(state := S.ReadDB, stored := l.s.stored + [Parse(c.pms.wire, l.s.record)]));
    } else {
      FirstUnsent(l.s.queue);
      var k := FirstUndone(l.s.queue);
      if k == |l.s.queue| {
        assert l' == l.(s := l.s.(state := S.WaitForData));
      } else {
        var m := l.s.queue[k].message;
        SentRecord(c.pbx.wire, m);
        assert l' == l.(s := l.s.(state := S.SendData, record := RecordOf(c.pms.wire, m), recordId := l.s.queue[k].id));
      }
    }
  }

  lemma {:induction false} PmsDataTurn(c: Setups, l: Link, e: Env, l': Link, ch: seq<string>, tail: seq<string>) returns (ch': seq<string>)
    requires ValidSetups(c) && PmsMay(c, l, e, ch, tail) && l' == PmsNext(c, l, e)
    ensures PmsTurn(c, l, e, l', ch', tail)
  {
    ch' := ch;
    if l.s.state in {S.WaitForData, S.WaitForLA} { ch' := PmsReads(c, l, e, l', ch, tail);
    } else if l.s.state == S.SendData { PmsSends(c, l, e, l', ch, tail);
    } else { PmsQueries(c, l, e, l', ch, tail); }
  }

  lemma StillTaken(c: Config, ch: seq<string>, ch': seq<string>)
    requires AllTaken(c, ch) && OneMore(ch, ch') && (ch' != ch ==> Taken(c, ch'[|ch|]))
    ensures AllTaken(c, ch')
  {
    if ch' != ch { assert ch' == ch + [ch'[|ch|]]; }
  }

  /** A turn of the PMS in its data states, or while it is owed the LA of the last check. */
  lemma {:induction false} PmsIdleTurn(c: Setups, l: Link, e: Env, p: Phase, l': Link) returns (q: Phase)
    requires ValidSetups(c) && Steady(c, l) && Allowed(c, l, Turn(Pms, e)) && l' == PmsNext(c, l, e)
    requires In(c, l, p) && p in {Granted, Idle, Checking}
    ensures Good(c, l, Turn(Pms, e), l', q)
  {
    q := p;
    Text.Unit(l.toPms);
    var ch' := PmsDataTurn(c, l, e, l', l.toPms, []);
    Text.Unit(ch');
    if p == Granted {
      assert OneMore(l.toPbx[1..], l'.toPbx[1..]);
      StillTaken(c.pbx.wire, l.toPbx[1..], l'.toPbx[1..]);
    } else if p == Idle {
      StillTaken(c.pbx.wire, l.toPbx, l'.toPbx);
    }
  }

  /** The PMS takes the LS of a link check, or makes a turn before it comes to that. */
  lemma PmsCheckTurn(c: Setups, l: Link, e: Env, l': Link) returns (q: Phase)
    requires ValidSetups(c) && Steady(c, l) && Allowed(c, l, Turn(Pms, e)) && l' == PmsNext(c, l, e)
    requires In(c, l, CheckSent)
    ensures Good(c, l, Turn(Pms, e), l', q)
  {
    if |l.toPms| == 1 && S.Reads(l.s.state) && e.result == RecordRead {
      q := Answering;
      PmsTakesLS(c, l, e, l');
    } else {
      q := CheckSent;
      PmsBeforeLS(c, l, e, l');
    }
  }

  lemma {:induction false} PmsTakesLS(c: Setups, l: Link, e: Env, l': Link)
    requires Steady(c, l) && Allowed(c, l, Turn(Pms, e)) && l' == PmsNext(c, l, e)
    requires In(c, l, CheckSent) && |l.toPms| == 1 && S.Reads(l.s.state) && e.result == RecordRead
    ensures Good(c, l, Turn(Pms, e), l', Answering)
  {
    Text.Unit(l.toPbx);
    assert l' == l.(s := l.s.(state := S.SendLDLRLA, record := l.toPms[0]), toPms := []);
  }

  lemma {:induction false} PmsBeforeLS(c: Setups, l: Link, e: Env, l': Link)
    requires ValidSetups(c) && Steady(c, l) && Allowed(c, l, Turn(Pms, e)) && l' == PmsNext(c, l, e)
    requires In(c, l, CheckSent) && (|l.toPms| > 1 || !S.Reads(l.s.state) || e.result != RecordRead)
    ensures Good(c, l, Turn(Pms, e), l', CheckSent)
  {
    var ch, r := LSLast(c, l, e);
    var ch' := PmsDataTurn(c, l, e, l', ch, [r]);
    CheckStillSent(c, l', ch', r);
  }

  /** The LS of the check is the last in flight, and out of reach of this turn. */
  lemma {:induction false} LSLast(c: Setups, l: Link, e: Env) returns (ch: seq<string>, r: string)
    requires Steady(c, l) && Allowed(c, l, Turn(Pms, e)) && In(c, l, CheckSent)
    requires |l.toPms| > 1 || !S.Reads(l.s.state) || e.result != RecordRead
    ensures PmsMay(c, l, e, ch, [r]) && Op(r) == "LS" && Unsent(l.s.queue) == []
    ensures l.f.state == F.WaitForLSLA && l.toPbx == [] && ValidTable(c.pms)
  {
    var n := |l.toPms| - 1;
    ch, r := l.toPms[..n], l.toPms[n];
    assert l.toPms == ch + [r];
  }

  lemma CheckStillSent(c: Setups, l: Link, ch: seq<string>, r: string)
    requires l.toPms == ch + [r] && Op(r) == "LS" && PmsReady(c.pbx.wire, l.s, ch) && ValidTable(c.pms)
    requires l.f.state == F.WaitForLSLA && l.toPbx == [] && Unsent(l.s.queue) == []
    ensures In(c, l, CheckSent)
  {
    assert l.toPms[..|l.toPms| - 1] == ch;
  }

  // ---- The handshake and the check ----

  /** The PBX sends its table. */
  lemma {:induction false} PbxAnnounces(c: Setups, l: Link, e: Env, l': Link)
    requires ValidSetups(c) && Steady(c, l) && Allowed(c, l, Turn(Pbx, e)) && l' == PbxNext(c, l, e)
    requires In(c, l, Announcing)
    ensures Good(c, l, Turn(Pbx, e), l', Announced)
  {
    var a := Announce(c.pbx, e);
    AnnounceShape(c.pbx, e);
    AnnounceWeight(c, c.pbx, e);
    Text.Unit(a);
    assert l' == l.(f := l.f.(state := F.WaitForLA, lastCommunication := e.now), toPms := a);
  }

  lemma PmsTableSent(c: Setups, l: Link, e: Env)
    requires c.pms.table != [] && l.s.state == S.SendLDLRLA && e.sent && l.toPbx == []
    ensures PmsNext(c, l, e) == l.(s := l.s.(state := S.WaitForLA), toPbx := Announce(c.pms, e))
  {
    Text.Unit(Announce(c.pms, e));
  }

  /** The PMS answers a link check with its table. */
  lemma {:induction false} PmsAnswers(c: Setups, l: Link, e: Env, l': Link)
    requires ValidSetups(c) && Steady(c, l) && Allowed(c, l, Turn(Pms, e)) && l' == PmsNext(c, l, e)
    requires In(c, l, Answering)
    ensures Good(c, l, Turn(Pms, e), l', Answered)
  {
    var a := Announce(c.pms, e);
    PmsTableSent(c, l, e);
    AnnounceTaken(c.pms, e);
    AnnounceWeight(c, c.pms, e);
    assert l' == l.(s := l.s.(state := S.WaitForLA), toPbx := a);
    assert Weight(c, l'.toPbx) == 5 * |c.pms.table| + 5;
  }

  /** The PBX's turns of the handshake. */
  lemma {:induction false} PbxGreetingTurn(c: Setups, l: Link, e: Env, p: Phase, l': Link) returns (q: Phase)
    requires ValidSetups(c) && Steady(c, l) && Allowed(c, l, Turn(Pbx, e)) && l' == PbxNext(c, l, e)
    requires In(c, l, p) && p in {Greeting, GreetingSent, Announcing, Announced, Granting, Granted}
    ensures Good(c, l, Turn(Pbx, e), l', q)
  {
    Text.Unit(l.toPms);
    match p
    case GreetingSent =>
      q := Announcing;
      assert l' == l.(f := l.f.(state := F.SendLDLRLA, record := l.toPbx[0], lastCommunication := e.now), toPbx := []);
    case Announcing =>
      q := Announced;
      PbxAnnounces(c, l, e, l');
    case Granted =>
      q := Idle;
      assert l' == l.(f := l.f.(state := F.WaitForData, record := l.toPbx[0], lastCommunication := e.now),
                      toPbx := l.toPbx[1..]);
  }

  /** The PBX's turns of a link check. */
  lemma {:induction false} PbxCheckTurn(c: Setups, l: Link, e: Env, p: Phase, l': Link) returns (q: Phase)
    requires ValidSetups(c) && Steady(c, l) && Allowed(c, l, Turn(Pbx, e)) && l' == PbxNext(c, l, e)
    requires In(c, l, p) && p in {Checking, CheckSent, Answering, Answered, Confirming}
    ensures Good(c, l, Turn(Pbx, e), l', q)
  {
    match p
    case Checking =>
      q := CheckSent;
      PbxChecks(c, l, e, l');
    case Answered =>
      q := Confirming;
      Text.Unit(l.toPms);
      assert l' == l.(f := l.f.(state := F.SendLA, record := l.toPbx[0], lastCommunication := e.now),
                      toPbx := l.toPbx[1..]);
    case Confirming =>
      q := Idle;
      PbxConfirms(c, l, e, l');
  }

  lemma {:induction false} PbxChecks(c: Setups, l: Link, e: Env, l': Link)
    requires Steady(c, l) && Allowed(c, l, Turn(Pbx, e)) && l' == PbxNext(c, l, e) && In(c, l, Checking)
    ensures Good(c, l, Turn(Pbx, e), l', CheckSent)
  {
    var r := LinkRecord(c.pbx.wire, "LS", e);
    LinkRecordOp(c.pbx.wire, "LS", e);
    WeightConcat(c, l.toPms, [r]);
    assert Weight(c, [r]) == 5 * Longest(c) + 20;
    assert (l.toPms + [r])[..|l.toPms|] == l.toPms;
    assert l' == l.(f := l.f.(state := F.WaitForLSLA, lastCommunication := e.now), toPms := l.toPms + [r]);
  }

  lemma PbxConfirms(c: Setups, l: Link, e: Env, l': Link)
    requires Steady(c, l) && Allowed(c, l, Turn(Pbx, e)) && l' == PbxNext(c, l, e) && In(c, l, Confirming)
    ensures Good(c, l, Turn(Pbx, e), l', Idle)
  {
    var r := LinkRecord(c.pbx.wire, "LA", e);
    LinkRecordOp(c.pbx.wire, "LA", e);
    Text.Unit([r]);
    assert l' == l.(f := l.f.(state := F.WaitForData, lastCommunication := e.now), toPms := [r]);
  }

  /** The PMS's turns of the handshake, up to its LA. */
  lemma {:induction false} PmsGreetingTurn(c: Setups, l: Link, e: Env, p: Phase, l': Link) returns (q: Phase)
    requires ValidSetups(c) && Steady(c, l) && Allowed(c, l, Turn(Pms, e)) && l' == PmsNext(c, l, e)
    requires In(c, l, p) && p in {Greeting, GreetingSent, Announcing, Announced, Granting}
    ensures Good(c, l, Turn(Pms, e), l', q)
  {
    match p
    case Greeting => q := PmsGreets(c, l, e, l');
    case Announced =>
      q := if |l.toPms| == 1 then Granting else Announced;
      Text.Unit(l.toPbx);
      assert Op(l.toPms[0]) == "LA" || Op(l.toPms[0]) in {"LD", "LR"};
      assert l' == l.(s := l.s.(state := if |l.toPms| == 1 then S.SendLA else S.WaitForLDLRLA, record := l.toPms[0]),
                      toPms := l.toPms[1..]);
    case Granting =>
      q := Granted;
      PmsGrants(c, l, e, l');
  }

  lemma PmsGreets(c: Setups, l: Link, e: Env, l': Link) returns (q: Phase)
    requires ValidSetups(c) && Steady(c, l) && Allowed(c, l, Turn(Pms, e)) && l' == PmsNext(c, l, e)
    requires In(c, l, Greeting)
    ensures Good(c, l, Turn(Pms, e), l', q)
  {
    Text.Unit(l.toPbx);
    if l.s.state == S.Start {
      q := Greeting;
      NoPendingLE(l.s.queue);
      assert l' == l.(s := l.s.(state := S.SendLS));
    } else {
      q := GreetingSent;
      var r := LinkRecord(c.pms.wire, "LS", e);
      LinkRecordOp(c.pms.wire, "LS", e);
      Text.Unit([r]);
      assert l' == l.(s := l.s.(state := S.WaitForLDLRLA), toPbx := [r]);
    }
  }

  lemma PmsGrants(c: Setups, l: Link, e: Env, l': Link)
    requires Steady(c, l) && Allowed(c, l, Turn(Pms, e)) && l' == PmsNext(c, l, e) && In(c, l, Granting)
    ensures Good(c, l, Turn(Pms, e), l', Granted)
  {
    var r := LinkRecord(c.pms.wire, "LA", e);
    LinkRecordOp(c.pms.wire, "LA", e);
    Text.Unit([r]);
    assert l' == l.(s := l.s.(state := S.WaitForData), toPbx := [r]);
  }

  lemma {:induction false} PbxTurnIsGood(c: Setups, l: Link, e: Env, p: Phase, l': Link) returns (q: Phase)
    requires ValidSetups(c) && Steady(c, l) && In(c, l, p) && Allowed(c, l, Turn(Pbx, e)) && l' == PbxNext(c, l, e)
    ensures Good(c, l, Turn(Pbx, e), l', q)
  {
    if p == Idle { q := PbxIdleTurn(c, l, e, l');
    } else if p in {Checking, CheckSent, Answering, Answered, Confirming} { q := PbxCheckTurn(c, l, e, p, l');
    } else { q := PbxGreetingTurn(c, l, e, p, l'); }
  }

  lemma {:induction false} PmsTurnIsGood(c: Setups, l: Link, e: Env, p: Phase, l': Link) returns (q: Phase)
    requires ValidSetups(c) && Steady(c, l) && In(c, l, p) && Allowed(c, l, Turn(Pms, e)) && l' == PmsNext(c, l, e)
    ensures Good(c, l, Turn(Pms, e), l', q)
  {
    if p in {Granted, Idle, Checking} { q := PmsIdleTurn(c, l, e, p, l');
    } else if p == CheckSent { q := PmsCheckTurn(c, l, e, l');
    } else if p == Answering {
      q := Answered;
      PmsAnswers(c, l, e, l');
    } else {
      assert p !in {Answered, Confirming};
      q := PmsGreetingTurn(c, l, e, p, l');
    }
  }

  // ---- Queueing ----

  lemma QueueMore(c: Config, queue: seq<Entry>, x: Entry)
    requires DataQueue(c, queue) && Fresh(queue, x.id) && !x.done && Data(c, x.message)
    ensures DataQueue(c, queue + [x]) && |Unsent(queue + [x])| == |Unsent(queue)| + 1
    ensures forall id, r :: Sending(c, queue, id, r) ==> Sending(c, queue + [x], id, r)
  {
    UnsentMore(queue, x);
  }

  lemma CheckIsPending(c: Setups, l: Link, p: Phase)
    requires In(c, l, p)
    ensures p in {Checking, CheckSent} ==> CheckPending(l)
  {
    if p == CheckSent { assert Op(l.toPms[|l.toPms| - 1]) == "LS"; }
  }

  lemma QueueIsGood(c: Setups, l: Link, side: Side, id: nat, m: Message, p: Phase)
    requires ValidSetups(c) && Steady(c, l) && In(c, l, p) && Allowed(c, l, Queue(side, id, m))
    ensures Good(c, l, Queue(side, id, m), Next(c, l, Queue(side, id, m)), p)
  {
    match side
    case Pbx => QueueMore(c.pbx.wire, l.f.queue, Entry(id, m, false));
    case Pms =>
      QueueMore(c.pbx.wire, l.s.queue, Entry(id, m, false));
      CheckIsPending(c, l, p);
  }

  lemma EveryTurnIsGood(c: Setups, l: Link, ev: Event) returns (l': Link)
    requires ValidSetups(c) && Inv(c, l) && Allowed(c, l, ev)
    ensures l' == Next(c, l, ev) && Inv(c, l') && Falls(c, l, ev, l')
  {
    l' := Next(c, l, ev);
    var p :| In(c, l, p);
    var q := p;
    match ev
    case Turn(Pbx, e) => q := PbxTurnIsGood(c, l, e, p, l');
    case Turn(Pms, e) => q := PmsTurnIsGood(c, l, e, p, l');
    case Queue(side, id, m) => QueueIsGood(c, l, side, id, m, p);
  }

  // ---- Whole runs ----

  /** The link after a run, each event allowed when it happens. */
  function After(c: Setups, l: Link, run: seq<Event>): Link
    decreases |run|
  {
    if run == [] then l else After(c, Next(c, l, run[0]), run[1..])
  }

  predicate AllowedRun(c: Setups, l: Link, run: seq<Event>)
    decreases |run|
  {
    run == [] || (Allowed(c, l, run[0]) && AllowedRun(c, Next(c, l, run[0]), run[1..]))
  }

  function Polls(c: Setups, l: Link, run: seq<Event>): nat
    decreases |run|
  {
    if run == [] then 0 else (if Poll(l, run[0]) then 1 else 0) + Polls(c, Next(c, l, run[0]), run[1..])
  }

  /** The messages a run puts into one side's queue. */
  function Queued(run: seq<Event>, side: Side): seq<Message> {
    if run == [] then []
    else (if run[0].Queue? && run[0].side == side then [run[0].message] else []) + Queued(run[1..], side)
  }

  lemma {:induction false} RunKeepsInv(c: Setups, l: Link, run: seq<Event>)
    decreases |run|
    requires ValidSetups(c) && Inv(c, l) && AllowedRun(c, l, run)
    ensures Inv(c, After(c, l, run))
    ensures |run| + Measure(c, After(c, l, run))
            <= Measure(c, l) + 3 * Polls(c, l, run) + 6 * (|Queued(run, Pbx)| + |Queued(run, Pms)|)
  {
    if run != [] {
      var l' := EveryTurnIsGood(c, l, run[0]);
      RunKeepsInv(c, l', run[1..]);
    }
  }

  /** fiasd has just connected and fias-server accepted; both queues may hold data. */
  predicate Connected(c: Setups, l: Link) {
    && l.f.state == F.WaitForSincro && l.s.state == S.Start && l.toPms == [] && l.toPbx == [] && Steady(c, l)
  }

  predicate Quiet(l: Link) {
    l.f.state == F.WaitForData && l.s.state == S.WaitForData && l.toPms == [] && l.toPbx == []
  }

  /** One of the machines is on its way to disconnection. */
  predicate Down(l: Link) { l.f.state == F.AtDisconnected || l.s.state == S.AtDisconnected }

  lemma InvIsUp(c: Setups, l: Link)
    requires Inv(c, l)
    ensures !Down(l)
  {
  }

  lemma ConnectedIsInv(c: Setups, l: Link)
    requires Connected(c, l)
    ensures Inv(c, l)
  {
    assert In(c, l, Greeting);
  }

  /** Main result, safety: whatever the interleaving and the queues, no machine is ever sent to disconnection. */
  lemma NeverDisconnected(c: Setups, l: Link, run: seq<Event>)
    requires ValidSetups(c) && Connected(c, l) && AllowedRun(c, l, run)
    ensures !Down(After(c, l, run))
  {
    ConnectedIsInv(c, l);
    RunKeepsInv(c, l, run);
    InvIsUp(c, After(c, l, run));
  }

  /** What a side can do next without polling, if anything. */
  ghost predicate CanAct(c: Setups, l: Link) {
    exists side: Side, e: Env :: Allowed(c, l, Turn(side, e)) && !Poll(l, Turn(side, e))
  }

  /** An environment in which nothing fails, nothing has elapsed, and the next record in flight is read. */
  function Kind(c: Setups, l: Link, ch: seq<string>): Env {
    Env(true, RecordRead, if ch == [] then "" else ch[0], true, 0, Updated, true,
        l.f.lastCommunication + c.pbx.interval, "260101", "000000")
  }

  /** Main result, progress: a run has at most Measure + 3 * polls + 6 * messages queued events, and a link where no
      side can act without polling is quiet: both machines wait for data and both channels are drained. */
  lemma {:induction false} EveryRunDrains(c: Setups, l: Link, run: seq<Event>)
    requires ValidSetups(c) && Connected(c, l) && AllowedRun(c, l, run)
    ensures |run| <= Measure(c, l) + 3 * Polls(c, l, run) + 6 * (|Queued(run, Pbx)| + |Queued(run, Pms)|)
    ensures !CanAct(c, After(c, l, run)) ==> Quiet(After(c, l, run))
  {
    ConnectedIsInv(c, l);
    RunKeepsInv(c, l, run);
    if !CanAct(c, After(c, l, run)) { StuckIsQuiet(c, After(c, l, run)); }
  }

  lemma {:induction false} StuckIsQuiet(c: Setups, l: Link)
    requires ValidSetups(c) && Inv(c, l) && !CanAct(c, l)
    ensures Quiet(l)
  {
    var p :| In(c, l, p);
    PbxStuck(c, l);
    PmsStuck(c, l);
  }

  lemma {:induction false} PbxStuck(c: Setups, l: Link)
    requires !CanAct(c, l)
    ensures ReadsPbx(l.f.state) && l.toPbx == []
  {
    var e := Kind(c, l, l.toPbx);
    assert !Allowed(c, l, Turn(Pbx, e)) || Poll(l, Turn(Pbx, e));
  }

  lemma {:induction false} PmsStuck(c: Setups, l: Link)
    requires !CanAct(c, l)
    ensures S.Reads(l.s.state) && l.toPms == []
  {
    var e := Kind(c, l, l.toPms);
    assert !Allowed(c, l, Turn(Pms, e)) || Poll(l, Turn(Pms, e));
  }
}
