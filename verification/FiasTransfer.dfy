/** Nothing is lost on the link: what was queued on one side is stored by the other, in flight, or still to send. */
module FiasTransfer {
  import opened Text
  import opened FiasWire
  import opened FiasLinkRecords
  import opened FiasLink
  import F = Fiasd
  import S = FiasServer

  /** Records of the link itself; a receiver drops them or, of an announcement, stores them beside the data. */
  const LINK_RECORDS: set<string> := {"LS", "LA", "LD", "LR"}
  const SWAP_RECORDS: set<string> := {"DS", "DE"}

  /** The messages but those of the commands in skip. */
  function Payload(ms: seq<Message>, skip: set<string>): seq<Message> {
    if ms == [] then [] else (if Op(ms[0].cmd) in skip then [] else [ms[0]]) + Payload(ms[1..], skip)
  }

  function Parsed(c: Config, ch: seq<string>): seq<Message> {
    if ch == [] then [] else [Parse(c, ch[0])] + Parsed(c, ch[1..])
  }

  /** The record a daemon is about to store. */
  function Held(c: Config, writing: bool, record: string): seq<Message> {
    if writing then [Parse(c, record)] else []
  }

  // ---- The two sides of a daemon ----

  function Received(c: Config, stored: seq<Message>, held: seq<Message>, ch: seq<string>, skip: set<string>): seq<Message> {
    Payload(stored, skip) + Payload(held, skip) + Payload(Parsed(c, ch), skip)
  }

  function PbxReceived(c: Config, m: F.Machine, ch: seq<string>): seq<Message> {
    Received(c, m.stored, Held(c, m.state == F.WriteDB, m.record), ch, LINK_RECORDS + SWAP_RECORDS)
  }

  function PmsReceived(c: Config, m: S.Machine, ch: seq<string>): seq<Message> {
    Received(c, m.stored, Held(c, m.state == S.WriteDB, m.record), ch, LINK_RECORDS)
  }

  function ToSend(queue: seq<Entry>, skip: set<string>): seq<Message> { Payload(NormalMessages(Unsent(queue)), skip) }

  /** Everything there is for the PMS: stored there, in its hands, in flight, and still to send. */
  function ForPms(c: Setups, l: Link): seq<Message> {
    PmsReceived(c.pbx.wire, l.s, l.toPms) + ToSend(l.f.queue, LINK_RECORDS)
  }

  function ForPbx(c: Setups, l: Link): seq<Message> {
    PbxReceived(c.pbx.wire, l.f, l.toPbx) + ToSend(l.s.queue, LINK_RECORDS + SWAP_RECORDS)
  }

  // ---- Concatenation ----

  lemma {:induction false} PayloadConcat(a: seq<Message>, b: seq<Message>, skip: set<string>)
    ensures Payload(a + b, skip) == Payload(a, skip) + Payload(b, skip)
  {
    if a == [] {
      Text.Unit(b);
      Text.Unit(Payload(b, skip));
    } else {
      assert (a + b)[0] == a[0] && (a + b)[1..] == a[1..] + b;
      PayloadConcat(a[1..], b, skip);
      Assoc(if Op(a[0].cmd) in skip then [] else [a[0]], Payload(a[1..], skip), Payload(b, skip));
    }
  }

  lemma {:induction false} ParsedConcat(c: Config, a: seq<string>, b: seq<string>)
    ensures Parsed(c, a + b) == Parsed(c, a) + Parsed(c, b)
  {
    if a == [] {
      Text.Unit(b);
      Text.Unit(Parsed(c, b));
    } else {
      assert (a + b)[0] == a[0] && (a + b)[1..] == a[1..] + b;
      ParsedConcat(c, a[1..], b);
      Assoc([Parse(c, a[0])], Parsed(c, a[1..]), Parsed(c, b));
    }
  }

  lemma {:induction false} NormalsConcat(a: seq<Message>, b: seq<Message>)
    ensures NormalMessages(a + b) == NormalMessages(a) + NormalMessages(b)
  {
    if a == [] {
      Text.Unit(b);
      Text.Unit(NormalMessages(b));
    } else {
      assert (a + b)[0] == a[0] && (a + b)[1..] == a[1..] + b;
      NormalsConcat(a[1..], b);
      Assoc([NormalMessage(a[0])], NormalMessages(a[1..]), NormalMessages(b));
    }
  }

  // ---- What the link invariant says of each daemon ----

  /** The daemon of the PBX stores what it holds, sends the first of its queue, and outside its data states takes
      link records only. */
  predicate PbxSound(c: Config, m: F.Machine, ch: seq<string>) {
    && DataQueue(c, m.queue)
    && m.state != F.Start && m.state != F.Exited && m.state != F.AtDisconnected
    && (m.state == F.SendData ==> Sending(c, m.queue, m.recordId, m.record))
    && (m.state == F.WriteDB ==> Acceptable(Parse(c, m.record)))
    && (ReadsPbx(m.state) && ch != [] ==> if m.state == F.WaitForData then Op(ch[0]) != "LE" else Op(ch[0]) in LINK_RECORDS)
  }

  predicate PmsSound(c: Config, m: S.Machine, ch: seq<string>) {
    && DataQueue(c, m.queue)
    && (m.state == S.SendData ==> Sending(c, m.queue, m.recordId, m.record))
    && (m.state == S.WriteDB ==> Acceptable(Parse(c, m.record)))
    && (S.Reads(m.state) && ch != [] ==> if m.state == S.WaitForData then Op(ch[0]) != "LE" else Op(ch[0]) in LINK_RECORDS)
  }

  lemma InvIsSound(c: Setups, l: Link)
    requires Inv(c, l)
    ensures PbxSound(c.pbx.wire, l.f, l.toPbx) && PmsSound(c.pbx.wire, l.s, l.toPms)
  {
    var p :| In(c, l, p);
    match p
    case Announced => assert |l.toPms| > 1 ==> Op(l.toPms[0]) in {"LD", "LR"};
    case CheckSent => assert |l.toPms| > 1 ==> l.toPms[..|l.toPms| - 1][0] == l.toPms[0];
    case _ =>
  }

  // ---- Records of the link carry no payload ----

  lemma ParseOp(c: Config, r: string)
    requires |r| >= 2 && r[0] != c.sep && r[1] != c.sep
    ensures Op(Parse(c, r).cmd) == Op(r)
  {
    var rest := r[1..];
    assert rest[1..] == r[2..];
    var pieces := Split(r, c.sep);
    assert Split(rest, c.sep) == [[rest[0]] + Split(r[2..], c.sep)[0]] + Split(r[2..], c.sep)[1..];
    assert pieces[0] == [r[0]] + Split(rest, c.sep)[0];
    assert pieces[0][0] == r[0] && pieces[0][1] == r[1];
    assert Op(r) == [r[0], r[1]] && Op(pieces[0]) == [pieces[0][0], pieces[0][1]];
  }

  lemma LinkRecordParses(c: Config, r: string)
    requires PlainSeparator(c) && Op(r) in LINK_RECORDS + SWAP_RECORDS
    ensures Op(Parse(c, r).cmd) == Op(r)
  {
    assert |r| >= 2 && UpperLetter(Op(r)[0]) && UpperLetter(Op(r)[1]);
    ParseOp(c, r);
  }

  /** Taking a record of the link off a channel takes no payload away. */
  lemma Dropped(c: Config, ch: seq<string>, skip: set<string>)
    requires PlainSeparator(c) && ch != [] && Op(ch[0]) in skip && skip <= LINK_RECORDS + SWAP_RECORDS
    ensures Payload(Parsed(c, ch), skip) == Payload(Parsed(c, ch[1..]), skip)
  {
    LinkRecordParses(c, ch[0]);
    assert Parsed(c, ch)[1..] == Parsed(c, ch[1..]);
  }

  /** A record taken into the daemon's hands. */
  lemma TakenUp(c: Config, ch: seq<string>, skip: set<string>)
    requires ch != []
    ensures Payload(Parsed(c, ch), skip) == Payload([Parse(c, ch[0])], skip) + Payload(Parsed(c, ch[1..]), skip)
  {
    PayloadConcat([Parse(c, ch[0])], Parsed(c, ch[1..]), skip);
  }

  /** Records of the link sent carry no payload either. */
  lemma {:induction false} NoPayload(c: Config, out: seq<string>, skip: set<string>)
    requires PlainSeparator(c) && skip <= LINK_RECORDS + SWAP_RECORDS
    requires forall i :: 0 <= i < |out| ==> Op(out[i]) in skip
    ensures Payload(Parsed(c, out), skip) == []
  {
    if out != [] {
      Dropped(c, out, skip);
      NoPayload(c, out[1..], skip);
    }
  }

  // ---- The turns of a daemon ----

  /** What a read leaves: the record in hand, or dropped. */
  lemma ReadKeeps(c: Config, stored: seq<Message>, ch: seq<string>, record: string, writing: bool, skip: set<string>)
    requires PlainSeparator(c) && skip <= LINK_RECORDS + SWAP_RECORDS && ch != [] && record == ch[0]
    requires !writing ==> Op(ch[0]) in skip
    ensures Received(c, stored, Held(c, writing, record), ch[1..], skip) == Received(c, stored, [], ch, skip)
  {
    if writing { TakenUp(c, ch, skip); } else { Dropped(c, ch, skip); }
    Text.Unit(Payload(stored, skip));
    Assoc(Payload(stored, skip), Payload([Parse(c, record)], skip), Payload(Parsed(c, ch[1..]), skip));
  }

  /** What storing leaves. */
  lemma WriteKeeps(c: Config, stored: seq<Message>, ch: seq<string>, record: string, skip: set<string>)
    ensures Received(c, stored + [Parse(c, record)], [], ch, skip) == Received(c, stored, Held(c, true, record), ch, skip)
  {
    PayloadConcat(stored, [Parse(c, record)], skip);
    Text.Unit(Payload(stored + [Parse(c, record)], skip));
  }

  lemma PbxStepReads(c: Setup, m: F.Machine, ch: seq<string>, e: Env) returns (m': F.Machine)
    requires PbxSound(c.wire, m, ch) && ReadsPbx(m.state) && e.result == RecordRead && ch != [] && e.incoming == ch[0]
    ensures m' == F.Step(c, m, e).0 && m'.stored == m.stored && m'.record == ch[0]
    ensures m'.state != F.WriteDB ==> Op(ch[0]) in LINK_RECORDS + SWAP_RECORDS
  {
    m' := F.Step(c, m, e).0;
  }

  lemma PbxStepOther(c: Setup, m: F.Machine, ch: seq<string>, e: Env) returns (m': F.Machine)
    requires PbxSound(c.wire, m, ch) && e.dbOk && !(ReadsPbx(m.state) && e.result == RecordRead)
    ensures m' == F.Step(c, m, e).0 && m'.state != F.WriteDB
    ensures m'.stored == m.stored + Held(c.wire, m.state == F.WriteDB, m.record)
  {
    Text.Unit(m.stored);
    m' := F.Step(c, m, e).0;
  }

  /** A daemon reads, or stores what it holds: what it has received stays. */
  lemma PbxReceives(c: Setup, m: F.Machine, ch: seq<string>, e: Env)
    requires PlainSeparator(c.wire) && PbxSound(c.wire, m, ch) && e.dbOk
    requires ReadsPbx(m.state) && e.result == RecordRead ==> ch != [] && e.incoming == ch[0]
    ensures var took := ReadsPbx(m.state) && e.result == RecordRead;
      PbxReceived(c.wire, F.Step(c, m, e).0, if took then ch[1..] else ch) == PbxReceived(c.wire, m, ch)
  {
    var skip := LINK_RECORDS + SWAP_RECORDS;
    if ReadsPbx(m.state) && e.result == RecordRead {
      var m' := PbxStepReads(c, m, ch, e);
      ReadKeeps(c.wire, m.stored, ch, ch[0], m'.state == F.WriteDB, skip);
    } else {
      var m' := PbxStepOther(c, m, ch, e);
      Text.Unit(m.stored);
      if m.state == F.WriteDB { WriteKeeps(c.wire, m.stored, ch, m.record, skip); }
    }
  }

  lemma PmsStepReads(c: Setup, m: S.Machine, ch: seq<string>, e: Env) returns (m': S.Machine)
    requires PmsSound(c.wire, m, ch) && S.Reads(m.state) && e.result == RecordRead && ch != [] && e.incoming == ch[0]
    ensures m' == S.Step(c, m, e).0 && m'.stored == m.stored && m'.record == ch[0]
    ensures m'.state != S.WriteDB ==> Op(ch[0]) in LINK_RECORDS
  {
    m' := S.Step(c, m, e).0;
  }

  lemma PmsStepOther(c: Setup, m: S.Machine, ch: seq<string>, e: Env) returns (m': S.Machine)
    requires PmsSound(c.wire, m, ch) && e.dbOk && !(S.Reads(m.state) && e.result == RecordRead)
    ensures m' == S.Step(c, m, e).0 && m'.state != S.WriteDB
    ensures m'.stored == m.stored + Held(c.wire, m.state == S.WriteDB, m.record)
  {
    Text.Unit(m.stored);
    m' := S.Step(c, m, e).0;
  }

  lemma PmsReceives(c: Setup, m: S.Machine, ch: seq<string>, e: Env)
    requires PlainSeparator(c.wire) && PmsSound(c.wire, m, ch) && e.dbOk
    requires S.Reads(m.state) && e.result == RecordRead ==> ch != [] && e.incoming == ch[0]
    ensures var took := S.Reads(m.state) && e.result == RecordRead;
      PmsReceived(c.wire, S.Step(c, m, e).0, if took then ch[1..] else ch) == PmsReceived(c.wire, m, ch)
  {
    if S.Reads(m.state) && e.result == RecordRead {
      var m' := PmsStepReads(c, m, ch, e);
      ReadKeeps(c.wire, m.stored, ch, ch[0], m'.state == S.WriteDB, LINK_RECORDS);
    } else {
      var m' := PmsStepOther(c, m, ch, e);
      Text.Unit(m.stored);
      if m.state == S.WriteDB { WriteKeeps(c.wire, m.stored, ch, m.record, LINK_RECORDS); }
    }
  }

  /** The first of the queue goes out, and its record parses back. */
  lemma SendsFirst(c: Config, queue: seq<Entry>, recordId: nat, record: string, skip: set<string>)
    requires ValidConfig(c) && DataQueue(c, queue) && Sending(c, queue, recordId, record)
    ensures Payload(Parsed(c, [record]), skip) + ToSend(MarkDone(queue, recordId), skip) == ToSend(queue, skip)
  {
    var k := FirstUndone(queue);
    FirstUnsent(queue);
    MarkedFirst(queue);
    SentRecord(c, queue[k].message);
    var unsent := Unsent(queue);
    assert NormalMessages(unsent) == [NormalMessage(unsent[0])] + NormalMessages(unsent[1..]);
    PayloadConcat([NormalMessage(unsent[0])], NormalMessages(unsent[1..]), skip);
    assert Parsed(c, [record]) == [NormalMessage(unsent[0])];
  }

  lemma AnnounceNoPayload(c: Setup, e: Env, skip: set<string>)
    requires TableRecords(c) && PlainSeparator(c.wire) && LINK_RECORDS <= skip <= LINK_RECORDS + SWAP_RECORDS
    ensures Payload(Parsed(c.wire, Announce(c, e)), skip) == []
  {
    AnnounceShape(c, e);
    var a := Announce(c, e);
    forall i | 0 <= i < |a| ensures Op(a[i]) in skip {
      assert i < |a| - 1 ==> Op(a[i]) in {"LD", "LR"};
    }
    NoPayload(c.wire, a, skip);
  }

  lemma LinkRecordNoPayload(c: Config, op: string, e: Env, skip: set<string>)
    requires PlainSeparator(c) && op in {"LS", "LA"} && LINK_RECORDS <= skip <= LINK_RECORDS + SWAP_RECORDS
    ensures Payload(Parsed(c, [LinkRecord(c, op, e)]), skip) == []
  {
    LinkRecordOp(c, op, e);
    NoPayload(c, [LinkRecord(c, op, e)], skip);
  }

  /** The turns that send something. */
  lemma PbxStepSends(c: Setup, m: F.Machine, ch: seq<string>, e: Env) returns (m': F.Machine, out: seq<string>)
    requires ValidConfig(c.wire) && PbxSound(c.wire, m, ch) && e.sent && e.dbOk && e.update == Updated
    ensures (m', out) == F.Step(c, m, e)
    ensures m.state == F.SendData ==> m'.queue == MarkDone(m.queue, m.recordId) && out == [m.record]
    ensures m.state != F.SendData ==> m'.queue == m.queue
    ensures m.state == F.SendLDLRLA ==> out == Announce(c, e)
    ensures m.state == F.SendLA ==> out == [LinkRecord(c.wire, "LA", e)]
    ensures m.state == F.SendLS ==> out == [LinkRecord(c.wire, "LS", e)]
    ensures m.state !in {F.SendData, F.SendLDLRLA, F.SendLA, F.SendLS} ==> out == []
  {
    m', out := F.Step(c, m, e).0, F.Step(c, m, e).1;
    if m.state == F.ReadDB { PbxPicks(c, m, e); }
  }

  lemma PbxPicks(c: Setup, m: F.Machine, e: Env)
    requires ValidConfig(c.wire) && DataQueue(c.wire, m.queue) && m.state == F.ReadDB && e.dbOk
    ensures F.Step(c, m, e).0.queue == m.queue && F.Step(c, m, e).1 == []
  {
    QueueHasNoLE(c.wire, m.queue);
  }

  /** What a daemon sends in a turn is what leaves its queue. */
  lemma PbxSends(c: Setup, m: F.Machine, ch: seq<string>, e: Env)
    requires ValidConfig(c.wire) && PlainSeparator(c.wire) && TableRecords(c) && PbxSound(c.wire, m, ch)
    requires e.sent && e.dbOk && e.update == Updated
    ensures var (m', out) := F.Step(c, m, e);
      Payload(Parsed(c.wire, out), LINK_RECORDS) + ToSend(m'.queue, LINK_RECORDS) == ToSend(m.queue, LINK_RECORDS)
  {
    var m', out := PbxStepSends(c, m, ch, e);
    Text.Unit(ToSend(m.queue, LINK_RECORDS));
    if m.state == F.SendData { SendsFirst(c.wire, m.queue, m.recordId, m.record, LINK_RECORDS);
    } else if m.state == F.SendLA { LinkRecordNoPayload(c.wire, "LA", e, LINK_RECORDS);
    } else if m.state == F.SendLS { LinkRecordNoPayload(c.wire, "LS", e, LINK_RECORDS);
    } else if m.state == F.SendLDLRLA { AnnounceNoPayload(c, e, LINK_RECORDS); }
  }

  lemma QueueHasNoLE(c: Config, queue: seq<Entry>)
    requires ValidConfig(c) && DataQueue(c, queue)
    ensures var k := FirstUndone(queue); k < |queue| ==> !("LE" <= RecordOf(c, queue[k].message))
    ensures DropPendingLE(queue) == queue
  {
    var k := FirstUndone(queue);
    FirstUnsent(queue);
    if k < |queue| { SentRecord(c, queue[k].message); }
    NoPendingLE(queue);
  }

  lemma PmsStepSends(c: Setup, m: S.Machine, ch: seq<string>, e: Env) returns (m': S.Machine, out: seq<string>)
    requires ValidConfig(c.wire) && PmsSound(c.wire, m, ch) && e.sent && e.dbOk && e.update == Updated
    ensures (m', out) == S.Step(c, m, e)
    ensures m.state == S.SendData ==> m'.queue == MarkDone(m.queue, m.recordId) && out == [m.record]
    ensures m.state != S.SendData ==> m'.queue == m.queue
    ensures m.state == S.SendLDLRLA ==> out == if c.table == [] then [] else Announce(c, e)
    ensures m.state == S.SendLA ==> out == [LinkRecord(c.wire, "LA", e)]
    ensures m.state in {S.SendLS, S.SendSincro} ==> out == [LinkRecord(c.wire, "LS", e)]
    ensures m.state !in {S.SendData, S.SendLDLRLA, S.SendLA, S.SendLS, S.SendSincro} ==> out == []
  {
    QueueHasNoLE(c.wire, m.queue);
    m', out := S.Step(c, m, e).0, S.Step(c, m, e).1;
  }

  lemma PmsSends(c: Setup, m: S.Machine, ch: seq<string>, e: Env)
    requires ValidConfig(c.wire) && PlainSeparator(c.wire) && TableRecords(c) && PmsSound(c.wire, m, ch)
    requires e.sent && e.dbOk && e.update == Updated
    ensures var (m', out) := S.Step(c, m, e); var skip := LINK_RECORDS + SWAP_RECORDS;
      Payload(Parsed(c.wire, out), skip) + ToSend(m'.queue, skip) == ToSend(m.queue, skip)
  {
    var skip := LINK_RECORDS + SWAP_RECORDS;
    var m', out := PmsStepSends(c, m, ch, e);
    Text.Unit(ToSend(m.queue, skip));
    if m.state == S.SendData { SendsFirst(c.wire, m.queue, m.recordId, m.record, skip);
    } else if m.state == S.SendLA { LinkRecordNoPayload(c.wire, "LA", e, skip);
    } else if m.state in {S.SendLS, S.SendSincro} { LinkRecordNoPayload(c.wire, "LS", e, skip);
    } else if m.state == S.SendLDLRLA { AnnounceNoPayload(c, e, skip); }
  }

  // ---- The events of the link ----

  /** Records put on a channel add their payload to what the other side receives. */
  lemma ChannelMore(c: Config, stored: seq<Message>, held: seq<Message>, ch: seq<string>, out: seq<string>, skip: set<string>)
    ensures Received(c, stored, held, ch + out, skip) == Received(c, stored, held, ch, skip) + Payload(Parsed(c, out), skip)
  {
    ParsedConcat(c, ch, out);
    PayloadConcat(Parsed(c, ch), Parsed(c, out), skip);
    Assoc(Payload(stored, skip) + Payload(held, skip), Payload(Parsed(c, ch), skip), Payload(Parsed(c, out), skip));
  }

  lemma PbxTurnKeeps(c: Setups, l: Link, e: Env)
    requires ValidSetups(c) && Inv(c, l) && Allowed(c, l, Turn(Pbx, e))
    ensures ForPms(c, PbxNext(c, l, e)) == ForPms(c, l) && ForPbx(c, PbxNext(c, l, e)) == ForPbx(c, l)
  {
    var w := c.pbx.wire;
    var (f, out) := F.Step(c.pbx, l.f, e);
    InvIsSound(c, l);
    PbxReceives(c.pbx, l.f, l.toPbx, e);
    PbxSends(c.pbx, l.f, l.toPbx, e);
    ChannelMore(w, l.s.stored, Held(w, l.s.state == S.WriteDB, l.s.record), l.toPms, out, LINK_RECORDS);
    Assoc(PmsReceived(w, l.s, l.toPms), Payload(Parsed(w, out), LINK_RECORDS), ToSend(f.queue, LINK_RECORDS));
  }

  lemma PmsTurnKeeps(c: Setups, l: Link, e: Env)
    requires ValidSetups(c) && Inv(c, l) && Allowed(c, l, Turn(Pms, e))
    ensures ForPms(c, PmsNext(c, l, e)) == ForPms(c, l) && ForPbx(c, PmsNext(c, l, e)) == ForPbx(c, l)
  {
    var w, skip := c.pbx.wire, LINK_RECORDS + SWAP_RECORDS;
    var (s, out) := S.Step(c.pms, l.s, e);
    InvIsSound(c, l);
    PmsReceives(c.pms, l.s, l.toPms, e);
    PmsSends(c.pms, l.s, l.toPms, e);
    ChannelMore(w, l.f.stored, Held(w, l.f.state == F.WriteDB, l.f.record), l.toPbx, out, skip);
    Assoc(PbxReceived(w, l.f, l.toPbx), Payload(Parsed(w, out), skip), ToSend(s.queue, skip));
  }

  lemma QueueMore(queue: seq<Entry>, x: Entry, skip: set<string>)
    requires !x.done
    ensures ToSend(queue + [x], skip) == ToSend(queue, skip) + Payload([NormalMessage(x.message)], skip)
  {
    UnsentMore(queue, x);
    NormalsConcat(Unsent(queue), [x.message]);
    assert NormalMessages([x.message]) == [NormalMessage(x.message)];
    PayloadConcat(NormalMessages(Unsent(queue)), NormalMessages([x.message]), skip);
  }

  /** What an event puts into one side's queue. */
  function Added(ev: Event, side: Side): seq<Message> {
    if ev.Queue? && ev.side == side then [NormalMessage(ev.message)] else []
  }

  lemma EventKeeps(c: Setups, l: Link, ev: Event)
    requires ValidSetups(c) && Inv(c, l) && Allowed(c, l, ev)
    ensures ForPms(c, Next(c, l, ev)) == ForPms(c, l) + Payload(Added(ev, Pbx), LINK_RECORDS)
    ensures ForPbx(c, Next(c, l, ev)) == ForPbx(c, l) + Payload(Added(ev, Pms), LINK_RECORDS + SWAP_RECORDS)
  {
    Text.Unit(ForPms(c, l));
    Text.Unit(ForPbx(c, l));
    match ev
    case Turn(Pbx, e) => PbxTurnKeeps(c, l, e);
    case Turn(Pms, e) => PmsTurnKeeps(c, l, e);
    case Queue(Pbx, id, m) =>
      QueueMore(l.f.queue, Entry(id, m, false), LINK_RECORDS);
      Assoc(PmsReceived(c.pbx.wire, l.s, l.toPms), ToSend(l.f.queue, LINK_RECORDS), Payload([NormalMessage(m)], LINK_RECORDS));
    case Queue(Pms, id, m) =>
      var skip := LINK_RECORDS + SWAP_RECORDS;
      QueueMore(l.s.queue, Entry(id, m, false), skip);
      Assoc(PbxReceived(c.pbx.wire, l.f, l.toPbx), ToSend(l.s.queue, skip), Payload([NormalMessage(m)], skip));
  }

  /** Main result, conservation: over every run, what is stored, held, in flight and still to send for a side is what
      it was, and after it the messages queued in the run, in order. */
  lemma {:induction false} NothingLost(c: Setups, l: Link, run: seq<Event>)
    requires ValidSetups(c) && Inv(c, l) && AllowedRun(c, l, run)
    ensures ForPms(c, After(c, l, run)) == ForPms(c, l) + Payload(NormalMessages(Queued(run, Pbx)), LINK_RECORDS)
    ensures ForPbx(c, After(c, l, run))
            == ForPbx(c, l) + Payload(NormalMessages(Queued(run, Pms)), LINK_RECORDS + SWAP_RECORDS)
    decreases |run|
  {
    Text.Unit(ForPms(c, l));
    Text.Unit(ForPbx(c, l));
    if run != [] {
      var l' := EveryTurnIsGood(c, l, run[0]);
      EventKeeps(c, l, run[0]);
      NothingLost(c, l', run[1..]);
      Later(ForPms(c, l), run, Pbx, LINK_RECORDS);
      Later(ForPbx(c, l), run, Pms, LINK_RECORDS + SWAP_RECORDS);
    }
  }

  /** What the first event adds comes before what the others do. */
  lemma Later(before: seq<Message>, run: seq<Event>, side: Side, skip: set<string>)
    requires run != []
    ensures before + Payload(Added(run[0], side), skip) + Payload(NormalMessages(Queued(run[1..], side)), skip)
            == before + Payload(NormalMessages(Queued(run, side)), skip)
  {
    Assoc(before, Payload(Added(run[0], side), skip), Payload(NormalMessages(Queued(run[1..], side)), skip));
    var first := if run[0].Queue? && run[0].side == side then [run[0].message] else [];
    NormalsConcat(first, Queued(run[1..], side));
    assert NormalMessages(first) == Added(run[0], side);
    PayloadConcat(NormalMessages(first), NormalMessages(Queued(run[1..], side)), skip);
  }

  /** The link has come to rest: both daemons wait, nothing is in flight, nothing is left to send. */
  predicate Done(l: Link) { Quiet(l) && Unsent(l.f.queue) == [] && Unsent(l.s.queue) == [] }

  /** Main result: once the link has come to rest after any run, each side has stored, after what it had, every
      message the other had waiting or was given, in order, as it was queued. */
  lemma EverythingArrives(c: Setups, l: Link, run: seq<Event>)
    requires ValidSetups(c) && Connected(c, l) && AllowedRun(c, l, run) && Done(After(c, l, run))
    ensures var l' := After(c, l, run); var skip := LINK_RECORDS + SWAP_RECORDS;
      && Payload(l'.s.stored, LINK_RECORDS)
         == Payload(l.s.stored, LINK_RECORDS) + Payload(NormalMessages(Unsent(l.f.queue) + Queued(run, Pbx)), LINK_RECORDS)
      && Payload(l'.f.stored, skip)
         == Payload(l.f.stored, skip) + Payload(NormalMessages(Unsent(l.s.queue) + Queued(run, Pms)), skip)
  {
    var l', skip := After(c, l, run), LINK_RECORDS + SWAP_RECORDS;
    ConnectedIsInv(c, l);
    NothingLost(c, l, run);
    AtEnds(l.s.stored, Unsent(l.f.queue), Queued(run, Pbx), LINK_RECORDS);
    AtEnds(l.f.stored, Unsent(l.s.queue), Queued(run, Pms), skip);
    Text.Unit(Payload(l'.s.stored, LINK_RECORDS));
    Text.Unit(Payload(l'.f.stored, skip));
    Text.Unit(Payload(l.s.stored, LINK_RECORDS));
    Text.Unit(Payload(l.f.stored, skip));
  }

  lemma AtEnds(stored: seq<Message>, waiting: seq<Message>, queued: seq<Message>, skip: set<string>)
    ensures Payload(stored, skip) + Payload(NormalMessages(waiting), skip) + Payload(NormalMessages(queued), skip)
            == Payload(stored, skip) + Payload(NormalMessages(waiting + queued), skip)
  {
    NormalsConcat(waiting, queued);
    PayloadConcat(NormalMessages(waiting), NormalMessages(queued), skip);
    Assoc(Payload(stored, skip), Payload(NormalMessages(waiting), skip), Payload(NormalMessages(queued), skip));
  }
}
