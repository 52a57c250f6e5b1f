/** The link over bytes: what the sockets carry, read and written by the daemons' own turns. */
module FiasWires {
  import opened Text
  import opened FiasWire
  import opened FiasLinkRecords
  import opened FiasLink
  import opened FiasTransfer
  import F = Fiasd
  import S = FiasServer

  /** Both machines and the bytes on their way, with the receivers' timeouts among them. */
  datatype Wires = Wires(f: F.Machine, s: S.Machine, toPms: seq<Recv>, toPbx: seq<Recv>, checks: nat)

  /** An event of the link, or a receive timeout of one side. */
  datatype WireEvent = On(event: Event) | Silence(side: Side)

  // ---- Bytes and records ----

  /** Whole frames, with timeouts between them only. */
  predicate Framed(c: Config, b: seq<Recv>)
    decreases |b|
  {
    if b == [] then true
    else
      var (result, _, rest) := Read(c, b);
      ReadShrinks(c, b);
      (b[0] == Timeout || result == RecordRead) && Framed(c, rest)
  }

  /** The records the bytes hold. */
  function Records(c: Config, b: seq<Recv>): seq<string>
    decreases |b|
  {
    if b == [] then []
    else
      var (result, record, rest) := Read(c, b);
      ReadShrinks(c, b);
      (if result == RecordRead then [record] else []) + Records(c, rest)
  }

  function Frames(c: Config, out: seq<string>): seq<Recv> {
    if out == [] then [] else Bytes(Frame(c, out[0])) + Frames(c, out[1..])
  }

  /** No start or end mark inside. */
  predicate Bare(c: Config, r: string) { c.stx !in r && c.etx !in r }

  lemma ReadFramed(c: Config, b: seq<Recv>)
    requires Framed(c, b)
    ensures var (result, record, rest) := Read(c, b);
      && Framed(c, rest)
      && (result == TimedOut || (result == RecordRead && b != []))
      && Records(c, b) == (if result == RecordRead then [record] else []) + Records(c, rest)
  {
  }

  /** A read of whole frames does not look past its own. */
  lemma ReadMore(c: Config, b: seq<Recv>, more: seq<Recv>)
    requires ValidConfig(c) && b != [] && (b[0] == Timeout || Read(c, b).0 == RecordRead)
    ensures Read(c, b + more) == (Read(c, b).0, Read(c, b).1, Read(c, b).2 + more)
  {
    var (result, record, rest) := Read(c, b);
    if b[0] == Timeout {
      assert (b + more)[1..] == b[1..] + more;
    } else {
      ReadExactlyFrames(c, b, record, rest);
      Assoc(Bytes(Frame(c, record)), rest, more);
      ReadExactlyFrames(c, b + more, record, rest + more);
    }
  }

  lemma {:induction false} RecordsConcat(c: Config, b: seq<Recv>, more: seq<Recv>)
    requires ValidConfig(c) && Framed(c, b) && Framed(c, more)
    ensures Framed(c, b + more) && Records(c, b + more) == Records(c, b) + Records(c, more)
    decreases |b|
  {
    if b == [] {
      Text.Unit(more);
      Text.Unit(Records(c, more));
    } else {
      var (result, record, rest) := Read(c, b);
      ReadShrinks(c, b);
      ReadMore(c, b, more);
      RecordsConcat(c, rest, more);
      assert (b + more)[0] == b[0];
      Assoc(if result == RecordRead then [record] else [], Records(c, rest), Records(c, more));
    }
  }

  lemma OneFrame(c: Config, r: string)
    requires ValidConfig(c) && Bare(c, r)
    ensures Framed(c, Bytes(Frame(c, r))) && Records(c, Bytes(Frame(c, r))) == [r]
  {
    var b := Bytes(Frame(c, r));
    Text.Unit(b);
    ReadExactlyFrames(c, b, r, []);
    Text.Unit([r]);
  }

  lemma {:induction false} FramesHold(c: Config, out: seq<string>)
    requires ValidConfig(c) && forall i :: 0 <= i < |out| ==> Bare(c, out[i])
    ensures Framed(c, Frames(c, out)) && Records(c, Frames(c, out)) == out
  {
    if out != [] {
      OneFrame(c, out[0]);
      FramesHold(c, out[1..]);
      RecordsConcat(c, Bytes(Frame(c, out[0])), Frames(c, out[1..]));
      assert [out[0]] + out[1..] == out;
    }
  }

  lemma OneSilence(c: Config)
    ensures Framed(c, [Timeout]) && Records(c, [Timeout]) == []
  {
    assert [Timeout][1..] == [];
  }

  // ---- Where a timeout may fall ----

  /** A frame with a receive timeout after its first k bytes. */
  function CutFrame(c: Config, r: string, k: nat, rest: seq<Recv>): seq<Recv>
    requires k <= |Frame(c, r)|
  {
    Bytes(Frame(c, r)[..k]) + ([Timeout] + (Bytes(Frame(c, r)[k..]) + rest))
  }

  lemma {:induction false} BodyTimesOut(c: Config, body: string, acc: string, later: seq<Recv>)
    requires Bare(c, body)
    ensures ReadBody(c, Bytes(body) + ([Timeout] + later), acc) == (TimedOut, acc + body, later)
    decreases |body|
  {
    var input := Bytes(body) + ([Timeout] + later);
    if body == "" {
      assert input == [Timeout] + later && input[1..] == later;
      Text.Unit(acc);
    } else {
      assert input[0] == Byte(body[0]) && body[0] in body;
      assert input[1..] == Bytes(body[1..]) + ([Timeout] + later);
      BodyTimesOut(c, body[1..], acc + [body[0]], later);
      assert acc + [body[0]] + body[1..] == acc + body;
    }
  }

  /** Inside a frame a timeout loses the record, and the next read finds the rest of it out of sequence. */
  lemma TimeoutInFrame(c: Config, r: string, k: nat, rest: seq<Recv>)
    requires ValidConfig(c) && Bare(c, r) && 0 < k < |Frame(c, r)|
    ensures Read(c, CutFrame(c, r, k, rest)) == (TimedOut, r[..k - 1], Bytes(Frame(c, r)[k..]) + rest)
    ensures Read(c, Bytes(Frame(c, r)[k..]) + rest).0 == OutOfSequence
  {
    var frame, later := Frame(c, r), Bytes(Frame(c, r)[k..]) + rest;
    var b, body := CutFrame(c, r, k, rest), r[..k - 1];
    assert frame[..k] == [c.stx] + body;
    assert b[0] == Byte(c.stx) && b[1..] == Bytes(body) + ([Timeout] + later);
    BodyTimesOut(c, body, "", later);
    assert "" + body == body;
    assert later[0] == Byte(frame[k]) && frame[k] == (r + [c.etx])[k - 1];
  }

  /** So the bytes of a frame still hold whole records exactly when a timeout falls before it or after it. */
  lemma TimeoutsBetweenFrames(c: Config, r: string, k: nat, rest: seq<Recv>)
    requires ValidConfig(c) && Bare(c, r) && Framed(c, rest) && k <= |Frame(c, r)|
    ensures Framed(c, CutFrame(c, r, k, rest)) <==> k == 0 || k == |Frame(c, r)|
  {
    var frame := Frame(c, r);
    OneFrame(c, r);
    OneSilence(c);
    RecordsConcat(c, Bytes(frame), rest);
    RecordsConcat(c, [Timeout], rest);
    if k == 0 {
      assert CutFrame(c, r, k, rest) == [Timeout] + (Bytes(frame) + rest) && frame[0..] == frame;
      RecordsConcat(c, [Timeout], Bytes(frame) + rest);
    } else if k == |frame| {
      assert frame[..k] == frame && Bytes(frame[k..]) + rest == rest;
      RecordsConcat(c, Bytes(frame), [Timeout] + rest);
    } else {
      TimeoutInFrame(c, r, k, rest);
      var b := CutFrame(c, r, k, rest);
      assert b[0] == Byte(frame[0]);
      if Framed(c, b) { ReadFramed(c, b); }
    }
  }

  // ---- Sending over a socket ----

  lemma BytesConcat(a: string, b: string)
    ensures Bytes(a + b) == Bytes(a) + Bytes(b)
  {
  }

  /** The records of a turn sent one by one, in however many partial writes, up to the first that fails: success puts
      their whole frames on the wire. */
  method SendAll(socket: Socket, c: Config, out: seq<string>) returns (ok: bool)
    modifies socket`outcomes, socket`output
    ensures ok ==> Bytes(socket.output) == old(Bytes(socket.output)) + Frames(c, out)
  {
    ok := true;
    var i := 0;
    Text.Unit(Frames(c, out));
    while i < |out| && ok
      invariant i <= |out|
      invariant ok ==> Bytes(socket.output) + Frames(c, out[i..]) == old(Bytes(socket.output)) + Frames(c, out)
    {
      ghost var before := socket.output;
      ok := socket.SendData(c, out[i]);
      BytesConcat(before, Frame(c, out[i]));
      assert out[i..][0] == out[i] && out[i..][1..] == out[i + 1..];
      Assoc(Bytes(before), Bytes(Frame(c, out[i])), Frames(c, out[i + 1..]));
      i := i + 1;
    }
    Text.Unit(Bytes(socket.output));
  }

  // ---- What is sent is bare ----

  /** Marks that are no capital letters and no digits, and tables without them. */
  predicate BareSetups(c: Setups) {
    var w := c.pbx.wire;
    && !Digit(w.stx) && !UpperLetter(w.stx) && !Digit(w.etx) && !UpperLetter(w.etx)
    && (forall i :: 0 <= i < |c.pbx.table| ==> Bare(w, c.pbx.table[i]))
    && (forall i :: 0 <= i < |c.pms.table| ==> Bare(w, c.pms.table[i]))
  }

  lemma {:induction false} MarkBare(s: string, a: char, b: char, text: string, x: char)
    requires x !in s && x !in text && x != a && x != b
    ensures x !in Mark(s, a, b, text)
    decreases |s|
  {
    if |s| >= 2 {
      MarkBare(if s[0] == a && s[1] == b then s[2..] else s[1..], a, b, text, x);
    }
  }

  lemma TableRecordBare(c: Config, r: string, e: Env, x: char)
    requires x !in r && Dated(e) && !Digit(x) && !UpperLetter(x)
    ensures x !in TableRecord(r, e)
  {
    if Op(r) == "LD" {
      MarkBare(r, 'D', 'A', e.date, x);
      MarkBare(Mark(r, 'D', 'A', e.date), 'T', 'I', e.time, x);
    }
  }

  lemma LinkRecordBare(c: Config, op: string, e: Env)
    requires ValidConfig(c) && Dated(e) && op in {"LS", "LA"}
    requires !Digit(c.stx) && !UpperLetter(c.stx) && !Digit(c.etx) && !UpperLetter(c.etx)
    ensures Bare(c, LinkRecord(c, op, e))
  {
  }

  lemma AnnounceBare(c: Setup, e: Env)
    requires ValidConfig(c.wire) && Dated(e) && forall i :: 0 <= i < |c.table| ==> Bare(c.wire, c.table[i])
    requires !Digit(c.wire.stx) && !UpperLetter(c.wire.stx) && !Digit(c.wire.etx) && !UpperLetter(c.wire.etx)
    ensures forall i :: 0 <= i <= |c.table| ==> Bare(c.wire, Announce(c, e)[i])
  {
    LinkRecordBare(c.wire, "LA", e);
    forall i | 0 <= i < |c.table| ensures Bare(c.wire, Announce(c, e)[i]) {
      TableRecordBare(c.wire, c.table[i], e, c.wire.stx);
      TableRecordBare(c.wire, c.table[i], e, c.wire.etx);
    }
  }

  lemma SendingBare(c: Config, queue: seq<Entry>, recordId: nat, record: string)
    requires ValidConfig(c) && DataQueue(c, queue) && Sending(c, queue, recordId, record)
    ensures Bare(c, record)
  {
    KeepsDataQueue(c, queue);
    ParseRecord(c, queue[FirstUndone(queue)].message);
  }

  lemma PbxOutBare(c: Setups, m: F.Machine, ch: seq<string>, e: Env)
    requires ValidSetups(c) && BareSetups(c) && PbxSound(c.pbx.wire, m, ch)
    requires e.sent && e.dbOk && e.update == Updated && Dated(e)
    ensures forall r <- F.Step(c.pbx, m, e).1 :: Bare(c.pbx.wire, r)
  {
    var m', out := PbxStepSends(c.pbx, m, ch, e);
    if m.state == F.SendData { SendingBare(c.pbx.wire, m.queue, m.recordId, m.record);
    } else if m.state == F.SendLDLRLA { AnnounceBare(c.pbx, e);
    } else {
      LinkRecordBare(c.pbx.wire, "LA", e);
      LinkRecordBare(c.pbx.wire, "LS", e);
    }
  }

  lemma PmsOutBare(c: Setups, m: S.Machine, ch: seq<string>, e: Env)
    requires ValidSetups(c) && BareSetups(c) && PmsSound(c.pms.wire, m, ch)
    requires e.sent && e.dbOk && e.update == Updated && Dated(e)
    ensures forall r <- S.Step(c.pms, m, e).1 :: Bare(c.pms.wire, r)
  {
    var m', out := PmsStepSends(c.pms, m, ch, e);
    if m.state == S.SendData { SendingBare(c.pms.wire, m.queue, m.recordId, m.record);
    } else if m.state == S.SendLDLRLA { AnnounceBare(c.pms, e);
    } else {
      LinkRecordBare(c.pms.wire, "LA", e);
      LinkRecordBare(c.pms.wire, "LS", e);
    }
  }

  // ---- The turns over bytes ----

  /** The link the bytes stand for. */
  function View(c: Setups, w: Wires): Link {
    Link(w.f, w.s, Records(c.pbx.wire, w.toPms), Records(c.pbx.wire, w.toPbx), w.checks)
  }

  /** The event as the daemon meets it: a turn that reads gets what readRecord gives. */
  function Met(c: Setups, w: Wires, ev: Event): Event {
    match ev
    case Turn(Pbx, e) =>
      if !ReadsPbx(w.f.state) then ev
      else var got := Read(c.pbx.wire, w.toPbx); Turn(Pbx, e.(result := got.0, incoming := got.1))
    case Turn(Pms, e) =>
      if !S.Reads(w.s.state) then ev
      else var got := Read(c.pms.wire, w.toPms); Turn(Pms, e.(result := got.0, incoming := got.1))
    case Queue(_, _, _) => ev
  }

  function PbxWires(c: Setups, w: Wires, e: Env): Wires {
    var (f, out) := F.Step(c.pbx, w.f, e);
    var checking := w.f.state == F.ReadDB && f.state == F.SendLS && w.checks > 0;
    Wires(f, w.s, w.toPms + Frames(c.pbx.wire, out),
          if ReadsPbx(w.f.state) then Read(c.pbx.wire, w.toPbx).2 else w.toPbx,
          if checking then w.checks - 1 else w.checks)
  }

  function PmsWires(c: Setups, w: Wires, e: Env): Wires {
    var (s, out) := S.Step(c.pms, w.s, e);
    Wires(w.f, s, if S.Reads(w.s.state) then Read(c.pms.wire, w.toPms).2 else w.toPms,
          w.toPbx + Frames(c.pms.wire, out), w.checks)
  }

  function WireNext(c: Setups, w: Wires, ev: WireEvent): Wires {
    match ev
    case On(event) =>
      (match Met(c, w, event)
       case Turn(Pbx, e) => PbxWires(c, w, e)
       case Turn(Pms, e) => PmsWires(c, w, e)
       case Queue(Pbx, id, m) => w.(f := w.f.(queue := w.f.queue + [Entry(id, m, false)]))
       case Queue(Pms, id, m) => w.(s := w.s.(queue := w.s.queue + [Entry(id, m, false)])))
    case Silence(Pbx) => w.(toPbx := w.toPbx + [Timeout])
    case Silence(Pms) => w.(toPms := w.toPms + [Timeout])
  }

  ghost predicate Carries(c: Setups, w: Wires) { Framed(c.pbx.wire, w.toPms) && Framed(c.pbx.wire, w.toPbx) }

  /** One channel after a turn: a record less at its start, or records more at its end. */
  lemma ChannelRead(c: Config, b: seq<Recv>)
    requires Framed(c, b)
    ensures var (result, record, rest) := Read(c, b);
      && Framed(c, rest) && (result == TimedOut || result == RecordRead)
      && (result == TimedOut ==> Records(c, rest) == Records(c, b))
      && (result == RecordRead ==> Records(c, b) != [] && record == Records(c, b)[0] && Records(c, rest) == Records(c, b)[1..])
  {
    ReadFramed(c, b);
    var (result, record, rest) := Read(c, b);
    Text.Unit(Records(c, rest));
    if result == RecordRead { assert ([record] + Records(c, rest))[1..] == Records(c, rest); }
  }

  lemma ChannelSent(c: Config, b: seq<Recv>, out: seq<string>)
    requires ValidConfig(c) && Framed(c, b) && forall r <- out :: Bare(c, r)
    ensures Framed(c, b + Frames(c, out)) && Records(c, b + Frames(c, out)) == Records(c, b) + out
  {
    FramesHold(c, out);
    RecordsConcat(c, b, Frames(c, out));
  }

  lemma PbxSimulates(c: Setups, w: Wires, ev: Event)
    requires ValidSetups(c) && BareSetups(c) && Carries(c, w) && Inv(c, View(c, w))
    requires ev.Turn? && ev.side == Pbx && Allowed(c, View(c, w), Met(c, w, ev))
    ensures var w' := WireNext(c, w, On(ev)); Carries(c, w') && View(c, w') == Next(c, View(c, w), Met(c, w, ev))
  {
    var l, e := View(c, w), Met(c, w, ev).e;
    InvIsSound(c, l);
    PbxOutBare(c, w.f, l.toPbx, e);
    ChannelSent(c.pbx.wire, w.toPms, F.Step(c.pbx, w.f, e).1);
    ChannelRead(c.pbx.wire, w.toPbx);
  }

  lemma PmsSimulates(c: Setups, w: Wires, ev: Event)
    requires ValidSetups(c) && BareSetups(c) && Carries(c, w) && Inv(c, View(c, w))
    requires ev.Turn? && ev.side == Pms && Allowed(c, View(c, w), Met(c, w, ev))
    ensures var w' := WireNext(c, w, On(ev)); Carries(c, w') && View(c, w') == Next(c, View(c, w), Met(c, w, ev))
  {
    var l, e := View(c, w), Met(c, w, ev).e;
    InvIsSound(c, l);
    PmsOutBare(c, w.s, l.toPms, e);
    ChannelSent(c.pbx.wire, w.toPbx, S.Step(c.pms, w.s, e).1);
    ChannelRead(c.pbx.wire, w.toPms);
  }

  /** A receive timeout is no event of the link. */
  lemma SilenceSimulates(c: Setups, w: Wires, side: Side)
    requires ValidConfig(c.pbx.wire) && Carries(c, w)
    ensures Carries(c, WireNext(c, w, Silence(side))) && View(c, WireNext(c, w, Silence(side))) == View(c, w)
  {
    OneSilence(c.pbx.wire);
    match side
    case Pbx =>
      RecordsConcat(c.pbx.wire, w.toPbx, [Timeout]);
      Text.Unit(Records(c.pbx.wire, w.toPbx));
    case Pms =>
      RecordsConcat(c.pbx.wire, w.toPms, [Timeout]);
      Text.Unit(Records(c.pbx.wire, w.toPms));
  }

  // ---- Whole runs ----

  function WiresAfter(c: Setups, w: Wires, run: seq<WireEvent>): Wires
    decreases |run|
  {
    if run == [] then w else WiresAfter(c, WireNext(c, w, run[0]), run[1..])
  }

  /** Each event of the link allowed when it happens; a receiver may time out at any moment. */
  predicate AllowedWires(c: Setups, w: Wires, run: seq<WireEvent>)
    decreases |run|
  {
    run == [] ||
    ((run[0].On? ==> Allowed(c, View(c, w), Met(c, w, run[0].event))) && AllowedWires(c, WireNext(c, w, run[0]), run[1..]))
  }

  /** The run of the link that a run over bytes stands for. */
  function Seen(c: Setups, w: Wires, run: seq<WireEvent>): seq<Event>
    decreases |run|
  {
    if run == [] then []
    else (if run[0].On? then [Met(c, w, run[0].event)] else []) + Seen(c, WireNext(c, w, run[0]), run[1..])
  }

  function QueuedOn(run: seq<WireEvent>, side: Side): seq<Message> {
    if run == [] then []
    else (if run[0].On? && run[0].event.Queue? && run[0].event.side == side then [run[0].event.message] else [])
         + QueuedOn(run[1..], side)
  }

  lemma EventSimulates(c: Setups, w: Wires, ev: Event)
    requires ValidSetups(c) && BareSetups(c) && Carries(c, w) && Inv(c, View(c, w))
    requires Allowed(c, View(c, w), Met(c, w, ev))
    ensures var w' := WireNext(c, w, On(ev)); Carries(c, w') && View(c, w') == Next(c, View(c, w), Met(c, w, ev))
  {
    match ev
    case Turn(Pbx, _) => PbxSimulates(c, w, ev);
    case Turn(Pms, _) => PmsSimulates(c, w, ev);
    case Queue(_, _, _) =>
  }

  /** What a run over bytes has to do with the run of the link it stands for. */
  ghost predicate Refines(c: Setups, w: Wires, run: seq<WireEvent>) {
    var seen := Seen(c, w, run);
    && AllowedRun(c, View(c, w), seen) && After(c, View(c, w), seen) == View(c, WiresAfter(c, w, run))
    && Carries(c, WiresAfter(c, w, run))
    && (forall side :: Queued(seen, side) == QueuedOn(run, side))
  }

  lemma RefinesMore(c: Setups, w: Wires, ev: Event, run: seq<WireEvent>)
    requires ValidSetups(c) && BareSetups(c) && Carries(c, w) && Inv(c, View(c, w))
    requires run != [] && run[0] == On(ev) && Allowed(c, View(c, w), Met(c, w, ev))
    requires View(c, WireNext(c, w, run[0])) == Next(c, View(c, w), Met(c, w, ev))
    requires Refines(c, WireNext(c, w, run[0]), run[1..])
    ensures Refines(c, w, run)
  {
    var rest := Seen(c, WireNext(c, w, run[0]), run[1..]);
    assert ([Met(c, w, ev)] + rest)[1..] == rest;
  }

  /** Main result, refinement: every run of the daemons over bytes is an allowed run of the link over records, with
      the same machines at its end and the same messages queued. */
  lemma {:induction false} BytesRefineRecords(c: Setups, w: Wires, run: seq<WireEvent>)
    requires ValidSetups(c) && BareSetups(c) && Carries(c, w) && Inv(c, View(c, w)) && AllowedWires(c, w, run)
    ensures Refines(c, w, run)
    decreases |run|
  {
    if run != [] {
      var w' := WireNext(c, w, run[0]);
      match run[0] {
        case On(ev) =>
          EventSimulates(c, w, ev);
          var l' := EveryTurnIsGood(c, View(c, w), Met(c, w, ev));
          BytesRefineRecords(c, w', run[1..]);
          RefinesMore(c, w, ev, run);
        case Silence(side) =>
          SilenceSimulates(c, w, side);
          BytesRefineRecords(c, w', run[1..]);
          Text.Unit(Seen(c, w', run[1..]));
      }
    }
  }
}
