/** From the messages a script queued on one side to the tables of the other, and on to the handlers. */
module FiasEndToEnd {
  import opened Text
  import opened FiasWire
  import opened FiasLinkRecords
  import opened FiasLink
  import opened FiasTransfer
  import opened FiasWires
  import L = LegacyCommand
  import D = FiasDispatch

  /** The queue a daemon sends from: the rows of one direction with their parameters. */
  function QueueOf(messages: seq<MessageRow>, params: seq<ParamRow>, dir: string): seq<Entry> {
    if messages == [] then []
    else
      var m := messages[0];
      (if m.dir == dir then [Entry(m.id, Message(m.cmd, ParamsOf(params, m.id)), m.done)] else [])
      + QueueOf(messages[1..], params, dir)
  }

  /** The messages still to send are the pending ones of the table. */
  lemma {:induction false} UnsentIsPending(messages: seq<MessageRow>, params: seq<ParamRow>, dir: string)
    ensures Unsent(QueueOf(messages, params, dir)) == Contents(Undone(messages), params, dir)
  {
    if messages != [] {
      var m, rest := messages[0], messages[1..];
      UnsentIsPending(rest, params, dir);
      var entry := Entry(m.id, Message(m.cmd, ParamsOf(params, m.id)), m.done);
      if m.dir == dir { assert ([entry] + QueueOf(rest, params, dir))[1..] == QueueOf(rest, params, dir); }
      Text.Unit(QueueOf(rest, params, dir));
      if !m.done { assert ([m] + Undone(rest))[1..] == Undone(rest); }
      Text.Unit(Undone(rest));
      Text.Unit(Contents(Undone(rest), params, dir));
    }
  }

  /** Both daemons start over with nothing in flight, fias-server's queue the pending rows of its table; fiasd's log
      of stored messages is empty. */
  predicate Starts(c: Setups, w: Wires, source: Tables) {
    && Connected(c, View(c, w)) && w.toPms == [] && w.toPbx == []
    && w.s.queue == QueueOf(source.messages, source.params, "PBX") && w.f.stored == []
  }

  /** Everything for the PBX that a run had to deliver. */
  function Meant(source: Tables, run: seq<WireEvent>): seq<Message> { Pending(source, "PBX") + QueuedOn(run, Pms) }

  predicate IsPayload(m: Message) { Op(m.cmd) !in LINK_RECORDS + SWAP_RECORDS }

  /** Main result, bytes: no run over bytes sends a daemon to disconnection, and once it has come to rest each daemon
      has stored what the other had pending and was given since: the same commands, labels and values, in order. */
  lemma BytesDeliver(c: Setups, w: Wires, run: seq<WireEvent>, source: Tables)
    requires ValidSetups(c) && BareSetups(c) && Starts(c, w, source) && AllowedWires(c, w, run)
    ensures !Down(View(c, WiresAfter(c, w, run)))
    ensures Done(View(c, WiresAfter(c, w, run))) ==>
      Payload(WiresAfter(c, w, run).f.stored, LINK_RECORDS + SWAP_RECORDS)
      == Payload(NormalMessages(Meant(source, run)), LINK_RECORDS + SWAP_RECORDS)
    ensures Done(View(c, WiresAfter(c, w, run))) ==>
      Payload(WiresAfter(c, w, run).s.stored, LINK_RECORDS)
      == Payload(w.s.stored, LINK_RECORDS)
         + Payload(NormalMessages(Unsent(w.f.queue) + QueuedOn(run, Pbx)), LINK_RECORDS)
  {
    var l, seen := View(c, w), Seen(c, w, run);
    ConnectedIsInv(c, l);
    BytesRefineRecords(c, w, run);
    assert Refines(c, w, run);
    NeverDisconnected(c, l, seen);
    if Done(View(c, WiresAfter(c, w, run))) {
      EverythingArrives(c, l, seen);
      UnsentIsPending(source.messages, source.params, "PBX");
      Text.Unit(Payload(NormalMessages(Meant(source, run)), LINK_RECORDS + SWAP_RECORDS));
    }
  }

  lemma {:induction false} PayloadHolds(ms: seq<Message>, skip: set<string>, m: Message)
    ensures m in Payload(ms, skip) <==> m in ms && Op(m.cmd) !in skip
  {
    if ms != [] {
      PayloadHolds(ms[1..], skip, m);
      assert ms == [ms[0]] + ms[1..];
    }
  }

  lemma {:induction false} NormalHolds(ms: seq<Message>, m: Message)
    requires m in ms
    ensures NormalMessage(m) in NormalMessages(ms)
  {
    if ms[0] != m { NormalHolds(ms[1..], m); }
  }

  /** A null value and an empty one are the same to a handler. */
  lemma {:induction false} LastValueNormal(params: seq<Param>, normal: seq<Param>, tag: string)
    requires |normal| == |params| && forall i :: 0 <= i < |params| ==> normal[i] == Normal(params[i])
    ensures D.LastValue(normal, tag) == D.LastValue(params, tag)
  {
    if params != [] { LastValueNormal(params[..|params| - 1], normal[..|normal| - 1], tag); }
  }

  /** The row under which fiasd stored a message that was sent. */
  lemma StoredRow(target: Tables, stored: seq<Message>, m: Message) returns (k: nat)
    requires WellFormed(target) && NormalMessage(m) in stored && m.params != []
    ensures D.Waiting(InsertAll(target, stored, "PBX"), k, m.cmd) && k >= |target.messages|
    ensures var t := InsertAll(target, stored, "PBX"); ParamsOf(t.params, t.messages[k].id) == NormalMessage(m).params
  {
    var i :| 0 <= i < |stored| && stored[i] == NormalMessage(m);
    InsertedRow(target, stored, "PBX", i);
    k := |target.messages| + i;
  }

  lemma Delivered(c: Setups, w: Wires, run: seq<WireEvent>, source: Tables, m: Message)
    requires ValidSetups(c) && BareSetups(c) && Starts(c, w, source) && AllowedWires(c, w, run)
    requires Done(View(c, WiresAfter(c, w, run))) && m in Meant(source, run) && IsPayload(m)
    ensures NormalMessage(m) in WiresAfter(c, w, run).f.stored
  {
    var skip := LINK_RECORDS + SWAP_RECORDS;
    BytesDeliver(c, w, run, source);
    NormalHolds(Meant(source, run), m);
    PayloadHolds(NormalMessages(Meant(source, run)), skip, NormalMessage(m));
    PayloadHolds(WiresAfter(c, w, run).f.stored, skip, NormalMessage(m));
  }

  /** No value the sender gave a label of the format holds a NUL. */
  predicate NulFreeFor(m: Message, format: seq<string>) {
    forall tag <- format :: !D.Blank(tag) ==> L.NUL !in D.LastValue(m.params, tag)
  }

  /** A row of a stored message is served, unless a NUL is among them, with the values the sender gave. */
  lemma RowServed(t: Tables, k: nat, m: Message, ini: seq<D.Section>, script: D.Script, s: D.Section, words: seq<string>)
    requires D.Waiting(t, k, m.cmd) && ParamsOf(t.params, t.messages[k].id) == NormalMessage(m).params
    requires D.Configures(ini, m.cmd, s, words, script) && D.AlignedSection(ini, script, s, words)
    ensures D.Served(ini, script, t, t.messages[k].id, s.format) <==> NulFreeFor(m, Split(s.format, '_'))
    ensures forall tag <- Split(s.format, '_') :: !D.Blank(tag) ==>
      D.StoredValues(t, t.messages[k].id, Split(s.format, '_'))[tag] == D.LastValue(m.params, tag)
  {
    var id, format := t.messages[k].id, Split(s.format, '_');
    forall tag ensures D.LastValue(NormalMessage(m).params, tag) == D.LastValue(m.params, tag) {
      LastValueNormal(m.params, NormalMessage(m).params, tag);
    }
    assert D.ValuesNulFree(t, id, format) <==> NulFreeFor(m, format);
    D.AlignedServes(ini, script, t, k, m.cmd, s, words);
  }

  /** Main result, end to end: for every message that fias-server had to send, fiasd's table has a row after those it
      had; and exactly when none of the values its format asks for holds a NUL, the dispatcher starts a handler for it that
      gets, for each label of the format, the last value the sender gave that label. */
  lemma SenderToHandler(c: Setups, w: Wires, run: seq<WireEvent>, source: Tables, target: Tables, m: Message,
                        ini: seq<D.Section>, script: D.Script, s: D.Section, words: seq<string>) returns (k: nat)
    requires ValidSetups(c) && BareSetups(c) && Starts(c, w, source) && AllowedWires(c, w, run)
    requires Done(View(c, WiresAfter(c, w, run))) && WellFormed(target)
    requires m in Meant(source, run) && IsPayload(m) && m.params != []
    requires D.Configures(ini, m.cmd, s, words, script) && D.AlignedSection(ini, script, s, words)
    ensures var t := InsertAll(target, WiresAfter(c, w, run).f.stored, "PBX");
      && |target.messages| <= k < |t.messages| && D.Waiting(t, k, m.cmd)
      && (D.Served(ini, script, t, t.messages[k].id, s.format) <==> NulFreeFor(m, Split(s.format, '_')))
      && forall tag <- Split(s.format, '_') :: !D.Blank(tag) ==>
           D.StoredValues(t, t.messages[k].id, Split(s.format, '_'))[tag] == D.LastValue(m.params, tag)
  {
    var stored := WiresAfter(c, w, run).f.stored;
    Delivered(c, w, run, source, m);
    k := StoredRow(target, stored, m);
    RowServed(InsertAll(target, stored, "PBX"), k, m, ini, script, s, words);
  }
}
