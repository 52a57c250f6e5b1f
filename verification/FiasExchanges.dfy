/** What each daemon says and does in answer to its peer, from the connection on: the handshakes and the exchanges. */
module FiasExchanges {
  import opened Text
  import opened FiasWire
  import opened FiasLinkRecords
  import F = Fiasd
  import S = FiasServer
  import D = FiasDelivery

  /** A record of this operation comes in. */
  predicate Gets(e: Env, op: string) { e.result == RecordRead && Op(e.incoming) == op }

  // ---- The dated table ----

  /** The two letters do not stand side by side. */
  predicate Unmarked(s: string, a: char, b: char) { forall i :: 0 <= i < |s| - 1 ==> !(s[i] == a && s[i + 1] == b) }

  lemma {:induction false} MarkNone(s: string, a: char, b: char, text: string)
    requires Unmarked(s, a, b)
    ensures Mark(s, a, b, text) == s
    decreases |s|
  {
    if |s| >= 2 {
      UnmarkedTail(s, a, b);
      MarkNone(s[1..], a, b, text);
    }
  }

  lemma MarkSkips(x: char, s: string, a: char, b: char, text: string)
    requires s != "" && !(x == a && s[0] == b)
    ensures Mark([x] + s, a, b, text) == [x] + Mark(s, a, b, text)
  {
    assert ([x] + s)[1..] == s;
  }

  lemma MarkHere(a: char, b: char, text: string, rest: string)
    ensures Mark([a, b] + rest, a, b, text) == [a, b] + text + Mark(rest, a, b, text)
  {
    assert ([a, b] + rest)[2..] == rest;
  }

  lemma UnmarkedTail(s: string, a: char, b: char)
    requires s != "" && Unmarked(s, a, b)
    ensures Unmarked(s[1..], a, b) && (|s| > 1 ==> !(s[0] == a && s[1] == b))
  {
    forall i | 0 <= i < |s[1..]| - 1 ensures !(s[1..][i] == a && s[1..][i + 1] == b) { assert s[i + 1] == s[1..][i]; }
  }

  lemma {:induction false} MarkFirst(pre: string, a: char, b: char, text: string, rest: string)
    requires a != b && Unmarked(pre, a, b)
    ensures Mark(pre + ([a, b] + rest), a, b, text) == pre + ([a, b] + text + Mark(rest, a, b, text))
    decreases |pre|
  {
    var tail, marked := [a, b] + rest, [a, b] + text + Mark(rest, a, b, text);
    if pre == "" {
      MarkHere(a, b, text, rest);
      Unit(tail);
      Unit(marked);
    } else {
      UnmarkedTail(pre, a, b);
      MarkFirst(pre[1..], a, b, text, rest);
      assert (pre[1..] + tail)[0] == if |pre| > 1 then pre[1] else a;
      MarkSkips(pre[0], pre[1..] + tail, a, b, text);
      Assoc([pre[0]], pre[1..], tail);
      Assoc([pre[0]], pre[1..], marked);
      assert pre == [pre[0]] + pre[1..];
    }
  }

  lemma UnmarkedJoin(s: string, t: string, a: char, b: char)
    requires Unmarked(s, a, b) && Unmarked(t, a, b) && (s == "" || t == "" || s[|s| - 1] != a || t[0] != b)
    ensures Unmarked(s + t, a, b)
  {
  }

  predicate NoMarks(s: string) { Unmarked(s, 'D', 'A') && Unmarked(s, 'T', 'I') }

  lemma AfterDate(between: string, after: string)
    requires NoMarks(between) && NoMarks(after)
    ensures Unmarked(between + ("TI" + after), 'D', 'A')
  {
    UnmarkedJoin("TI", after, 'D', 'A');
    UnmarkedJoin(between, "TI" + after, 'D', 'A');
  }

  lemma DateMarked(before: string, between: string, after: string, date: string)
    requires NoMarks(before) && NoMarks(between) && NoMarks(after)
    ensures Mark(before + ("DA" + (between + ("TI" + after))), 'D', 'A', date) == before + ("DA" + date + between) + ("TI" + after)
  {
    var rest := between + ("TI" + after);
    AfterDate(between, after);
    MarkFirst(before, 'D', 'A', date, rest);
    MarkNone(rest, 'D', 'A', date);
    Assoc("DA" + date, between, "TI" + after);
    Assoc(before, "DA" + date + between, "TI" + after);
  }

  lemma TimeMarked(front: string, after: string, time: string)
    requires Unmarked(front, 'T', 'I') && NoMarks(after)
    ensures Mark(front + ("TI" + after), 'T', 'I', time) == front + ("TI" + time + after)
  {
    MarkFirst(front, 'T', 'I', time, after);
    MarkNone(after, 'T', 'I', time);
  }

  /** An LD of the table goes out with the date after its DA and the time after its TI; any other record as it is. */
  lemma DatedTable(before: string, between: string, after: string, e: Env)
    requires Dated(e) && Op(before + ("DA" + (between + ("TI" + after)))) == "LD"
    requires NoMarks(before) && NoMarks(between) && NoMarks(after)
    ensures TableRecord(before + ("DA" + (between + ("TI" + after))), e)
            == before + ("DA" + e.date + between) + ("TI" + e.time + after)
  {
    DateMarked(before, between, after, e.date);
    UnmarkedDate(before, e.date, between);
    TimeMarked(before + ("DA" + e.date + between), after, e.time);
  }

  lemma UnmarkedDate(before: string, date: string, between: string)
    requires Unmarked(before, 'T', 'I') && Unmarked(between, 'T', 'I') && date != "" && forall x <- date :: Digit(x)
    ensures Unmarked(before + ("DA" + date + between), 'T', 'I')
  {
    forall i | 0 <= i < |date| ensures date[i] != 'T' && date[i] != 'I' { assert date[i] in date; }
    UnmarkedJoin("DA", date, 'T', 'I');
    UnmarkedJoin("DA" + date, between, 'T', 'I');
    UnmarkedJoin(before, "DA" + date + between, 'T', 'I');
  }

  lemma OthersUndated(s: string, e: Env)
    requires Op(s) != "LD"
    ensures TableRecord(s, e) == s
  {
  }

  // ---- The PBX side: the handshake ----

  /** The turns lead to an open link, which was neither open nor given up before. */
  predicate Opens(c: Setup, m: F.Machine, es: seq<Env>)
    decreases |es|
  {
    if m.state == F.WaitForData then es == []
    else m.state != F.AtDisconnected && es != [] && Opens(c, F.Step(c, m, es[0]).0, es[1..])
  }

  /** The link is neither open nor given up so far. */
  predicate Agreeing(c: Setup, m: F.Machine, es: seq<Env>)
    decreases |es|
  {
    m.state != F.WaitForData && m.state != F.AtDisconnected && (es == [] || Agreeing(c, F.Step(c, m, es[0]).0, es[1..]))
  }

  /** What goes out in these turns. */
  function Said(c: Setup, m: F.Machine, es: seq<Env>): seq<string>
    decreases |es|
  {
    if es == [] then [] else F.Step(c, m, es[0]).1 + Said(c, F.Step(c, m, es[0]).0, es[1..])
  }

  /** The peer's LS is answered with the table, and LA comes back. */
  predicate TheirStart(es: seq<Env>) { |es| == 3 && Gets(es[0], "LS") && es[1].sent && Gets(es[2], "LA") }

  /** The peer is silent, and answers the daemon's own LS with LA, with an LD that is acknowledged, or with its LS. */
  predicate OwnStart(es: seq<Env>) {
    && |es| >= 3 && es[0].result == TimedOut && es[1].sent
    && (|| (|es| == 3 && Gets(es[2], "LA"))
        || (|es| == 4 && Gets(es[2], "LD") && es[3].sent)
        || (|es| == 5 && Gets(es[2], "LS") && es[3].sent && Gets(es[4], "LA")))
  }

  /** The link is being agreed. */
  predicate Between(s: F.State) { s != F.WaitForData && s != F.AtDisconnected }

  lemma OneTurn(c: Setup, m: F.Machine, es: seq<Env>)
    requires Between(m.state)
    ensures es == [] ==> !Opens(c, m, es) && Agreeing(c, m, es)
    ensures es != [] ==> var m1 := F.Step(c, m, es[0]).0;
      && (Opens(c, m, es) <==> Opens(c, m1, es[1..])) && (Agreeing(c, m, es) <==> Agreeing(c, m1, es[1..]))
      && (m1.state == F.AtDisconnected ==> !Opens(c, m, es) && !Agreeing(c, m, es))
      && (m1.state == F.WaitForData ==> (Opens(c, m, es) <==> |es| == 1) && !Agreeing(c, m, es))
      && Said(c, m, es) == F.Step(c, m, es[0]).1 + Said(c, m1, es[1..])
      && (|es| == 1 ==> Said(c, m, es) == F.Step(c, m, es[0]).1)
  {
    if |es| == 1 { Unit(F.Step(c, m, es[0]).1); }
  }

  lemma AwaitingLA(c: Setup, m: F.Machine, es: seq<Env>)
    requires m.state == F.WaitForLA
    ensures Opens(c, m, es) <==> |es| == 1 && Gets(es[0], "LA")
    ensures Agreeing(c, m, es) <==> es == []
    ensures Opens(c, m, es) ==> Said(c, m, es) == []
  {
    OneTurn(c, m, es);
  }

  lemma Acknowledging(c: Setup, m: F.Machine, es: seq<Env>)
    requires m.state == F.SendLA
    ensures Opens(c, m, es) <==> |es| == 1 && es[0].sent
    ensures Agreeing(c, m, es) <==> es == []
    ensures Opens(c, m, es) ==> Said(c, m, es) == [LinkRecord(c.wire, "LA", es[0])]
  {
    OneTurn(c, m, es);
  }

  lemma Announcing(c: Setup, m: F.Machine, es: seq<Env>)
    requires m.state == F.SendLDLRLA
    ensures Opens(c, m, es) <==> |es| == 2 && es[0].sent && Gets(es[1], "LA")
    ensures Agreeing(c, m, es) <==> es == [] || (|es| == 1 && es[0].sent)
    ensures Opens(c, m, es) ==> Said(c, m, es) == Announce(c, es[0])
  {
    OneTurn(c, m, es);
    if es != [] && es[0].sent {
      AwaitingLA(c, F.Step(c, m, es[0]).0, es[1..]);
      Unit(Announce(c, es[0]));
    }
  }

  lemma AwaitingAnswer(c: Setup, m: F.Machine, es: seq<Env>)
    requires m.state == F.WaitForLSLA
    ensures Opens(c, m, es) <==> (|es| == 1 && Gets(es[0], "LA")) || (|es| == 2 && Gets(es[0], "LD") && es[1].sent)
                                 || (|es| == 3 && Gets(es[0], "LS") && es[1].sent && Gets(es[2], "LA"))
    ensures Agreeing(c, m, es) <==> es == [] || (|es| == 1 && (Gets(es[0], "LD") || Gets(es[0], "LS")))
                                    || (|es| == 2 && Gets(es[0], "LS") && es[1].sent)
    ensures Opens(c, m, es) ==> Said(c, m, es) == if Gets(es[0], "LA") then []
                                                 else if Gets(es[0], "LD") then [LinkRecord(c.wire, "LA", es[1])]
                                                 else Announce(c, es[1])
  {
    OneTurn(c, m, es);
    if es != [] {
      var m1 := F.Step(c, m, es[0]).0;
      Unit(Said(c, m1, es[1..]));
      if m1.state == F.SendLDLRLA { Announcing(c, m1, es[1..]); } else if m1.state == F.SendLA { Acknowledging(c, m1, es[1..]); }
    }
  }

  lemma Starting(c: Setup, m: F.Machine, es: seq<Env>)
    requires m.state == F.SendLS
    ensures Opens(c, m, es) <==> es != [] && es[0].sent && Opens(c, F.Step(c, m, es[0]).0, es[1..])
    ensures Agreeing(c, m, es) <==> es == [] || (es[0].sent && Agreeing(c, F.Step(c, m, es[0]).0, es[1..]))
    ensures es != [] && es[0].sent ==>
              && F.Step(c, m, es[0]).0.state == F.WaitForLSLA
              && Said(c, m, es) == [LinkRecord(c.wire, "LS", es[0])] + Said(c, F.Step(c, m, es[0]).0, es[1..])
  {
    OneTurn(c, m, es);
  }

  /** The turns after the first silence. */
  predicate Silent(es: seq<Env>) { |es| >= 2 && es[0].result == TimedOut && es[1].sent }

  lemma OwnHandshake(c: Setup, m: F.Machine, es: seq<Env>)
    requires m.state == F.WaitForSincro && es != [] && es[0].result == TimedOut
    ensures Opens(c, m, es) <==> OwnStart(es)
    ensures Agreeing(c, m, es) <==> |es| == 1 || (Silent(es) && MayAnswer(es[2..]))
    ensures OwnStart(es) ==> Said(c, m, es) == [LinkRecord(c.wire, "LS", es[1])] + Answered(c, es[2..])
  {
    OneTurn(c, m, es);
    var m1 := F.Step(c, m, es[0]).0;
    Unit(Said(c, m1, es[1..]));
    Starting(c, m1, es[1..]);
    if Silent(es) {
      assert es[1..][1..] == es[2..];
      AwaitingAnswer(c, F.Step(c, m1, es[1]).0, es[2..]);
    }
  }

  /** The answers to the daemon's LS so far, and what it says to a whole one. */
  predicate MayAnswer(es: seq<Env>) {
    || es == [] || (|es| == 1 && (Gets(es[0], "LD") || Gets(es[0], "LS"))) || (|es| == 2 && Gets(es[0], "LS") && es[1].sent)
  }

  function Answered(c: Setup, es: seq<Env>): seq<string> {
    if |es| == 2 then [LinkRecord(c.wire, "LA", es[1])] else if |es| == 3 then Announce(c, es[1]) else []
  }

  /** Main result, the PBX side: a connection becomes an open link exactly when the peer's LS is answered with the dated
      table and LA comes back, or the daemon's own LS, after a silence, is answered with LA, with an LD it acknowledges, or
      with an LS it answers in turn; this is all it says. Any other answer, and any failing send, gives the connection up. */
  lemma PbxHandshake(c: Setup, m: F.Machine, e: Env, es: seq<Env>)
    requires m.state == F.Start && e.connected
    ensures var m1 := F.Step(c, m, e).0;
      && !m1.lock && (Opens(c, m1, es) <==> TheirStart(es) || OwnStart(es))
      && (Agreeing(c, m1, es) <==>
            || es == [] || (|es| == 1 && (Gets(es[0], "LS") || es[0].result == TimedOut))
            || (|es| == 2 && Gets(es[0], "LS") && es[1].sent) || (Silent(es) && MayAnswer(es[2..])))
      && (TheirStart(es) ==> Said(c, m1, es) == Announce(c, es[1]))
      && (OwnStart(es) ==> Said(c, m1, es) == [LinkRecord(c.wire, "LS", es[1])] + Answered(c, es[2..]))
  {
    var m1 := F.Step(c, m, e).0;
    OneTurn(c, m1, es);
    if es != [] {
      if es[0].result == TimedOut {
        OwnHandshake(c, m1, es);
      } else if Gets(es[0], "LS") {
        var m2 := F.Step(c, m1, es[0]).0;
        Unit(Said(c, m2, es[1..]));
        Announcing(c, m2, es[1..]);
      }
    }
  }

  /** Of a table whose sending fails, as many records go out as were sent before that, never all. */
  lemma TableFails(c: Setup, m: F.Machine, n: S.Machine, e: Env)
    requires m.state == F.SendLDLRLA && n.state == S.SendLDLRLA && !e.sent
    ensures var out, all := F.Step(c, m, e).1, Announce(c, e);
      && out < all && (e.out < |all| ==> |out| == e.out) && (e.out >= |all| ==> |out| == |c.table|)
      && S.Step(c, n, e).1 == if c.table == [] then [] else out
  {
  }

  /** A connection given up, or not made, is tried again. */
  lemma PbxTriesAgain(c: Setup, m: F.Machine, e: Env)
    ensures m.state == F.AtDisconnected ==> F.Step(c, m, e) == (m.(state := F.Start), [])
    ensures m.state == F.Start && !e.connected ==> F.Step(c, m, e).0.state == F.AtDisconnected
  {
  }

  // ---- The PBX side: the open link ----

  /** A record that is of the link itself. */
  predicate OfTheLink(op: string) { op == "LS" || op == "LE" || op == "LA" || op == "DS" || op == "DE" }

  /** Main result: on an open link an incoming record that is not of the link is stored as the message it splits into, when
      that can be, and else ends the connection; DS and DE turn the swap lock on and off, LA changes nothing, LS is
      answered with the table, and LE ends the connection. */
  lemma PbxTakes(c: Setup, m: F.Machine, e: Env, next: Env)
    requires m.state == F.WaitForData && e.result == RecordRead
    ensures var op, m1 := Op(e.incoming), F.Step(c, m, e).0;
      var (m2, out) := F.Step(c, m1, next);
      && F.Step(c, m, e).1 == [] && m1.queue == m.queue && m1.lastCommunication == e.now
      && (op == "DS" ==> m1 == m.(lock := true, record := e.incoming, lastCommunication := e.now))
      && (op == "DE" ==> m1 == m.(lock := false, record := e.incoming, lastCommunication := e.now))
      && (op == "LA" ==> m1 == m.(record := e.incoming, lastCommunication := e.now))
      && (op == "LE" ==> m1.state == F.AtDisconnected && m1.stored == m.stored)
      && (op == "LS" ==> m2.stored == m.stored && m2.lock == m.lock && m2.queue == m.queue
                         && if next.sent then out == Announce(c, next) && m2.state == F.WaitForLA else m2.state == F.AtDisconnected)
      && (!OfTheLink(op) ==>
            var message := Parse(c.wire, e.incoming);
            && out == [] && m2.queue == m.queue && m2.lock == m.lock
            && (Acceptable(message) && next.dbOk ==> m2.stored == m.stored + [message] && m2.state == F.ReadDB)
            && (!Acceptable(message) || !next.dbOk ==> m2.stored == m.stored && m2.state == F.AtDisconnected))
  {
  }

  /** No entry before the one at k waits, and that one does. */
  predicate FirstWaits(queue: seq<Entry>, k: nat) { k < |queue| && !queue[k].done && forall i :: 0 <= i < k ==> queue[i].done }

  lemma FirstWaitsIs(queue: seq<Entry>, k: nat)
    ensures FirstWaits(queue, k) <==> k == FirstUndone(queue) < |queue|
  {
  }

  /** Main result: the daemon looks for a message to send after a silence, and after a message it stored. With the swap lock
      off and the database there, it sends the first one that waits, whole as it was built, and marks just that one. Else it
      changes nothing: it waits on, or starts a link check when the silence lasted, or gives the connection up. */
  lemma PbxSends(c: Setup, m: F.Machine, e: Env, next: Env, k: nat)
    requires m.state == F.ReadDB
    ensures var (m1, out1) := F.Step(c, m, e);
      var (m2, out2) := F.Step(c, m1, next);
      && (m.lock ==> m1 == m.(state := F.WaitForData) && out1 == [])
      && (!m.lock && !e.dbOk ==> m1 == m.(state := F.AtDisconnected) && out1 == [])
      && (!m.lock && e.dbOk && (forall i :: 0 <= i < |m.queue| ==> m.queue[i].done) ==>
            m1 == m.(state := if e.now - m.lastCommunication > c.interval then F.SendLS else F.WaitForData) && out1 == [])
      && (!m.lock && e.dbOk && FirstWaits(m.queue, k) && !("LE" <= RecordOf(c.wire, m.queue[k].message)) ==>
            && out1 == [] && m1.state == F.SendData
            && out2 == (if next.sent then [RecordOf(c.wire, m.queue[k].message)] else [])
            && m2.state == (if !next.sent then F.AtDisconnected else if next.update == Died then F.Start else F.WaitForData)
            && m2.queue == (if next.sent && next.update == Updated then MarkDone(m.queue, m.queue[k].id) else m.queue)
            && m2.stored == m.stored && m2.lock == m.lock)
      && (!m.lock && e.dbOk && FirstWaits(m.queue, k) && "LE" <= RecordOf(c.wire, m.queue[k].message) ==>
            && out1 == (if e.sent then [LinkRecord(c.wire, "LE", e)] else [])
            && m1.state == (if e.update == Died then F.AtDisconnected else F.Exited)
            && m1.queue == (if e.update == Updated then MarkDone(m.queue, m.queue[k].id) else m.queue)
            && m1.stored == m.stored)
  {
    FirstWaitsIs(m.queue, k);
  }

  /** A silence makes the daemon look. */
  lemma PbxLooks(c: Setup, m: F.Machine, e: Env)
    requires m.state == F.WaitForData && e.result != RecordRead
    ensures F.Step(c, m, e) == (m.(state := if e.result == TimedOut then F.ReadDB else F.AtDisconnected), [])
  {
  }

  // ---- The PBX side: when the link is checked ----

  /** In this turn the connection is made, or a record comes in or goes out whole. */
  predicate Talks(m: F.Machine, e: Env) {
    || (m.state == F.Start && e.connected)
    || (m.state in {F.WaitForData, F.WaitForLA, F.WaitForLSLA, F.WaitForSincro} && e.result == RecordRead)
    || (m.state in {F.SendData, F.SendLA, F.SendLDLRLA, F.SendLS} && e.sent)
  }

  /** The k-th event of a run is such a turn. */
  predicate TalksAt(c: Setup, s: D.Sys, run: seq<D.Event>, k: int) {
    0 <= k < |run| && run[k].Turn? && Talks(D.Run(c, s, run[..k]).m, run[k].e)
  }

  predicate LastTalk(c: Setup, s: D.Sys, run: seq<D.Event>, k: int) {
    TalksAt(c, s, run, k) && forall j :: k < j < |run| ==> !TalksAt(c, s, run, j)
  }

  lemma TalkStep(c: Setup, s: D.Sys, ev: D.Event)
    ensures D.Apply(c, s, ev).m.lastCommunication
            == if ev.Turn? && Talks(s.m, ev.e) then ev.e.now else s.m.lastCommunication
  {
  }

  lemma TalksLater(c: Setup, s: D.Sys, run: seq<D.Event>, k: int)
    requires run != [] && k > 0
    ensures TalksAt(c, s, run, k) <==> TalksAt(c, D.Apply(c, s, run[0]), run[1..], k - 1)
  {
    if k < |run| {
      assert run[..k][0] == run[0] && run[..k][1..] == run[1..][..k - 1] && run[1..][k - 1] == run[k];
    }
  }

  lemma TalksFirst(c: Setup, s: D.Sys, run: seq<D.Event>)
    requires run != []
    ensures TalksAt(c, s, run, 0) <==> run[0].Turn? && Talks(s.m, run[0].e)
  {
    assert run[..0] == [];
  }

  lemma {:induction false} StaysSilent(c: Setup, s: D.Sys, run: seq<D.Event>)
    requires forall j :: !TalksAt(c, s, run, j)
    ensures D.Run(c, s, run).m.lastCommunication == s.m.lastCommunication
    decreases |run|
  {
    if run != [] {
      var s1, rest := D.Apply(c, s, run[0]), run[1..];
      TalksFirst(c, s, run);
      TalkStep(c, s, run[0]);
      SilentAfter(c, s, run, 0);
      StaysSilent(c, s1, rest);
    }
  }

  lemma SilentAfter(c: Setup, s: D.Sys, run: seq<D.Event>, k: int)
    requires run != [] && k >= 0 && forall j :: k < j < |run| ==> !TalksAt(c, s, run, j)
    ensures forall j :: k - 1 < j < |run| - 1 ==> !TalksAt(c, D.Apply(c, s, run[0]), run[1..], j)
  {
    forall j | k - 1 < j < |run| - 1 ensures !TalksAt(c, D.Apply(c, s, run[0]), run[1..], j) { TalksLater(c, s, run, j + 1); }
  }

  /** The daemon remembers when it last talked. */
  lemma {:induction false} RemembersTalk(c: Setup, s: D.Sys, run: seq<D.Event>, k: int)
    requires LastTalk(c, s, run, k)
    ensures D.Run(c, s, run).m.lastCommunication == run[k].e.now
    decreases |run|
  {
    var s1, rest := D.Apply(c, s, run[0]), run[1..];
    SilentAfter(c, s, run, k);
    if k == 0 {
      TalksFirst(c, s, run);
      TalkStep(c, s, run[0]);
      StaysSilent(c, s1, rest);
    } else {
      TalksLater(c, s, run, k);
      RemembersTalk(c, s1, rest, k - 1);
    }
  }

  /** Main result: over any run, with crashes and reconnections, a look at the tables starts a link check exactly when the
      swap lock is off, the database is there, nothing waits, and more than the interval has passed since the connection
      was made or the last record came in or went out whole. */
  lemma ChecksExactlyWhenIdle(c: Setup, run: seq<D.Event>, k: int, e: Env)
    requires var s := D.Run(c, D.INITIAL, run); s.m.state == F.ReadDB && LastTalk(c, D.INITIAL, run, k)
    ensures var m := D.Run(c, D.INITIAL, run).m;
      F.Step(c, m, e).0.state == F.SendLS
      <==> !m.lock && e.dbOk && (forall i :: 0 <= i < |m.queue| ==> m.queue[i].done) && e.now - run[k].e.now > c.interval
  {
    var m := D.Run(c, D.INITIAL, run).m;
    RemembersTalk(c, D.INITIAL, run, k);
    FirstWaitsIs(m.queue, FirstUndone(m.queue));
    if exists i :: 0 <= i < |m.queue| && !m.queue[i].done {
      PbxSends(c, m, e, e, FirstUndone(m.queue));
    }
  }

  // ---- The PMS side ----

  predicate PmsOpens(c: Setup, m: S.Machine, es: seq<Env>)
    decreases |es|
  {
    if m.state == S.WaitForData then es == []
    else m.state != S.AtDisconnected && es != [] && PmsOpens(c, S.Step(c, m, es[0]).0, es[1..])
  }

  predicate PmsAgreeing(c: Setup, m: S.Machine, es: seq<Env>)
    decreases |es|
  {
    m.state != S.WaitForData && m.state != S.AtDisconnected && (es == [] || PmsAgreeing(c, S.Step(c, m, es[0]).0, es[1..]))
  }

  function PmsSaid(c: Setup, m: S.Machine, es: seq<Env>): seq<string>
    decreases |es|
  {
    if es == [] then [] else S.Step(c, m, es[0]).1 + PmsSaid(c, S.Step(c, m, es[0]).0, es[1..])
  }

  /** A record of the table comes in. */
  predicate TableRow(e: Env) { Gets(e, "LD") || Gets(e, "LR") }

  predicate TableComes(es: seq<Env>) { forall i :: 0 <= i < |es| ==> TableRow(es[i]) }

  /** The peer's table, of any length, then LA, which is acknowledged. */
  predicate TheirTable(es: seq<Env>) {
    |es| >= 2 && TableComes(es[..|es| - 2]) && Gets(es[|es| - 2], "LA") && es[|es| - 1].sent
  }

  lemma PmsTurn(c: Setup, m: S.Machine, es: seq<Env>)
    requires m.state != S.WaitForData && m.state != S.AtDisconnected
    ensures es == [] ==> !PmsOpens(c, m, es) && PmsAgreeing(c, m, es)
    ensures es != [] ==> var m1 := S.Step(c, m, es[0]).0;
      && (PmsOpens(c, m, es) <==> PmsOpens(c, m1, es[1..])) && (PmsAgreeing(c, m, es) <==> PmsAgreeing(c, m1, es[1..]))
      && (m1.state == S.AtDisconnected ==> !PmsOpens(c, m, es) && !PmsAgreeing(c, m, es))
      && (m1.state == S.WaitForData ==> (PmsOpens(c, m, es) <==> |es| == 1) && !PmsAgreeing(c, m, es))
      && PmsSaid(c, m, es) == S.Step(c, m, es[0]).1 + PmsSaid(c, m1, es[1..])
      && (|es| == 1 ==> PmsSaid(c, m, es) == S.Step(c, m, es[0]).1)
  {
    if |es| == 1 { Unit(S.Step(c, m, es[0]).1); }
  }

  lemma PmsAcknowledging(c: Setup, m: S.Machine, es: seq<Env>)
    requires m.state == S.SendLA
    ensures PmsOpens(c, m, es) <==> |es| == 1 && es[0].sent
    ensures PmsAgreeing(c, m, es) <==> es == []
    ensures PmsOpens(c, m, es) ==> PmsSaid(c, m, es) == [LinkRecord(c.wire, "LA", es[0])]
  {
    PmsTurn(c, m, es);
  }

  lemma TableShift(es: seq<Env>)
    requires es != []
    ensures TableComes(es) <==> TableRow(es[0]) && TableComes(es[1..])
  {
    if TableComes(es[1..]) && TableRow(es[0]) {
      forall i | 0 <= i < |es| ensures TableRow(es[i]) { if i > 0 { assert es[1..][i - 1] == es[i]; } }
    }
  }

  /** The table comes in, and LA after it perhaps. */
  predicate SomeTable(es: seq<Env>) { TableComes(es) || (es != [] && TableComes(es[..|es| - 1]) && Gets(es[|es| - 1], "LA")) }

  lemma TheirMore(es: seq<Env>)
    requires es != []
    ensures TableRow(es[0]) ==> (TheirTable(es) <==> TheirTable(es[1..]))
    ensures !TableRow(es[0]) ==> (TheirTable(es) <==> |es| == 2 && Gets(es[0], "LA") && es[1].sent)
  {
    var n := |es| - 2;
    if n > 0 {
      assert es[..n][0] == es[0] && es[..n][1..] == es[1..][..n - 1];
      TableShift(es[..n]);
    }
  }

  lemma SomeMore(es: seq<Env>)
    requires es != []
    ensures TableRow(es[0]) ==> (SomeTable(es) <==> SomeTable(es[1..]))
    ensures !TableRow(es[0]) ==> (SomeTable(es) <==> |es| == 1 && Gets(es[0], "LA"))
  {
    TableShift(es);
    var n := |es| - 1;
    if n > 0 {
      assert es[..n][0] == es[0] && es[..n][1..] == es[1..][..n - 1];
      TableShift(es[..n]);
    }
  }

  lemma TakingOne(c: Setup, m: S.Machine, e: Env)
    requires m.state == S.WaitForLDLRLA
    ensures S.Step(c, m, e).1 == []
    ensures S.Step(c, m, e).0.state
            == if TableRow(e) then S.WaitForLDLRLA else if Gets(e, "LA") then S.SendLA else S.AtDisconnected
  {
  }

  lemma {:induction false} TakingTable(c: Setup, m: S.Machine, es: seq<Env>)
    requires m.state == S.WaitForLDLRLA
    ensures PmsOpens(c, m, es) <==> TheirTable(es)
    ensures PmsAgreeing(c, m, es) <==> SomeTable(es)
    ensures PmsOpens(c, m, es) ==> PmsSaid(c, m, es) == [LinkRecord(c.wire, "LA", es[|es| - 1])]
    decreases |es|
  {
    PmsTurn(c, m, es);
    if es != [] {
      var m1 := S.Step(c, m, es[0]).0;
      Unit(PmsSaid(c, m1, es[1..]));
      TheirMore(es);
      SomeMore(es);
      TakingOne(c, m, es[0]);
      if TableRow(es[0]) { TakingTable(c, m1, es[1..]); } else if Gets(es[0], "LA") { PmsAcknowledging(c, m1, es[1..]); }
    }
  }

  lemma PmsStarting(c: Setup, m: S.Machine, es: seq<Env>)
    requires m.state == S.SendLS && es != []
    ensures PmsOpens(c, m, es) <==> es[0].sent && TheirTable(es[1..])
    ensures PmsAgreeing(c, m, es) <==> es[0].sent && PmsAgreeing(c, S.Step(c, m, es[0]).0, es[1..])
    ensures es[0].sent ==> S.Step(c, m, es[0]).0.state == S.WaitForLDLRLA
    ensures PmsOpens(c, m, es) ==> PmsSaid(c, m, es) == [LinkRecord(c.wire, "LS", es[0]), LinkRecord(c.wire, "LA", es[|es| - 1])]
  {
    PmsTurn(c, m, es);
    if es[0].sent { TakingTable(c, S.Step(c, m, es[0]).0, es[1..]); }
  }

  /** Main result, the PMS side: a connection becomes an open link exactly when LS goes out, records LD and LR come in, of
      any number, and then LA, which is acknowledged; this is all it says. Anything else ends the connection. */
  lemma PmsHandshake(c: Setup, m: S.Machine, e: Env, es: seq<Env>)
    requires m.state == S.Start && e.connected
    ensures var m1 := S.Step(c, m, e).0;
      && (PmsOpens(c, m1, es) <==> es != [] && es[0].sent && TheirTable(es[1..]))
      && (PmsAgreeing(c, m1, es) <==> es == [] || (es[0].sent && SomeTable(es[1..])))
      && (PmsOpens(c, m1, es) ==> PmsSaid(c, m1, es) == [LinkRecord(c.wire, "LS", es[0]), LinkRecord(c.wire, "LA", es[|es| - 1])])
  {
    var m1 := S.Step(c, m, e).0;
    if es == [] {
      PmsTurn(c, m1, es);
    } else {
      PmsStarting(c, m1, es);
      if es[0].sent { TakingTable(c, S.Step(c, m1, es[0]).0, es[1..]); }
    }
  }

  /** On the PMS side's open link: as on the other, but there is no swap lock, LA makes it look at its tables, and a table
      that is empty cannot be announced. */
  lemma PmsTakes(c: Setup, m: S.Machine, e: Env, next: Env)
    requires m.state == S.WaitForData && e.result == RecordRead
    ensures var op, m1 := Op(e.incoming), S.Step(c, m, e).0;
      var (m2, out) := S.Step(c, m1, next);
      && S.Step(c, m, e).1 == [] && m1.queue == m.queue && m1.stored == m.stored
      && (op == "LA" ==> m1.state == S.ReadDB) && (op == "LE" ==> m1.state == S.AtDisconnected)
      && (op == "LS" ==> m2.stored == m.stored && m2.queue == m.queue
                         && if next.sent && c.table != [] then out == Announce(c, next) && m2.state == S.WaitForLA
                            else m2.state == S.AtDisconnected)
      && (op != "LS" && op != "LE" && op != "LA" ==>
            var message := Parse(c.wire, e.incoming);
            && out == [] && m2.queue == m.queue
            && (Acceptable(message) && next.dbOk ==> m2.stored == m.stored + [message] && m2.state == S.ReadDB)
            && (!Acceptable(message) || !next.dbOk ==> m2.stored == m.stored && m2.state == S.AtDisconnected))
  {
  }

  lemma PmsSends(c: Setup, m: S.Machine, e: Env, next: Env, k: nat)
    requires m.state == S.ReadDB
    ensures var (m1, out1) := S.Step(c, m, e);
      var (m2, out2) := S.Step(c, m1, next);
      && (!e.dbOk ==> m1 == m.(state := S.AtDisconnected) && out1 == [])
      && (e.dbOk && (forall i :: 0 <= i < |m.queue| ==> m.queue[i].done) ==> m1 == m.(state := S.WaitForData) && out1 == [])
      && (e.dbOk && FirstWaits(m.queue, k) && !("LE" <= RecordOf(c.wire, m.queue[k].message)) ==>
            && out1 == [] && m1.state == S.SendData
            && out2 == (if next.sent then [RecordOf(c.wire, m.queue[k].message)] else [])
            && m2.state == (if next.sent && next.update != Died then S.WaitForData else S.AtDisconnected)
            && m2.queue == (if next.sent && next.update == Updated then MarkDone(m.queue, m.queue[k].id) else m.queue)
            && m2.stored == m.stored)
      && (e.dbOk && FirstWaits(m.queue, k) && "LE" <= RecordOf(c.wire, m.queue[k].message) ==>
            && out1 == (if e.sent then [LinkRecord(c.wire, "LE", e)] else []) && m1.state == S.AtDisconnected
            && m1.queue == (if e.update == Updated then MarkDone(m.queue, m.queue[k].id) else m.queue)
            && m1.stored == m.stored)
  {
    FirstWaitsIs(m.queue, k);
  }

  lemma PmsLooks(c: Setup, m: S.Machine, e: Env)
    ensures m.state == S.WaitForData && e.result != RecordRead ==>
              S.Step(c, m, e) == (m.(state := if e.result == TimedOut then S.ReadDB else S.AtDisconnected), [])
    ensures m.state == S.WaitForLA ==>
              S.Step(c, m, e).0.state == (if Gets(e, "LA") then S.WaitForData else S.AtDisconnected) && S.Step(c, m, e).1 == []
    ensures m.state == S.Start && !e.connected ==> S.Step(c, m, e).0.state == S.AtDisconnected
    ensures m.state == S.AtDisconnected ==> S.Step(c, m, e) == (m, [])
  {
  }

  /** Three of its states no connection gets to. */
  lemma DeadStates(c: Setup, m: S.Machine, e: Env)
    requires m.state !in {S.WaitForLSLA, S.SendSincro, S.WaitForSincro}
    ensures S.Step(c, m, e).0.state !in {S.WaitForLSLA, S.SendSincro, S.WaitForSincro}
  {
  }
}
