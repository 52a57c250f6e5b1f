/** What a link check needs of the server's table, and of the messages waiting for the PBX. */
module FiasLinkCheck {
  import opened Text
  import opened FiasWire
  import opened FiasLinkRecords
  import opened FiasLink
  import F = Fiasd
  import S = FiasServer

  /** Some allowed run ends with a machine down. */
  ghost predicate MayBreak(c: Setups, l: Link) {
    exists run :: AllowedRun(c, l, run) && Down(After(c, l, run))
  }

  ghost predicate OneTurn(c: Setups, l: Link, l': Link) {
    exists side, e :: Allowed(c, l, Turn(side, e)) && l' == Next(c, l, Turn(side, e))
  }

  lemma {:induction false} Made(c: Setups, l: Link, side: Side, e: Env, l': Link)
    requires Allowed(c, l, Turn(side, e)) && l' == Next(c, l, Turn(side, e))
    ensures OneTurn(c, l, l')
  {
  }

  lemma {:induction false} Then(c: Setups, l: Link, l': Link)
    requires OneTurn(c, l, l') && MayBreak(c, l')
    ensures MayBreak(c, l)
  {
    var side, e :| Allowed(c, l, Turn(side, e)) && l' == Next(c, l, Turn(side, e));
    var run :| AllowedRun(c, l', run) && Down(After(c, l', run));
    assert ([Turn(side, e)] + run)[1..] == run;
    assert AllowedRun(c, l, [Turn(side, e)] + run) && Down(After(c, l, [Turn(side, e)] + run));
  }

  lemma IsDown(c: Setups, l: Link)
    requires Down(l)
    ensures MayBreak(c, l)
  {
    assert AllowedRun(c, l, []) && After(c, l, []) == l;
  }

  /** The link is quiet, nothing waits on either side, and a check may start. */
  predicate AtRest(l: Link) { Quiet(l) && PbxAtRest(l.f) && Unsent(l.s.queue) == [] && l.checks > 0 }

  predicate PbxAtRest(m: F.Machine) { !m.lock && Unsent(m.queue) == [] }

  /** fiasd in its data states reads a table record. */
  lemma {:induction false} TableRecordRead(c: Setups, l: Link) returns (l': Link)
    requires l.f.state == F.WaitForData && l.toPbx != [] && Op(l.toPbx[0]) in {"LD", "LR"}
    ensures OneTurn(c, l, l')
    ensures l' == l.(f := l.f.(state := F.WriteDB, record := l.toPbx[0],
                               lastCommunication := l.f.lastCommunication + c.pbx.interval), toPbx := l.toPbx[1..])
  {
    Text.Unit(l.toPms);
    l' := Next(c, l, Turn(Pbx, Kind(c, l, l.toPbx)));
    Made(c, l, Pbx, Kind(c, l, l.toPbx), l');
  }

  /** It cannot store the record. */
  lemma {:induction false} BadRecord(c: Setups, l: Link)
    requires l.f.state == F.WriteDB && !Acceptable(Parse(c.pbx.wire, l.f.record))
    ensures MayBreak(c, l)
  {
    var e := Kind(c, l, []);
    var l' := Next(c, l, Turn(Pbx, e));
    Made(c, l, Pbx, e, l');
    IsDown(c, l');
    Then(c, l, l');
  }

  /** It stores the record. */
  lemma {:induction false} GoodRecord(c: Setups, l: Link) returns (l': Link)
    requires l.f.state == F.WriteDB && Acceptable(Parse(c.pbx.wire, l.f.record))
    ensures OneTurn(c, l, l') && l'.toPbx == l.toPbx
    ensures l'.f == l.f.(state := F.ReadDB, stored := l.f.stored + [Parse(c.pbx.wire, l.f.record)])
  {
    Text.Unit(l.toPms);
    l' := l.(f := l.f.(state := F.ReadDB, stored := l.f.stored + [Parse(c.pbx.wire, l.f.record)]));
    Made(c, l, Pbx, Kind(c, l, []), l');
  }

  /** It finds nothing to send. */
  lemma {:induction false} NothingToSend(c: Setups, l: Link) returns (l': Link)
    requires l.f.state == F.ReadDB && PbxAtRest(l.f)
    ensures OneTurn(c, l, l') && l' == l.(f := l.f.(state := F.WaitForData))
  {
    StepAtRest(c.pbx, l.f, Kind(c, l, []));
    PbxMade(c, l, Kind(c, l, []), l.f.(state := F.WaitForData));
    l' := l.(f := l.f.(state := F.WaitForData));
  }

  lemma {:induction false} TakesGood(c: Setups, l: Link) returns (l': Link)
    requires l.f.state == F.WaitForData && l.toPbx != [] && Op(l.toPbx[0]) in {"LD", "LR"} && PbxAtRest(l.f)
    requires Acceptable(Parse(c.pbx.wire, l.toPbx[0]))
    ensures l'.f.state == F.WaitForData && PbxAtRest(l'.f) && l'.toPbx == l.toPbx[1..]
    ensures MayBreak(c, l') ==> MayBreak(c, l)
  {
    var l1 := TableRecordRead(c, l);
    var l2 := GoodRecord(c, l1);
    l' := NothingToSend(c, l2);
    if MayBreak(c, l') {
      Then(c, l2, l');
      Then(c, l1, l2);
      Then(c, l, l1);
    }
  }

  lemma NextTableRecord(c: Setup, i: nat, e: Env)
    requires TableRecords(c) && PlainSeparator(c.wire) && Dated(e) && i < |c.table|
    ensures var ch := Announce(c, e)[i..];
      && ch != [] && Op(ch[0]) == Op(c.table[i]) && Op(ch[0]) in {"LD", "LR"} && ch[1..] == Announce(c, e)[i + 1..]
      && (Acceptable(Parse(c.wire, ch[0])) <==> Acceptable(Parse(c.wire, c.table[i])))
  {
    TableRecordOp(c.table[i], e);
    TableRecordOk(c.wire, c.table[i], e);
    assert Op(c.table[i]) in {"LD", "LR"};
    assert Announce(c, e)[i..][0] == TableRecord(c.table[i], e);
  }

  /** fiasd reads and stores one good record after the other, up to the first it cannot store. */
  lemma {:induction false} BadTableBreaks(c: Setups, l: Link, i: nat, bad: nat, e: Env)
    requires ValidSetups(c) && Dated(e) && l.f.state == F.WaitForData && PbxAtRest(l.f)
    requires i <= bad < |c.pms.table| && l.toPbx == Announce(c.pms, e)[i..]
    requires !Acceptable(Parse(c.pms.wire, c.pms.table[bad]))
    ensures MayBreak(c, l)
    decreases |c.pms.table| - i
  {
    NextTableRecord(c.pms, i, e);
    if Acceptable(Parse(c.pms.wire, c.pms.table[i])) {
      var l' := TakesGood(c, l);
      BadTableBreaks(c, l', i + 1, bad, e);
    } else {
      var l' := TableRecordRead(c, l);
      BadRecord(c, l');
      Then(c, l, l');
    }
  }

  /** fiasd takes an LD as the answer. */
  lemma {:induction false} TakesLD(c: Setups, l: Link) returns (l': Link)
    requires l.f.state == F.WaitForLSLA && l.toPbx != [] && Op(l.toPbx[0]) == "LD"
    ensures OneTurn(c, l, l') && l'.toPbx == l.toPbx[1..] && l'.s == l.s
    ensures l'.f == l.f.(state := F.SendLA, record := l.toPbx[0], lastCommunication := l'.f.lastCommunication)
  {
    Text.Unit(l.toPms);
    var e := Kind(c, l, l.toPbx);
    l' := l.(f := l.f.(state := F.SendLA, record := l.toPbx[0], lastCommunication := e.now), toPbx := l.toPbx[1..]);
    Made(c, l, Pbx, e, l');
  }

  lemma {:induction false} Confirms(c: Setups, l: Link) returns (l': Link)
    requires l.f.state == F.SendLA
    ensures OneTurn(c, l, l') && l'.toPbx == l.toPbx
    ensures l'.f == l.f.(state := F.WaitForData, lastCommunication := l'.f.lastCommunication)
  {
    var e := Kind(c, l, []);
    l' := l.(f := l.f.(state := F.WaitForData, lastCommunication := e.now),
             toPms := l.toPms + [LinkRecord(c.pbx.wire, "LA", e)]);
    Made(c, l, Pbx, e, l');
  }

  /** It does not take an LR. */
  lemma {:induction false} RefusesLR(c: Setups, l: Link)
    requires l.f.state == F.WaitForLSLA && l.toPbx != [] && Op(l.toPbx[0]) !in {"LS", "LA", "LD"}
    ensures MayBreak(c, l)
  {
    var e := Kind(c, l, l.toPbx);
    var l' := Next(c, l, Turn(Pbx, e));
    Made(c, l, Pbx, e, l');
    IsDown(c, l');
    Then(c, l, l');
  }

  /** The first record of the answer to a check: with an LD fiasd goes on to the bad one, else it does not. */
  lemma {:induction false} FirstRecordBreaks(c: Setups, l: Link, e: Env)
    requires ValidSetups(c) && !ValidTable(c.pms) && c.pms.table != [] && Dated(e)
    requires l.f.state == F.WaitForLSLA && PbxAtRest(l.f) && l.toPbx == Announce(c.pms, e)
    ensures MayBreak(c, l)
  {
    NextTableRecord(c.pms, 0, e);
    assert l.toPbx[0..] == l.toPbx;
    if Op(l.toPbx[0]) == "LR" {
      RefusesLR(c, l);
    } else {
      var l1 := TakesLD(c, l);
      var l2 := Confirms(c, l1);
      var bad :| 1 <= bad < |c.pms.table| && !Acceptable(Parse(c.pms.wire, c.pms.table[bad]));
      BadTableBreaks(c, l2, 1, bad, e);
      Then(c, l1, l2);
      Then(c, l, l1);
    }
  }

  /** From the LS the server has taken: without a valid table the check goes wrong on one side or the other. */
  lemma {:induction false} AnswerBreaks(c: Setups, l: Link)
    requires ValidSetups(c) && !ValidTable(c.pms)
    requires l.f.state == F.WaitForLSLA && PbxAtRest(l.f) && l.s.state == S.SendLDLRLA && l.toPbx == []
    ensures MayBreak(c, l)
  {
    if c.pms.table == [] {
      EmptyTableBreaks(c, l);
    } else {
      var l' := TableAnswers(c, l);
      FirstRecordBreaks(c, l', Kind(c, l, []));
      Then(c, l, l');
    }
  }

  lemma {:induction false} EmptyTableBreaks(c: Setups, l: Link)
    requires l.s.state == S.SendLDLRLA && c.pms.table == []
    ensures MayBreak(c, l)
  {
    var l' := PmsNext(c, l, Kind(c, l, []));
    Made(c, l, Pms, Kind(c, l, []), l');
    IsDown(c, l');
    Then(c, l, l');
  }

  lemma {:induction false} TableAnswers(c: Setups, l: Link) returns (l': Link)
    requires l.s.state == S.SendLDLRLA && c.pms.table != [] && l.toPbx == []
    ensures OneTurn(c, l, l') && l'.f == l.f && l'.toPbx == Announce(c.pms, Kind(c, l, []))
  {
    PmsTableSent(c, l, Kind(c, l, []));
    l' := PmsNext(c, l, Kind(c, l, []));
    Made(c, l, Pms, Kind(c, l, []), l');
  }

  lemma {:induction false} PbxPolls(c: Setups, l: Link) returns (l': Link)
    requires l.f.state == F.WaitForData
    ensures OneTurn(c, l, l') && l' == l.(f := l.f.(state := F.ReadDB))
  {
    Text.Unit(l.toPms);
    l' := l.(f := l.f.(state := F.ReadDB));
    Made(c, l, Pbx, Kind(c, l, []).(result := TimedOut), l');
  }

  /** stReadDB of fiasd with nothing to send. */
  lemma {:induction false} StepAtRest(c: Setup, m: F.Machine, e: Env)
    requires m.state == F.ReadDB && PbxAtRest(m) && e.dbOk
    ensures F.Step(c, m, e)
            == (m.(state := if m.lastCommunication + c.interval < e.now then F.SendLS else F.WaitForData), [])
  {
    FirstUnsent(m.queue);
  }

  /** A turn of fiasd that reads and sends nothing. */
  lemma {:induction false} PbxMade(c: Setups, l: Link, e: Env, f: F.Machine)
    requires e.connected && e.sent && e.dbOk && e.update == Updated && Dated(e)
    requires !ReadsPbx(l.f.state) && F.Step(c.pbx, l.f, e) == (f, [])
    requires StartsCheck(c, l, e) ==> l.toPbx == [] && Unsent(l.s.queue) == [] && l.checks > 0
    ensures OneTurn(c, l, l.(f := f, checks := if l.f.state == F.ReadDB && f.state == F.SendLS && l.checks > 0
                                               then l.checks - 1 else l.checks))
  {
    Text.Unit(l.toPms);
    Made(c, l, Pbx, e, PbxNext(c, l, e));
  }

  lemma {:induction false} CheckStarts(c: Setups, l: Link) returns (l': Link)
    requires l.f.state == F.ReadDB && PbxAtRest(l.f) && l.toPbx == [] && Unsent(l.s.queue) == [] && l.checks > 0
    ensures OneTurn(c, l, l') && l' == l.(f := l.f.(state := F.SendLS), checks := l.checks - 1)
  {
    var late := l.f.lastCommunication + c.pbx.interval + 1;
    var e := Kind(c, l, []).(now := late);
    StepAtRest(c.pbx, l.f, e);
    PbxMade(c, l, e, l.f.(state := F.SendLS));
    l' := l.(f := l.f.(state := F.SendLS), checks := l.checks - 1);
  }

  /** The LS of a check goes out. */
  lemma {:induction false} SendsLS(c: Setups, l: Link) returns (l': Link)
    requires l.f.state == F.SendLS && l.toPms == []
    ensures OneTurn(c, l, l') && |l'.toPms| == 1 && Op(l'.toPms[0]) == "LS"
    ensures l' == l.(f := l'.f, toPms := l'.toPms)
    ensures l'.f == l.f.(state := F.WaitForLSLA, lastCommunication := l'.f.lastCommunication)
  {
    var e := Kind(c, l, []);
    var r := LinkRecord(c.pbx.wire, "LS", e);
    LinkRecordOp(c.pbx.wire, "LS", e);
    Text.Unit([r]);
    l' := l.(f := l.f.(state := F.WaitForLSLA, lastCommunication := e.now), toPms := [r]);
    Made(c, l, Pbx, e, l');
  }

  lemma {:induction false} TakesLS(c: Setups, l: Link) returns (l': Link)
    requires l.s.state == S.WaitForData && |l.toPms| == 1 && Op(l.toPms[0]) == "LS"
    ensures OneTurn(c, l, l') && l'.f == l.f && l'.s.state == S.SendLDLRLA && l'.toPbx == l.toPbx
  {
    Text.Unit(l.toPbx);
    l' := l.(s := l.s.(state := S.SendLDLRLA, record := l.toPms[0]), toPms := []);
    Made(c, l, Pms, Kind(c, l, l.toPms), l');
  }

  lemma ValidTableHolds(c: Setups, l: Link, run: seq<Event>)
    requires ValidSetups(c) && AtRest(l) && Steady(c, l) && AllowedRun(c, l, run)
    ensures !Down(After(c, l, run))
  {
    assert In(c, l, Idle);
    RunKeepsInv(c, l, run);
    InvIsUp(c, After(c, l, run));
  }

  lemma {:induction false} InvalidTableBreaks(c: Setups, l: Link)
    requires ValidSetups(c) && AtRest(l) && !ValidTable(c.pms)
    ensures MayBreak(c, l)
  {
    var l1 := PbxPolls(c, l);
    var l2 := CheckStarts(c, l1);
    var l3 := SendsLS(c, l2);
    var l4 := TakesLS(c, l3);
    AnswerBreaks(c, l4);
    Then(c, l3, l4);
    Then(c, l2, l3);
    Then(c, l1, l2);
    Then(c, l, l1);
  }

  /** Main result: from a link at rest, no run that may start a check ends with a machine down, if and only if the
      server's table starts with an LD and every later record is one that fiasd can store. */
  lemma CheckNeedsLD(c: Setups, l: Link)
    requires ValidSetups(c) && AtRest(l) && Steady(c, l.(checks := 0))
    ensures !MayBreak(c, l) <==> ValidTable(c.pms)
  {
    if ValidTable(c.pms) {
      if MayBreak(c, l) {
        var run :| AllowedRun(c, l, run) && Down(After(c, l, run));
        ValidTableHolds(c, l, run);
      }
    } else {
      InvalidTableBreaks(c, l);
    }
  }

  ghost predicate Reaches(c: Setups, l: Link, l': Link) { exists run :: AllowedRun(c, l, run) && After(c, l, run) == l' }

  lemma ReachesMore(c: Setups, l: Link, l1: Link, l': Link)
    requires OneTurn(c, l, l1) && (l1 == l' || Reaches(c, l1, l'))
    ensures Reaches(c, l, l')
  {
    var side, e :| Allowed(c, l, Turn(side, e)) && l1 == Next(c, l, Turn(side, e));
    if l1 == l' {
      assert AllowedRun(c, l1, []) && After(c, l1, []) == l';
    }
    var run :| AllowedRun(c, l1, run) && After(c, l1, run) == l';
    assert ([Turn(side, e)] + run)[1..] == run;
    assert AllowedRun(c, l, [Turn(side, e)] + run) && After(c, l, [Turn(side, e)] + run) == l';
  }

  /** The first message waiting for the PBX is off the server's hands, and neither stored by fiasd nor in flight. */
  predicate LostFirst(l: Link, l': Link)
    requires Unsent(l.s.queue) != []
  {
    && Unsent(l'.s.queue) == Unsent(l.s.queue)[1..] && l'.toPbx == []
    && l'.f.stored == l.f.stored && l'.f.state == F.SendLA
  }

  /** Why nothing may be queued for the PBX in the meantime: with a message there, a check can end the link, or, when
      the message is an LD, take it for its answer and lose it. */
  lemma {:induction false} DataMayEndACheck(c: Setups, l: Link)
    requires ValidSetups(c) && Steady(c, l)
    requires l.f.state == F.WaitForLSLA && l.s.state == S.WaitForData && l.toPbx == [] && Unsent(l.s.queue) != []
    ensures Unsent(l.s.queue)[0].cmd != "LD" ==> MayBreak(c, l)
    ensures Unsent(l.s.queue)[0].cmd == "LD" ==> exists l' :: Reaches(c, l, l') && LostFirst(l, l')
  {
    var l1 := PmsPolls(c, l);
    var l2 := PmsPicks(c, l1);
    var l3 := PmsSendsIt(c, l2);
    assert Data(c.pbx.wire, Unsent(l.s.queue)[0]);
    if Unsent(l.s.queue)[0].cmd != "LD" { DataIsRefused(c, l, l1, l2, l3);
    } else {
      var l4 := TakesLD(c, l3);
      FourTurns(c, l, l1, l2, l3, l4);
      LDIsLost(l, l3, l4);
    }
  }

  lemma {:induction false} DataIsRefused(c: Setups, l: Link, l1: Link, l2: Link, l3: Link)
    requires OneTurn(c, l, l1) && OneTurn(c, l1, l2) && OneTurn(c, l2, l3)
    requires l3.f.state == F.WaitForLSLA && l3.toPbx != [] && Op(l3.toPbx[0]) !in {"LS", "LA", "LD"}
    ensures MayBreak(c, l)
  {
    RefusesLR(c, l3);
    Then(c, l2, l3);
    Then(c, l1, l2);
    Then(c, l, l1);
  }

  lemma LDIsLost(l: Link, l3: Link, l4: Link)
    requires Unsent(l.s.queue) != [] && Unsent(l3.s.queue) == Unsent(l.s.queue)[1..] && |l3.toPbx| == 1
    requires l3.f == l.f && l4.s == l3.s && l4.toPbx == l3.toPbx[1..]
    requires l4.f == l3.f.(state := F.SendLA, record := l3.toPbx[0], lastCommunication := l4.f.lastCommunication)
    ensures LostFirst(l, l4)
  {
  }

  lemma {:induction false} FourTurns(c: Setups, l: Link, l1: Link, l2: Link, l3: Link, l4: Link)
    requires OneTurn(c, l, l1) && OneTurn(c, l1, l2) && OneTurn(c, l2, l3) && OneTurn(c, l3, l4)
    ensures Reaches(c, l, l4)
  {
    ReachesMore(c, l3, l4, l4);
    ReachesMore(c, l2, l3, l4);
    ReachesMore(c, l1, l2, l4);
    ReachesMore(c, l, l1, l4);
  }

  lemma {:induction false} PmsPolls(c: Setups, l: Link) returns (l': Link)
    requires l.s.state == S.WaitForData
    ensures OneTurn(c, l, l') && l' == l.(s := l.s.(state := S.ReadDB))
  {
    Text.Unit(l.toPbx);
    l' := l.(s := l.s.(state := S.ReadDB));
    Made(c, l, Pms, Kind(c, l, []).(result := TimedOut), l');
  }

  /** stReadDB of the server takes up the first message to send. */
  lemma {:induction false} StepPicks(c: Setup, m: S.Machine, e: Env)
    requires ValidConfig(c.wire) && DataQueue(c.wire, m.queue) && Unsent(m.queue) != [] && m.state == S.ReadDB && e.dbOk
    ensures var r := RecordOf(c.wire, Unsent(m.queue)[0]);
      && FirstUndone(m.queue) < |m.queue|
      && S.Step(c, m, e) == (m.(state := S.SendData, record := r, recordId := m.queue[FirstUndone(m.queue)].id), [])
      && Op(r) == Unsent(m.queue)[0].cmd
  {
    FirstUnsent(m.queue);
    SentRecord(c.wire, Unsent(m.queue)[0]);
    ParseRecord(c.wire, Unsent(m.queue)[0]);
  }

  lemma {:induction false} PmsPicks(c: Setups, l: Link) returns (l': Link)
    requires ValidSetups(c) && Steady(c, l) && l.s.state == S.ReadDB && Unsent(l.s.queue) != []
    ensures OneTurn(c, l, l') && l'.f == l.f && l'.s.state == S.SendData && l'.toPbx == l.toPbx
    ensures l'.s.queue == l.s.queue && Op(l'.s.record) == Unsent(l.s.queue)[0].cmd
    ensures FirstUndone(l.s.queue) < |l.s.queue| && l'.s.recordId == l.s.queue[FirstUndone(l.s.queue)].id
  {
    var e := Kind(c, l, []);
    StepPicks(c.pms, l.s, e);
    Text.Unit(l.toPbx);
    l' := PmsNext(c, l, e);
    Made(c, l, Pms, e, l');
  }

  lemma {:induction false} PmsSendsIt(c: Setups, l: Link) returns (l': Link)
    requires l.s.state == S.SendData && l.toPbx == [] && DataQueue(c.pbx.wire, l.s.queue)
    requires FirstUndone(l.s.queue) < |l.s.queue| && l.s.recordId == l.s.queue[FirstUndone(l.s.queue)].id
    ensures OneTurn(c, l, l') && l'.f == l.f && l'.toPbx == [l.s.record]
    ensures Unsent(l.s.queue) != [] && Unsent(l'.s.queue) == Unsent(l.s.queue)[1..]
  {
    MarkedFirst(l.s.queue);
    l' := l.(s := l.s.(state := S.WaitForData, queue := MarkDone(l.s.queue, l.s.recordId)), toPbx := [l.s.record]);
    Text.Unit([l.s.record]);
    Made(c, l, Pms, Kind(c, l, []), l');
  }
}
