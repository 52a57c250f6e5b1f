/** fiasd.php: the PBX side of the link, one turn of its loop at a time. */
module Fiasd {
  import opened FiasWire
  import opened FiasLinkRecords

  datatype State =
    | Start | WaitForSincro | WaitForData | WaitForLA | WaitForLSLA | AtDisconnected
    | SendData | SendLA | SendLDLRLA | SendLS | ReadDB | WriteDB | Exited

  /** The daemon's variables, the messages it sends (to the PMS) and those it stored (for the PBX). */
  datatype Machine = Machine(
    state: State, lock: bool, record: string, recordId: nat, lastCommunication: int,
    queue: seq<Entry>, stored: seq<Message>)

  /** One turn: the next machine and the records that went out whole. */
  function Step(c: Setup, m: Machine, e: Env): (Machine, seq<string>) {
    match m.state
    case Start =>
      var m := m.(queue := DropPendingLE(m.queue));
      (if e.connected then m.(state := WaitForSincro, lock := false, lastCommunication := e.now)
       else m.(state := AtDisconnected), [])
    case WaitForData =>
      (match e.result
       case RecordRead =>
         var m := m.(record := e.incoming, lastCommunication := e.now);
         var op := Op(e.incoming);
         if op == "LS" then m.(state := SendLDLRLA)
         else if op == "LE" then m.(state := AtDisconnected)
         else if op == "LA" then m
         else if op == "DS" then m.(lock := true)
         else if op == "DE" then m.(lock := false)
         else m.(state := WriteDB)
       case TimedOut => m.(state := ReadDB)
       case _ => m.(state := AtDisconnected), [])
    case WaitForLA =>
      (if e.result == RecordRead then
         m.(record := e.incoming, lastCommunication := e.now,
            state := if Op(e.incoming) == "LA" then WaitForData else AtDisconnected)
       else m.(state := AtDisconnected), [])
    case WaitForLSLA =>
      (if e.result == RecordRead then
         m.(record := e.incoming, lastCommunication := e.now,
            state := if Op(e.incoming) == "LS" then SendLDLRLA
                     else if Op(e.incoming) == "LA" then WaitForData
                     else if Op(e.incoming) == "LD" then SendLA
                     else AtDisconnected)
       else m.(state := AtDisconnected), [])
    case WaitForSincro =>
      (match e.result
       case RecordRead =>
         m.(record := e.incoming, lastCommunication := e.now,
            state := if Op(e.incoming) == "LS" then SendLDLRLA else AtDisconnected)
       case TimedOut => m.(state := SendLS)
       case _ => m.(state := AtDisconnected), [])
    case AtDisconnected => (m.(state := Start), [])
    case SendData =>
      if !e.sent then (m.(state := AtDisconnected), [])
      else
        var m := m.(lastCommunication := e.now);
        (match e.update
         case Updated => m.(state := WaitForData, queue := MarkDone(m.queue, m.recordId))
         case UpdateRefused => m.(state := WaitForData)
         case Died => m.(state := Start), [m.record])
    case SendLA =>
      if !e.sent then (m.(state := AtDisconnected), [])
      else (m.(state := WaitForData, lastCommunication := e.now), [LinkRecord(c.wire, "LA", e)])
    case SendLDLRLA =>
      var all := Announce(c, e);
      if !e.sent then (m.(state := AtDisconnected), all[..if e.out < |all| then e.out else |all| - 1])
      else (m.(state := WaitForLA, lastCommunication := e.now), all)
    case SendLS =>
      if !e.sent then (m.(state := AtDisconnected), [])
      else (m.(state := WaitForLSLA, lastCommunication := e.now), [LinkRecord(c.wire, "LS", e)])
    case ReadDB =>
      if m.lock then (m.(state := WaitForData), [])
      else if !e.dbOk then (m.(state := AtDisconnected), [])
      else
        var k := FirstUndone(m.queue);
        if k == |m.queue| then
          (m.(state := if m.lastCommunication + c.interval < e.now then SendLS else WaitForData), [])
        else
          var m := m.(record := RecordOf(c.wire, m.queue[k].message), recordId := m.queue[k].id);
          if "LE" <= m.record then
            // Marked whatever became of the send.
            (m.(state := if e.update == Died then AtDisconnected else Exited,
                queue := if e.update == Updated then MarkDone(m.queue, m.recordId) else m.queue),
             if e.sent then [LinkRecord(c.wire, "LE", e)] else [])
          else (m.(state := SendData), [])
    case WriteDB =>
      var received := Parse(c.wire, m.record);
      if e.dbOk && Acceptable(received) then (m.(state := ReadDB, stored := m.stored + [received]), [])
      else (m.(state := AtDisconnected), [])
    case Exited => (m, [])
  }

  /** The daemon: its state, its lock, its records and its tables, changed in place. */
  class Daemon {
    const c: Setup
    var state: State
    var lock: bool
    var record: string
    var recordId: nat
    var lastCommunication: int
    var queue: seq<Entry>
    var stored: seq<Message>

    constructor (c: Setup, queue: seq<Entry>)
      ensures this.c == c && state == Start && this.queue == queue && stored == []
    {
      this.c, state, lock, record, recordId := c, Start, false, "", 0;
      lastCommunication, this.queue, stored := 0, queue, [];
    }

    function Now(): Machine
      reads this
    {
      Machine(state, lock, record, recordId, lastCommunication, queue, stored)
    }

    /** sendLDLRLA: the table's records one by one, then LA; stops at the send that fails. */
    method SendTable(e: Env) returns (ok: bool, out: seq<string>)
      ensures ok == e.sent
      ensures out == if e.sent then Announce(c, e)
                     else Announce(c, e)[..if e.out < |c.table| + 1 then e.out else |c.table|]
    {
      out := [];
      ghost var all := Announce(c, e);
      ghost var last := if e.out < |c.table| + 1 then e.out else |c.table|;
      for i := 0 to |c.table|
        invariant out == all[..i] && (e.sent || i <= last)
      {
        var val := c.table[i];
        if Op(val) == "LD" {
          val := Mark(val, 'D', 'A', e.date);
          val := Mark(val, 'T', 'I', e.time);
        }
        if !e.sent && i == e.out { return false, out; }
        out := out + [val];
      }
      if !e.sent { return false, out; }
      out := out + [LinkRecord(c.wire, "LA", e)];
      ok := true;
    }

    /** The states that read a record. */
    method TurnReading(e: Env)
      requires state in {WaitForData, WaitForLA, WaitForLSLA, WaitForSincro}
      modifies this`state, this`lock, this`record, this`lastCommunication
      ensures (Now(), []) == Step(c, old(Now()), e)
    {
      if e.result != RecordRead {
        if state == WaitForData && e.result == TimedOut { state := ReadDB;
        } else if state == WaitForSincro && e.result == TimedOut { state := SendLS;
        } else { state := AtDisconnected; }
        return;
      }
      record, lastCommunication := e.incoming, e.now;
      var op := Op(record);
      match state
      case WaitForData =>
        if op == "LS" { state := SendLDLRLA;
        } else if op == "LE" { state := AtDisconnected;
        } else if op == "LA" { state := WaitForData;
        } else if op == "DS" { lock := true; state := WaitForData;
        } else if op == "DE" { lock := false; state := WaitForData;
        } else { state := WriteDB; }
      case WaitForLA =>
        state := if op == "LA" then WaitForData else AtDisconnected;
      case WaitForLSLA =>
        if op == "LS" { state := SendLDLRLA;
        } else if op == "LA" { state := WaitForData;
        } else if op == "LD" { state := SendLA;
        } else { state := AtDisconnected; }
      case WaitForSincro =>
        state := if op == "LS" then SendLDLRLA else AtDisconnected;
    }

    /** stReadDB */
    method TurnReadDB(e: Env) returns (out: seq<string>)
      requires state == ReadDB
      modifies this`state, this`record, this`recordId, this`queue
      ensures (Now(), out) == Step(c, old(Now()), e)
    {
      out := [];
      if lock { state := WaitForData; return; }
      if !e.dbOk { state := AtDisconnected; return; }
      var k := FirstUndone(queue);
      if k == |queue| {
        state := if lastCommunication + c.interval < e.now then SendLS else WaitForData;
        return;
      }
      record, recordId := RecordOf(c.wire, queue[k].message), queue[k].id;
      if !("LE" <= record) { state := SendData; return; }
      if e.sent { out := [LinkRecord(c.wire, "LE", e)]; }
      if e.update == Died { state := AtDisconnected; return; }
      if e.update == Updated { queue := MarkDone(queue, recordId); }
      state := Exited;
    }

    /** One turn of the endless loop: the switch on the state. */
    method Turn(e: Env) returns (out: seq<string>)
      modifies this
      ensures (Now(), out) == Step(c, old(Now()), e)
    {
      out := [];
      match state
      case Start =>
        queue := DropPendingLE(queue);
        if !e.connected {
          state := AtDisconnected;
        } else {
          lastCommunication, state, lock := e.now, WaitForSincro, false;
        }
      case AtDisconnected => state := Start;
      case SendData =>
        if !e.sent { state := AtDisconnected; return; }
        out := [record];
        lastCommunication := e.now;
        if e.update == Died { state := Start; return; }
        if e.update == Updated { queue := MarkDone(queue, recordId); }
        state := WaitForData;
      case SendLA =>
        if !e.sent { state := AtDisconnected; return; }
        out := [LinkRecord(c.wire, "LA", e)];
        lastCommunication, state := e.now, WaitForData;
      case SendLDLRLA =>
        var ok;
        ok, out := SendTable(e);
        if !ok { state := AtDisconnected; return; }
        lastCommunication, state := e.now, WaitForLA;
      case SendLS =>
        if !e.sent { state := AtDisconnected; return; }
        out := [LinkRecord(c.wire, "LS", e)];
        lastCommunication, state := e.now, WaitForLSLA;
      case ReadDB => out := TurnReadDB(e);
      case WriteDB =>
        var received := Parse(c.wire, record);
        if e.dbOk && Acceptable(received) {
          stored, state := stored + [received], ReadDB;
        } else {
          state := AtDisconnected;
        }
      case Exited =>
      case _ => TurnReading(e);
    }
  }
}
