/** fias-server.php: the PMS side of the link, one turn of the loop it runs for a connection. */
module FiasServer {
  import opened FiasWire
  import opened FiasLinkRecords

  datatype State =
    | Start | WaitForData | WaitForLA | WaitForLDLRLA | WaitForLSLA | SendSincro | WaitForSincro
    | SendData | SendLA | SendLDLRLA | SendLS | ReadDB | WriteDB | AtDisconnected

  datatype Machine = Machine(state: State, record: string, recordId: nat, queue: seq<Entry>, stored: seq<Message>)

  /** The state a record, read in a state, leads to. */
  function After(s: State, op: string): State {
    match s
    case WaitForData =>
      if op == "LS" then SendLDLRLA else if op == "LE" then AtDisconnected
      else if op == "LA" then ReadDB else WriteDB
    case WaitForLA => if op == "LA" then WaitForData else AtDisconnected
    case WaitForLDLRLA =>
      if op == "LD" || op == "LR" then WaitForLDLRLA else if op == "LA" then SendLA else AtDisconnected
    case WaitForLSLA =>
      if op == "LS" then SendLDLRLA else if op == "LD" || op == "LA" then SendLA else AtDisconnected
    case WaitForSincro => if op == "LS" then SendLDLRLA else AtDisconnected
    case _ => s
  }

  predicate Reads(s: State) { s in {WaitForData, WaitForLA, WaitForLDLRLA, WaitForLSLA, WaitForSincro} }

  function Step(c: Setup, m: Machine, e: Env): (Machine, seq<string>) {
    if Reads(m.state) then
      (match e.result
       case RecordRead => m.(record := e.incoming, state := After(m.state, Op(e.incoming)))
       case TimedOut =>
         m.(state := if m.state == WaitForData then ReadDB
                     else if m.state == WaitForSincro then SendLS else AtDisconnected)
       case _ => m.(state := AtDisconnected), [])
    else match m.state
      case Start =>
        (m.(queue := DropPendingLE(m.queue), state := if e.connected then SendLS else AtDisconnected), [])
      case SendSincro => (m, if e.sent then [LinkRecord(c.wire, "LS", e)] else [])
      case SendData =>
        if !e.sent then (m.(state := AtDisconnected), [])
        else (match e.update
              case Updated => m.(state := WaitForData, queue := MarkDone(m.queue, m.recordId))
              case UpdateRefused => m.(state := WaitForData)
              case Died => m.(state := AtDisconnected), [m.record])
      case SendLA =>
        if !e.sent then (m.(state := AtDisconnected), [])
        else (m.(state := WaitForData), [LinkRecord(c.wire, "LA", e)])
      case SendLDLRLA =>
        var all := Announce(c, e);
        // $sent starts false here: an empty table sends nothing, not even LA.
        if c.table == [] then (m.(state := AtDisconnected), [])
        else if !e.sent then (m.(state := AtDisconnected), all[..if e.out < |all| then e.out else |all| - 1])
        else (m.(state := WaitForLA), all)
      case SendLS =>
        if !e.sent then (m.(state := AtDisconnected), [])
        else (m.(state := WaitForLDLRLA), [LinkRecord(c.wire, "LS", e)])
      case ReadDB =>
        if !e.dbOk then (m.(state := AtDisconnected), [])
        else
          var k := FirstUndone(m.queue);
          if k == |m.queue| then (m.(state := WaitForData), [])
          else
            var m := m.(record := RecordOf(c.wire, m.queue[k].message), recordId := m.queue[k].id);
            if "LE" <= m.record then
              (m.(state := AtDisconnected,
                  queue := if e.update == Updated then MarkDone(m.queue, m.recordId) else m.queue),
               if e.sent then [LinkRecord(c.wire, "LE", e)] else [])
            else (m.(state := SendData), [])
      case WriteDB =>
        var received := Parse(c.wire, m.record);
        if e.dbOk && Acceptable(received) then (m.(state := ReadDB, stored := m.stored + [received]), [])
        else (m.(state := AtDisconnected), [])
      case _ => (m, [])
  }

  class Connection {
    const c: Setup
    var state: State
    var record: string
    var recordId: nat
    var queue: seq<Entry>
    var stored: seq<Message>

    constructor (c: Setup, queue: seq<Entry>)
      ensures this.c == c && Now() == Machine(Start, "", 0, queue, [])
    {
      this.c, state, record, recordId, this.queue, stored := c, Start, "", 0, queue, [];
    }

    function Now(): Machine
      reads this
    {
      Machine(state, record, recordId, queue, stored)
    }

    /** sendLDLRLA, whose success is that of its last send. */
    method SendTable(e: Env) returns (ok: bool, out: seq<string>)
      ensures ok == (e.sent && c.table != [])
      ensures c.table == [] ==> out == []
      ensures c.table != [] ==> out == if e.sent then Announce(c, e)
                                       else Announce(c, e)[..if e.out < |c.table| + 1 then e.out else |c.table|]
    {
      ok, out := false, [];
      ghost var all := Announce(c, e);
      ghost var last := if e.out < |c.table| + 1 then e.out else |c.table|;
      for i := 0 to |c.table|
        invariant out == all[..i] && (e.sent || i <= last)
        invariant ok <==> i > 0
      {
        var val := c.table[i];
        if Op(val) == "LD" {
          val := Mark(val, 'D', 'A', e.date);
          val := Mark(val, 'T', 'I', e.time);
        }
        if !e.sent && i == e.out { return false, out; }
        ok, out := true, out + [val];
      }
      if ok {
        if !e.sent { return false, out; }
        out := out + [LinkRecord(c.wire, "LA", e)];
      }
    }

    method TurnReading(e: Env)
      requires Reads(state)
      modifies this`state, this`record
      ensures (Now(), []) == Step(c, old(Now()), e)
    {
      if e.result != RecordRead {
        if state == WaitForData && e.result == TimedOut { state := ReadDB;
        } else if state == WaitForSincro && e.result == TimedOut { state := SendLS;
        } else { state := AtDisconnected; }
        return;
      }
      record := e.incoming;
      var op := Op(record);
      match state
      case WaitForData =>
        if op == "LS" { state := SendLDLRLA;
        } else if op == "LE" { state := AtDisconnected;
        } else if op == "LA" { state := ReadDB;
        } else { state := WriteDB; }
      case WaitForLA => state := if op == "LA" then WaitForData else AtDisconnected;
      case WaitForLDLRLA =>
        if op == "LD" { state := WaitForLDLRLA;
        } else if op == "LR" { state := WaitForLDLRLA;
        } else if op == "LA" { state := SendLA;
        } else { state := AtDisconnected; }
      case WaitForLSLA =>
        if op == "LS" { state := SendLDLRLA;
        } else if op == "LD" { state := SendLA;
        } else if op == "LA" { state := SendLA;
        } else { state := AtDisconnected; }
      case WaitForSincro => state := if op == "LS" then SendLDLRLA else AtDisconnected;
    }

    /** One turn of the loop of a connection. */
    method Turn(e: Env) returns (out: seq<string>)
      modifies this
      ensures (Now(), out) == Step(c, old(Now()), e)
    {
      out := [];
      match state
      case Start =>
        queue := DropPendingLE(queue);
        state := if e.connected then SendLS else AtDisconnected;
      case SendSincro => if e.sent { out := [LinkRecord(c.wire, "LS", e)]; }
      case SendData =>
        if !e.sent { state := AtDisconnected; return; }
        out := [record];
        if e.update == Died { state := AtDisconnected; return; }
        if e.update == Updated { queue := MarkDone(queue, recordId); }
        state := WaitForData;
      case SendLA =>
        if !e.sent { state := AtDisconnected; return; }
        out, state := [LinkRecord(c.wire, "LA", e)], WaitForData;
      case SendLDLRLA =>
        var ok;
        ok, out := SendTable(e);
        state := if ok then WaitForLA else AtDisconnected;
      case SendLS =>
        if !e.sent { state := AtDisconnected; return; }
        out, state := [LinkRecord(c.wire, "LS", e)], WaitForLDLRLA;
      case ReadDB =>
        if !e.dbOk { state := AtDisconnected; return; }
        var k := FirstUndone(queue);
        if k == |queue| { state := WaitForData; return; }
        record, recordId := RecordOf(c.wire, queue[k].message), queue[k].id;
        if !("LE" <= record) { state := SendData; return; }
        if e.sent { out := [LinkRecord(c.wire, "LE", e)]; }
        if e.update == Updated { queue := MarkDone(queue, recordId); }
        state := AtDisconnected;
      case WriteDB =>
        var received := Parse(c.wire, record);
        if e.dbOk && Acceptable(received) {
          stored, state := stored + [received], ReadDB;
        } else {
          state := AtDisconnected;
        }
      case AtDisconnected =>
      case _ => TurnReading(e);
    }
  }
}
