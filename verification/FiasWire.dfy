/** FIAS records on the wire and in the database tables: building, framing, reading, splitting, storing. */
module FiasWire {
  import opened Text

  datatype Config = Config(sep: char, stx: char, etx: char)

  /** A configuration whose three control characters can be told apart. */
  predicate ValidConfig(c: Config) {
    c.sep != c.stx && c.sep != c.etx && c.stx != c.etx
  }

  /** A null value is stored as such and travels as the empty text. */
  datatype Param = Param(key: string, value: Option<string>)
  datatype Message = Message(cmd: string, params: seq<Param>)

  function FieldText(p: Param): string { p.key + p.value.GetOr("") }

  function Normal(p: Param): Param { p.(value := Some(p.value.GetOr(""))) }

  function NormalMessage(m: Message): Message {
    m.(params := seq(|m.params|, i requires 0 <= i < |m.params| => Normal(m.params[i])))
  }

  // ---- What insertFiasMessage accepts. `$` in those patterns also matches before a final newline. ----

  predicate UpperLetter(c: char) { 'A' <= c <= 'Z' }

  predicate LabelChar(c: char) { UpperLetter(c) || '0' <= c <= '9' || c == '#' || c == '+' }

  predicate CommandOk(s: string) {
    (|s| == 2 || (|s| == 3 && s[2] == '\n')) && UpperLetter(s[0]) && UpperLetter(s[1])
  }

  predicate LabelOk(s: string) {
    (|s| == 2 || (|s| == 3 && s[2] == '\n')) && LabelChar(s[0]) && LabelChar(s[1])
  }

  predicate DirectionOk(dir: string) { dir == "PBX" || dir == "PMS" }

  predicate Acceptable(m: Message) {
    CommandOk(m.cmd) && forall p <- m.params :: LabelOk(p.key)
  }

  /** A command is two capital letters, and a label two capital letters, digits, '#' or '+'; a line feed may follow either,
      as PHP's $ lets it. */
  lemma FormatsAre(s: string)
    ensures CommandOk(s) <==> 2 <= |s| <= 3 && (forall i :: 0 <= i < 2 ==> 'A' <= s[i] <= 'Z') && (|s| == 3 ==> s[2] == '\n')
    ensures LabelOk(s) <==>
      && 2 <= |s| <= 3 && (|s| == 3 ==> s[2] == '\n')
      && (forall i :: 0 <= i < 2 ==> 'A' <= s[i] <= 'Z' || '0' <= s[i] <= '9' || s[i] == '#' || s[i] == '+')
  {
  }

  // ---- The two tables ----

  datatype MessageRow = MessageRow(id: nat, cmd: string, dir: string, done: bool)
  datatype ParamRow = ParamRow(msgid: nat, key: string, value: Option<string>)
  datatype Tables = Tables(messages: seq<MessageRow>, params: seq<ParamRow>, nextId: nat)

  /** Auto-increment ids: growing along the table, and parameters only of messages already there. */
  ghost predicate WellFormed(t: Tables) {
    && (forall i :: 0 <= i < |t.messages| ==> t.messages[i].id < t.nextId)
    && (forall i, j :: 0 <= i < j < |t.messages| ==> t.messages[i].id < t.messages[j].id)
    && (forall i :: 0 <= i < |t.params| ==> t.params[i].msgid < t.nextId)
  }

  /** The parameters of one message, in stored order. */
  function ParamsOf(rows: seq<ParamRow>, id: nat): seq<Param> {
    if rows == [] then []
    else (if rows[0].msgid == id then [Param(rows[0].key, rows[0].value)] else []) + ParamsOf(rows[1..], id)
  }

  function RowsOf(id: nat, params: seq<Param>): (rows: seq<ParamRow>)
    ensures |rows| == |params|
    ensures forall i :: 0 <= i < |rows| ==> rows[i].msgid == id
  {
    seq(|params|, i requires 0 <= i < |params| => ParamRow(id, params[i].key, params[i].value))
  }

  function Insert(t: Tables, m: Message, dir: string): Tables {
    Tables(t.messages + [MessageRow(t.nextId, m.cmd, dir, false)],
           t.params + RowsOf(t.nextId, m.params),
           t.nextId + 1)
  }

  /** The messages of a direction with their parameters, in id order. */
  function Contents(messages: seq<MessageRow>, params: seq<ParamRow>, dir: string): seq<Message> {
    if messages == [] then []
    else (if messages[0].dir == dir then [Message(messages[0].cmd, ParamsOf(params, messages[0].id))] else [])
         + Contents(messages[1..], params, dir)
  }

  /** Those not sent yet: what stReadDB goes through. */
  function Pending(t: Tables, dir: string): seq<Message> {
    Contents(Undone(t.messages), t.params, dir)
  }

  function Undone(messages: seq<MessageRow>): (r: seq<MessageRow>)
    ensures forall x <- r :: !x.done && x in messages
  {
    if messages == [] then []
    else (if messages[0].done then [] else [messages[0]]) + Undone(messages[1..])
  }

  // ---- Records ----

  /** stReadDB: the command and each label with its value, every one followed by the separator. */
  function RecordOf(c: Config, m: Message): string { m.cmd + [c.sep] + FieldsOf(c, m.params) }

  function FieldsOf(c: Config, params: seq<Param>): string {
    if params == [] then "" else FieldText(params[0]) + [c.sep] + FieldsOf(c, params[1..])
  }

  function Frame(c: Config, record: string): string { [c.stx] + record + [c.etx] }

  function FieldParam(s: string): Param {
    if |s| <= 2 then Param(s, Some("")) else Param(s[..2], Some(s[2..]))
  }

  /** stWriteDB: the pieces but the first, the command, and the last, which is dropped. */
  function Parse(c: Config, record: string): Message {
    var pieces := Split(record, c.sep);
    var last := if |pieces| == 1 then 1 else |pieces| - 1;
    var fields := pieces[1..last];
    Message(pieces[0], seq(|fields|, i requires 0 <= i < |fields| => FieldParam(fields[i])))
  }

  /** getOperationCommand */
  function Op(record: string): string { if |record| <= 2 then record else record[..2] }

  /** Records of the link itself, which are not for scripts to queue. */
  const LINK_COMMANDS: set<string> := {"LS", "LE", "LA"}

  // ---- Reading from the socket ----

  datatype Recv = Byte(b: char) | Timeout | Closed
  datatype ReadResult = RecordRead | TimedOut | Disconnected | OutOfSequence

  function Bytes(s: string): (r: seq<Recv>)
    ensures |r| == |s| && forall i :: 0 <= i < |s| ==> r[i] == Byte(s[i])
  {
    seq(|s|, i requires 0 <= i < |s| => Byte(s[i]))
  }

  /** The outcome of one readRecord: result, record, and what is left on the socket. */
  function Read(c: Config, input: seq<Recv>): (ReadResult, string, seq<Recv>) {
    if input == [] then (TimedOut, "", [])
    else match input[0]
      case Timeout => (TimedOut, "", input[1..])
      case Closed => (Disconnected, "", input[1..])
      case Byte(b) =>
        if b == c.stx then ReadBody(c, input[1..], "") else (OutOfSequence, "", input[1..])
  }

  function ReadBody(c: Config, input: seq<Recv>, acc: string): (ReadResult, string, seq<Recv>)
    decreases |input|
  {
    if input == [] then (TimedOut, acc, [])
    else match input[0]
      case Timeout => (TimedOut, acc, input[1..])
      case Closed => (Disconnected, acc, input[1..])
      case Byte(b) =>
        if b == c.stx then (OutOfSequence, acc, input[1..])
        else if b == c.etx then (RecordRead, acc, input[1..])
        else ReadBody(c, input[1..], acc + [b])
  }

  datatype WriteOutcome = WriteFailed | Wrote(n: nat)

  datatype LRState = WaitStart | WaitChar | AddToRecord | RecordEnd | AtTimeout | AtDisconnect | AtOutOfSequence

  /** One end of a connection: what recv will give, what write will answer, what has gone out. */
  class Socket {
    var input: seq<Recv>
    var outcomes: seq<WriteOutcome>
    var output: string

    constructor (input: seq<Recv>, outcomes: seq<WriteOutcome>)
      ensures this.input == input && this.outcomes == outcomes && output == ""
    {
      this.input, this.outcomes, output := input, outcomes, "";
    }

    /** One character within the receive timeout. */
    method Receive() returns (r: Recv)
      modifies this`input
      ensures old(input) == [] ==> r == Timeout && input == []
      ensures old(input) != [] ==> r == old(input)[0] && input == old(input)[1..]
    {
      if input == [] { return Timeout; }
      r := input[0];
      input := input[1..];
    }

    /** readRecord: its automaton, one state a turn. */
    method ReadRecord(c: Config) returns (result: ReadResult, record: string)
      modifies this`input
      ensures (result, record, input) == Read(c, old(input))
    {
      var state, exit, buf := WaitStart, false, ' ';
      result, record := TimedOut, "";
      while !exit
        invariant exit ==> (result, record, input) == Read(c, old(input))
        invariant !exit && state == WaitStart ==> record == "" && input == old(input)
        invariant !exit && state == WaitChar ==> ReadBody(c, input, record) == Read(c, old(input))
        invariant !exit && state == AddToRecord ==> ReadBody(c, input, record + [buf]) == Read(c, old(input))
        invariant !exit && state == RecordEnd ==> (RecordRead, record, input) == Read(c, old(input))
        invariant !exit && state == AtTimeout ==> (TimedOut, record, input) == Read(c, old(input))
        invariant !exit && state == AtDisconnect ==> (Disconnected, record, input) == Read(c, old(input))
        invariant !exit && state == AtOutOfSequence ==> (OutOfSequence, record, input) == Read(c, old(input))
        decreases !exit, |input|, match state case WaitStart => 3 case AddToRecord => 3 case WaitChar => 2 case _ => 1
      {
        match state
        case AddToRecord =>
          record := record + [buf];
          state := WaitChar;
        case AtDisconnect => result, exit := Disconnected, true;
        case RecordEnd => result, exit := RecordRead, true;
        case AtOutOfSequence => result, exit := OutOfSequence, true;
        case AtTimeout => result, exit := TimedOut, true;
        case WaitChar =>
          var r := Receive();
          match r {
            case Timeout => state := AtTimeout;
            case Closed => state := AtDisconnect;
            case Byte(b) =>
              buf := b;
              state := if b == c.stx then AtOutOfSequence else if b == c.etx then RecordEnd else AddToRecord;
          }
        case WaitStart =>
          var r := Receive();
          match r {
            case Timeout => state := AtTimeout;
            case Closed => state := AtDisconnect;
            case Byte(b) =>
              buf := b;
              state := if b == c.stx then WaitChar else AtOutOfSequence;
          }
      }
    }

    /** One write: how much of data the kernel took, nothing when it failed. */
    method Write(data: string) returns (sent: Option<nat>)
      modifies this`outcomes, this`output
      ensures sent.None? ==> output == old(output)
      ensures sent.Some? ==> sent.value <= |data| && output == old(output) + data[..sent.value]
      ensures sent.Some? ==> |outcomes| < |old(outcomes)|
    {
      if outcomes == [] { return None; }
      var o := outcomes[0];
      outcomes := outcomes[1..];
      match o
      case WriteFailed => sent := None;
      case Wrote(n) =>
        var k := if n <= |data| then n else |data|;
        output := output + data[..k];
        sent := Some(k);
    }

    /** socketSendMessage: writes until all of message is out, or one write fails. */
    method SendMessage(message: string) returns (ok: bool)
      modifies this`outcomes, this`output
      ensures ok ==> output == old(output) + message
      ensures !ok ==> exists k | 0 <= k < |message| :: output == old(output) + message[..k]
    {
      var offset: nat := 0;
      ok := true;
      while offset < |message| && ok
        invariant offset <= |message| && output == old(output) + message[..offset]
        invariant !ok ==> offset < |message|
        decreases ok, |outcomes|
      {
        var sent := Write(message[offset..]);
        if sent.None? {
          ok := false;
        } else {
          assert message[..offset] + message[offset..][..sent.value] == message[..offset + sent.value];
          offset := offset + sent.value;
        }
      }
      assert message[..|message|] == message;
    }

    /** sendData: the record between its two marks. */
    method SendData(c: Config, record: string) returns (ok: bool)
      modifies this`outcomes, this`output
      ensures ok ==> output == old(output) + Frame(c, record)
      ensures !ok ==> exists k | 0 <= k < |Frame(c, record)| :: output == old(output) + Frame(c, record)[..k]
    {
      ok := SendMessage(Frame(c, record));
    }
  }

  /** The message tables of one side. */
  class Database {
    var tables: Tables

    constructor ()
      ensures WellFormed(tables) && tables.messages == []
    {
      tables := Tables([], [], 0);
    }

    /** insertFiasMessage: everything is validated before anything is written. */
    method InsertMessage(m: Message, dir: string) returns (ok: bool)
      modifies this
      ensures ok <==> Acceptable(m) && DirectionOk(dir)
      ensures tables == if ok then Insert(old(tables), m, dir) else old(tables)
    {
      if !CommandOk(m.cmd) || !DirectionOk(dir) { return false; }
      var normalized: seq<Param> := [];
      for i := 0 to |m.params|
        invariant normalized == m.params[..i]
        invariant forall k :: 0 <= k < i ==> LabelOk(m.params[k].key)
      {
        if !LabelOk(m.params[i].key) { return false; }
        normalized := normalized + [m.params[i]];
      }
      var id, before := tables.nextId, tables.params;
      tables := tables.(messages := tables.messages + [MessageRow(id, m.cmd, dir, false)], nextId := id + 1);
      for i := 0 to |normalized|
        invariant tables == Insert(old(tables), m, dir).(params := before + RowsOf(id, m.params)[..i])
      {
        tables := tables.(params := tables.params + [ParamRow(id, normalized[i].key, normalized[i].value)]);
      }
      assert RowsOf(id, m.params)[..|normalized|] == RowsOf(id, m.params);
      ok := true;
    }

    /** stReadDB: the record of the row, its parameters appended one by one. */
    method BuildRecord(c: Config, row: MessageRow) returns (record: string)
      ensures record == RecordOf(c, Message(row.cmd, ParamsOf(tables.params, row.id)))
    {
      record := row.cmd + [c.sep];
      var params := ParamsOf(tables.params, row.id);
      for i := 0 to |params|
        invariant record + FieldsOf(c, params[i..]) == RecordOf(c, Message(row.cmd, params))
      {
        var field := FieldText(params[i]) + [c.sep];
        assert params[i..][1..] == params[i + 1..];
        Assoc(record, field, FieldsOf(c, params[i + 1..]));
        record := record + field;
      }
      Text.Unit(record);
    }

    /** stWriteDB: a received record split on the separator and stored, or refused. */
    method WriteRecord(c: Config, record: string, dir: string) returns (ok: bool)
      requires DirectionOk(dir)
      modifies this
      ensures ok <==> Acceptable(Parse(c, record))
      ensures tables == if ok then Insert(old(tables), Parse(c, record), dir) else old(tables)
    {
      var pieces := Split(record, c.sep);
      var params: seq<Param> := [];
      var i := 1;
      while i < |pieces| - 1
        invariant 1 <= i && |params| == i - 1 && (i <= |pieces| - 1 || i == 1)
        invariant forall k :: 0 <= k < |params| ==> params[k] == FieldParam(pieces[k + 1])
      {
        params := params + [FieldParam(pieces[i])];
        i := i + 1;
      }
      assert params == Parse(c, record).params;
      ok := InsertMessage(Message(pieces[0], params), dir);
    }
  }

  // ---- Reading gives back exactly the framed records ----

  lemma {:induction false} ReadBodyIff(c: Config, input: seq<Recv>, acc: string, r: string, rest: seq<Recv>)
    requires ValidConfig(c)
    ensures ReadBody(c, input, acc) == (RecordRead, acc + r, rest)
            <==> (input == Bytes(r + [c.etx]) + rest && c.stx !in r && c.etx !in r)
    decreases |input|
  {
    var framed := Bytes(r + [c.etx]) + rest;
    if input == [] || !input[0].Byte? || input[0].b == c.stx || input[0].b == c.etx {
      if r != "" { assert framed[0] == Byte(r[0]); }
      if input != [] && input[0] == Byte(c.etx) {
        assert acc + "" == acc;
        if r == "" {
          assert framed[1..] == rest;
          assert input == [input[0]] + input[1..];
        } else {
          assert |acc + r| > |acc|;
        }
      }
    } else {
      var b := input[0].b;
      if r != "" {
        ReadBodyIff(c, input[1..], acc + [b], r[1..], rest);
        var tail := Bytes(r[1..] + [c.etx]) + rest;
        assert framed == [Byte(r[0])] + tail;
        assert input == [Byte(b)] + input[1..];
        assert r == [r[0]] + r[1..];
        assert acc + [b] + r[1..] == acc + ([b] + r[1..]);
        if ReadBody(c, input, acc) == (RecordRead, acc + r, rest) {
          ReadBodyExtends(c, input[1..], acc + [b]);
          assert (acc + r)[|acc|] == r[0];
        }
      } else {
        assert framed[0] == Byte(c.etx);
        ReadBodyExtends(c, input[1..], acc + [b]);
      }
    }
  }

  lemma {:induction false} ReadBodyExtends(c: Config, input: seq<Recv>, acc: string)
    ensures acc <= ReadBody(c, input, acc).1
    decreases |input|
  {
    if input != [] && input[0].Byte? && input[0].b != c.stx && input[0].b != c.etx {
      ReadBodyExtends(c, input[1..], acc + [input[0].b]);
    }
  }

  /** readRecord succeeds with r exactly when the socket holds the frame of r, and takes no more than it. */
  lemma ReadExactlyFrames(c: Config, input: seq<Recv>, r: string, rest: seq<Recv>)
    requires ValidConfig(c)
    ensures Read(c, input) == (RecordRead, r, rest)
            <==> (input == Bytes(Frame(c, r)) + rest && c.stx !in r && c.etx !in r)
  {
    var framed := Bytes(Frame(c, r)) + rest;
    assert framed[0] == Byte(c.stx);
    assert framed == [Byte(c.stx)] + (Bytes(r + [c.etx]) + rest);
    if input != [] && input[0] == Byte(c.stx) {
      ReadBodyIff(c, input[1..], "", r, rest);
      assert "" + r == r;
      assert input == [input[0]] + input[1..];
      if input == framed { assert input[1..] == Bytes(r + [c.etx]) + rest; }
    }
  }

  // ---- The transfer ----

  /** A data message, with labels of two characters, whose texts hold no control character. */
  predicate Data(c: Config, m: Message) {
    && Acceptable(m) && |m.cmd| == 2 && Clean(c, m.cmd) && m.cmd !in LINK_COMMANDS
    && forall p <- m.params :: |p.key| == 2 && Clean(c, p.key) && Clean(c, p.value.GetOr(""))
  }

  predicate Clean(c: Config, s: string) { c.sep !in s && c.stx !in s && c.etx !in s }

  lemma {:induction false} SplitFields(c: Config, params: seq<Param>)
    requires forall p <- params :: Clean(c, p.key) && Clean(c, p.value.GetOr(""))
    ensures Split(FieldsOf(c, params), c.sep) == FieldTexts(params) + [""]
  {
    if params != [] {
      SplitFields(c, params[1..]);
      SplitFirst(FieldText(params[0]), FieldsOf(c, params[1..]), c.sep);
      assert FieldTexts(params) == [FieldText(params[0])] + FieldTexts(params[1..]);
      Assoc([FieldText(params[0])], FieldTexts(params[1..]), [""]);
    }
  }

  lemma {:induction false} FieldsClean(c: Config, params: seq<Param>)
    requires ValidConfig(c)
    requires forall p <- params :: Clean(c, p.key) && Clean(c, p.value.GetOr(""))
    ensures c.stx !in FieldsOf(c, params) && c.etx !in FieldsOf(c, params)
  {
    if params != [] { FieldsClean(c, params[1..]); }
  }

  function FieldTexts(params: seq<Param>): (r: seq<string>)
    ensures |r| == |params| && forall i :: 0 <= i < |r| ==> r[i] == FieldText(params[i])
  {
    seq(|params|, i requires 0 <= i < |params| => FieldText(params[i]))
  }

  lemma FieldBack(p: Param)
    requires |p.key| == 2
    ensures FieldParam(FieldText(p)) == Normal(p)
  {
    assert FieldText(p)[..2] == p.key;
    assert FieldText(p)[2..] == p.value.GetOr("");
  }

  lemma RecordPieces(c: Config, m: Message)
    requires ValidConfig(c) && c.sep !in m.cmd
    requires forall p <- m.params :: Clean(c, p.key) && Clean(c, p.value.GetOr(""))
    ensures Split(RecordOf(c, m), c.sep) == [m.cmd] + FieldTexts(m.params) + [""]
  {
    SplitFields(c, m.params);
    SplitFirst(m.cmd, FieldsOf(c, m.params), c.sep);
    Assoc([m.cmd], FieldTexts(m.params), [""]);
  }

  /** The record built from a message splits back into that message. */
  lemma ParseRecord(c: Config, m: Message)
    requires ValidConfig(c) && Data(c, m)
    ensures Parse(c, RecordOf(c, m)) == NormalMessage(m)
    ensures c.stx !in RecordOf(c, m) && c.etx !in RecordOf(c, m)
    ensures Acceptable(NormalMessage(m)) && Op(RecordOf(c, m)) == m.cmd
  {
    RecordPieces(c, m);
    FieldsClean(c, m.params);
    var pieces := Split(RecordOf(c, m), c.sep);
    assert pieces[1..|pieces| - 1] == FieldTexts(m.params);
    forall i | 0 <= i < |m.params|
      ensures FieldParam(FieldTexts(m.params)[i]) == Normal(m.params[i]) && LabelOk(m.params[i].key)
    {
      assert m.params[i] in m.params;
      FieldBack(m.params[i]);
    }
    assert Parse(c, RecordOf(c, m)).params == NormalMessage(m).params;
  }

  function NormalMessages(ms: seq<Message>): (r: seq<Message>)
    ensures |r| == |ms|
  {
    if ms == [] then [] else [NormalMessage(ms[0])] + NormalMessages(ms[1..])
  }

  lemma ReadShrinks(c: Config, input: seq<Recv>)
    requires input != []
    ensures |Read(c, input).2| < |input|
  {
    if input[0] == Byte(c.stx) { ReadBodyShrinks(c, input[1..], ""); }
  }

  lemma {:induction false} ReadBodyShrinks(c: Config, input: seq<Recv>, acc: string)
    ensures |ReadBody(c, input, acc).2| <= |input|
    decreases |input|
  {
    if input != [] && input[0].Byte? && input[0].b != c.stx && input[0].b != c.etx {
      ReadBodyShrinks(c, input[1..], acc + [input[0].b]);
    }
  }

  // ---- Stored messages ----

  /** The tables after messages were stored one after the other. */
  function InsertAll(t: Tables, ms: seq<Message>, dir: string): Tables
    decreases |ms|
  {
    if ms == [] then t else InsertAll(Insert(t, ms[0], dir), ms[1..], dir)
  }

  lemma {:induction false} ParamsOfConcat(a: seq<ParamRow>, b: seq<ParamRow>, id: nat)
    ensures ParamsOf(a + b, id) == ParamsOf(a, id) + ParamsOf(b, id)
  {
    if a == [] {
      Text.Unit(b);
      Text.Unit(ParamsOf(b, id));
    } else {
      assert (a + b)[0] == a[0] && (a + b)[1..] == a[1..] + b;
      ParamsOfConcat(a[1..], b, id);
      Assoc(if a[0].msgid == id then [Param(a[0].key, a[0].value)] else [], ParamsOf(a[1..], id), ParamsOf(b, id));
    }
  }

  lemma {:induction false} ParamsOfNone(rows: seq<ParamRow>, id: nat)
    requires forall i :: 0 <= i < |rows| ==> rows[i].msgid != id
    ensures ParamsOf(rows, id) == []
  {
    if rows != [] { ParamsOfNone(rows[1..], id); }
  }

  lemma {:induction false} ParamsOfRows(id: nat, params: seq<Param>)
    ensures ParamsOf(RowsOf(id, params), id) == params
  {
    if params != [] {
      assert RowsOf(id, params)[1..] == RowsOf(id, params[1..]);
      ParamsOfRows(id, params[1..]);
    }
  }

  lemma {:induction false} ContentsKept(messages: seq<MessageRow>, params: seq<ParamRow>, id: nat, more: seq<Param>, dir: string)
    requires forall i :: 0 <= i < |messages| ==> messages[i].id != id
    ensures Contents(messages, params + RowsOf(id, more), dir) == Contents(messages, params, dir)
  {
    if messages != [] {
      ContentsKept(messages[1..], params, id, more, dir);
      ParamsOfConcat(params, RowsOf(id, more), messages[0].id);
      ParamsOfNone(RowsOf(id, more), messages[0].id);
      assert ParamsOf(params, messages[0].id) + [] == ParamsOf(params, messages[0].id);
    }
  }

  lemma {:induction false} ContentsConcat(a: seq<MessageRow>, b: seq<MessageRow>, params: seq<ParamRow>, dir: string)
    ensures Contents(a + b, params, dir) == Contents(a, params, dir) + Contents(b, params, dir)
  {
    if a == [] {
      assert a + b == b;
    } else {
      assert (a + b)[1..] == a[1..] + b;
      ContentsConcat(a[1..], b, params, dir);
    }
  }

  /** An insert appends one message to its direction, and changes nothing of the other. */
  lemma InsertAppends(t: Tables, m: Message, dir: string, other: string)
    requires WellFormed(t)
    ensures WellFormed(Insert(t, m, dir))
    ensures Contents(Insert(t, m, dir).messages, Insert(t, m, dir).params, other)
            == Contents(t.messages, t.params, other) + (if other == dir then [m] else [])
  {
    var t' := Insert(t, m, dir);
    var row := MessageRow(t.nextId, m.cmd, dir, false);
    ContentsConcat(t.messages, [row], t'.params, other);
    ContentsKept(t.messages, t.params, t.nextId, m.params, other);
    OwnParams(t.params, t.nextId, m.params);
    Text.Unit([m]);
  }

  lemma {:induction false} OwnParams(params: seq<ParamRow>, id: nat, more: seq<Param>)
    requires forall i :: 0 <= i < |params| ==> params[i].msgid < id
    ensures ParamsOf(params + RowsOf(id, more), id) == more
  {
    ParamsOfConcat(params, RowsOf(id, more), id);
    ParamsOfNone(params, id);
    ParamsOfRows(id, more);
    Text.Unit(more);
  }

  lemma {:induction false} InsertAllAppends(t: Tables, ms: seq<Message>, dir: string)
    requires WellFormed(t)
    decreases |ms|
    ensures var t' := InsertAll(t, ms, dir);
      WellFormed(t') && Contents(t'.messages, t'.params, dir) == Contents(t.messages, t.params, dir) + ms
  {
    Text.Unit(Contents(t.messages, t.params, dir));
    if ms != [] {
      InsertAppends(t, ms[0], dir, dir);
      InsertAllAppends(Insert(t, ms[0], dir), ms[1..], dir);
      Assoc(Contents(t.messages, t.params, dir), [ms[0]], ms[1..]);
      assert [ms[0]] + ms[1..] == ms;
    }
  }

  /** Later messages leave earlier rows and their parameters alone. */
  lemma {:induction false} InsertAllKeeps(t: Tables, ms: seq<Message>, dir: string, k: nat)
    requires WellFormed(t) && k < |t.messages|
    decreases |ms|
    ensures var t' := InsertAll(t, ms, dir);
      && WellFormed(t') && k < |t'.messages| && t'.messages[k] == t.messages[k]
      && ParamsOf(t'.params, t.messages[k].id) == ParamsOf(t.params, t.messages[k].id)
  {
    if ms != [] {
      var t1, id := Insert(t, ms[0], dir), t.messages[k].id;
      ParamsOfConcat(t.params, RowsOf(t.nextId, ms[0].params), id);
      ParamsOfNone(RowsOf(t.nextId, ms[0].params), id);
      Text.Unit(ParamsOf(t.params, id));
      InsertAllKeeps(t1, ms[1..], dir, k);
    }
  }

  /** Message by message, the rows after those there were. */
  lemma {:induction false} InsertedRow(t: Tables, ms: seq<Message>, dir: string, i: nat)
    requires WellFormed(t) && i < |ms|
    decreases |ms|
    ensures var t', k := InsertAll(t, ms, dir), |t.messages| + i;
      && WellFormed(t') && k < |t'.messages|
      && t'.messages[k] == MessageRow(t.nextId + i, ms[i].cmd, dir, false)
      && ParamsOf(t'.params, t'.messages[k].id) == ms[i].params
  {
    var t1 := Insert(t, ms[0], dir);
    InsertAppends(t, ms[0], dir, dir);
    if i == 0 {
      OwnParams(t.params, t.nextId, ms[0].params);
      InsertAllKeeps(t1, ms[1..], dir, |t.messages|);
    } else {
      InsertedRow(t1, ms[1..], dir, i - 1);
    }
  }
}
