/** What the two FIAS daemons share: queues, the answers of the world to one turn, and the link records. */
module FiasLinkRecords {
  import opened Text
  import opened FiasWire

  /** A message of one direction with its id; the queue is in id order. */
  datatype Entry = Entry(id: nat, message: Message, done: bool)

  /** The UPDATE after a send: done, refused, or the process died before it. */
  datatype Update = Updated | UpdateRefused | Died

  /** What the world answers during one turn of a daemon's loop. */
  datatype Env = Env(
    connected: bool,        // the connection is made, or still there
    result: ReadResult,     // of readRecord
    incoming: string,       // the record it gave
    sent: bool,             // every send of the turn succeeds
    out: nat,               // records that went out before the failing send
    update: Update,
    dbOk: bool,             // the queries of the turn succeed
    now: int,
    date: string, time: string)

  /** Setup of one side: its characters, its LD/LR table and the idle time after which fiasd checks the link. */
  datatype Setup = Setup(wire: Config, table: seq<string>, interval: int)

  predicate Digit(x: char) { '0' <= x <= '9' }

  /** date("ymd") and date("His") */
  predicate Dated(e: Env) {
    e.date != "" && e.time != "" && (forall x <- e.date :: Digit(x)) && (forall x <- e.time :: Digit(x))
  }

  /** The separator is neither a capital letter nor a digit. */
  predicate PlainSeparator(c: Config) { !Digit(c.sep) && !UpperLetter(c.sep) }

  /** LS, LA or LE with date and time. */
  function LinkRecord(c: Config, op: string, e: Env): string {
    op + [c.sep] + "DA" + e.date + [c.sep] + "TI" + e.time + [c.sep]
  }

  /** str_replace of a two-letter mark by itself followed by text. */
  function Mark(s: string, a: char, b: char, text: string): string
    decreases |s|
  {
    if |s| < 2 then s
    else if s[0] == a && s[1] == b then [a, b] + text + Mark(s[2..], a, b, text)
    else [s[0]] + Mark(s[1..], a, b, text)
  }

  /** A record of the LD/LR table as it is sent: the LD gets its date and time. */
  function TableRecord(s: string, e: Env): string {
    if Op(s) == "LD" then Mark(Mark(s, 'D', 'A', e.date), 'T', 'I', e.time) else s
  }

  /** The table followed by LA: what sendLDLRLA sends. */
  function Announce(c: Setup, e: Env): (r: seq<string>)
    ensures |r| == |c.table| + 1
  {
    seq(|c.table|, i requires 0 <= i < |c.table| => TableRecord(c.table[i], e)) + [LinkRecord(c.wire, "LA", e)]
  }

  /** The index of the first message not done; the queue's length when all are. */
  function FirstUndone(queue: seq<Entry>): (k: nat)
    ensures k <= |queue|
    ensures forall i :: 0 <= i < k ==> queue[i].done
    ensures k < |queue| ==> !queue[k].done
  {
    if queue == [] || !queue[0].done then 0 else 1 + FirstUndone(queue[1..])
  }

  /** UPDATE messages SET elaborationtime ... WHERE id = ? */
  function MarkDone(queue: seq<Entry>, id: nat): (r: seq<Entry>)
    ensures |r| == |queue|
    ensures forall i :: 0 <= i < |r| ==> r[i] == queue[i].(done := queue[i].done || queue[i].id == id)
  {
    seq(|queue|, i requires 0 <= i < |queue| => queue[i].(done := queue[i].done || queue[i].id == id))
  }

  /** DELETE FROM messages WHERE cmd = 'LE' ... AND elaborationtime IS NULL */
  function DropPendingLE(queue: seq<Entry>): (r: seq<Entry>)
    ensures forall x <- r :: x in queue
  {
    if queue == [] then []
    else (if queue[0].message.cmd == "LE" && !queue[0].done then [] else [queue[0]]) + DropPendingLE(queue[1..])
  }

  lemma LinkRecordOp(c: Config, op: string, e: Env)
    requires |op| == 2
    ensures Op(LinkRecord(c, op, e)) == op
  {
    assert LinkRecord(c, op, e)[..2] == op;
  }

  lemma MarkKeepsLD(s: string, a: char, b: char, text: string)
    requires |s| >= 2 && s[0] == 'L' && s[1] == 'D' && a != 'L'
    ensures var r := Mark(s, a, b, text); |r| >= 2 && r[0] == 'L' && r[1] == 'D'
  {
    var rest := s[1..];
    if |rest| >= 2 {
      assert Mark(rest, a, b, text)[0] == 'D';
    }
  }

  /** Dating the LD leaves its operation. */
  lemma TableRecordOp(s: string, e: Env)
    ensures Op(TableRecord(s, e)) == Op(s)
  {
    if Op(s) == "LD" {
      assert s[0] == 'L' && s[1] == 'D';
      MarkKeepsLD(s, 'D', 'A', e.date);
      MarkKeepsLD(Mark(s, 'D', 'A', e.date), 'T', 'I', e.time);
      var r := TableRecord(s, e);
      assert Op(r) == [r[0], r[1]];
    }
  }

  // ---- Dating an LD keeps what stWriteDB asks of it ----

  /** Whether stWriteDB takes the command piece, or the label in a piece after it. */
  predicate PieceOk(s: string, first: bool) { if first then CommandOk(s) else LabelOk(FieldParam(s).key) }

  predicate PiecesOk(pieces: seq<string>) {
    && (|pieces| > 0 ==> PieceOk(pieces[0], true))
    && forall i :: 1 <= i < |pieces| - 1 ==> PieceOk(pieces[i], false)
  }

  lemma AcceptablePieces(c: Config, r: string)
    ensures Acceptable(Parse(c, r)) <==> PiecesOk(Split(r, c.sep))
  {
    var pieces, params := Split(r, c.sep), Parse(c, r).params;
    assert forall i :: 1 <= i < |pieces| - 1 ==> params[i - 1] == FieldParam(pieces[i]);
    if Acceptable(Parse(c, r)) {
      forall i | 1 <= i < |pieces| - 1 ensures LabelOk(FieldParam(pieces[i]).key) {
        assert params[i - 1] in params;
      }
    }
  }

  lemma {:induction false} SplitPrefix(p: string, s: string, sep: char)
    requires sep !in p
    ensures Split(p + s, sep) == [p + Split(s, sep)[0]] + Split(s, sep)[1..]
  {
    var pieces := Split(s, sep);
    if p == "" {
      assert p + s == s && p + pieces[0] == pieces[0];
      assert pieces == [pieces[0]] + pieces[1..];
    } else {
      assert (p + s)[1..] == p[1..] + s;
      SplitPrefix(p[1..], s, sep);
      assert [p[0]] + (p[1..] + pieces[0]) == p + pieces[0];
    }
  }

  function MarkAll(pieces: seq<string>, a: char, b: char, text: string): (r: seq<string>)
    ensures |r| == |pieces| && forall i :: 0 <= i < |r| ==> r[i] == Mark(pieces[i], a, b, text)
  {
    if pieces == [] then [] else [Mark(pieces[0], a, b, text)] + MarkAll(pieces[1..], a, b, text)
  }

  /** Marking and splitting can be done in either order. */
  lemma {:induction false} SplitMark(s: string, a: char, b: char, text: string, sep: char)
    requires a != sep && b != sep && sep !in text
    ensures Split(Mark(s, a, b, text), sep) == MarkAll(Split(s, sep), a, b, text)
    decreases |s|
  {
    if |s| < 2 {
    } else if s[0] == a && s[1] == b {
      SplitMark(s[2..], a, b, text, sep);
      MatchPieces(s, a, b, text, sep);
    } else {
      SplitMark(s[1..], a, b, text, sep);
      StepPieces(s, a, b, text, sep);
    }
  }

  lemma MatchPieces(s: string, a: char, b: char, text: string, sep: char)
    requires a != sep && b != sep && sep !in text && |s| >= 2 && s[0] == a && s[1] == b
    requires Split(Mark(s[2..], a, b, text), sep) == MarkAll(Split(s[2..], sep), a, b, text)
    ensures Split(Mark(s, a, b, text), sep) == MarkAll(Split(s, sep), a, b, text)
  {
    var pieces := Split(s[2..], sep);
    var first := [a, b] + pieces[0];
    SplitPrefix([a, b] + text, Mark(s[2..], a, b, text), sep);
    SplitPrefix([a, b], s[2..], sep);
    assert s == [a, b] + s[2..];
    assert first[2..] == pieces[0];
    assert Split(s, sep) == [first] + pieces[1..];
  }

  lemma StepPieces(s: string, a: char, b: char, text: string, sep: char)
    requires a != sep && b != sep && |s| >= 2 && !(s[0] == a && s[1] == b)
    requires Split(Mark(s[1..], a, b, text), sep) == MarkAll(Split(s[1..], sep), a, b, text)
    ensures Split(Mark(s, a, b, text), sep) == MarkAll(Split(s, sep), a, b, text)
  {
    var pieces, rest := Split(s[1..], sep), Mark(s[1..], a, b, text);
    assert Mark(s, a, b, text) == [s[0]] + rest && ([s[0]] + rest)[1..] == rest;
    if s[0] != sep {
      var first := [s[0]] + pieces[0];
      assert first[1..] == pieces[0];
      SplitHead(s[1..], sep);
      assert Mark(first, a, b, text) == [s[0]] + Mark(pieces[0], a, b, text);
      assert Split(s, sep) == [first] + pieces[1..];
    }
  }

  lemma SplitHead(s: string, sep: char)
    ensures var head := Split(s, sep)[0]; |head| > 0 ==> s != "" && head[0] == s[0]
    ensures Split(s, sep)[0] == "" ==> s == "" || s[0] == sep
  {
  }

  /** A mark is a letter pair; it lengthens a piece or leaves it, and leaves its first two characters. */
  lemma {:induction false} MarkGrows(s: string, a: char, b: char, text: string)
    requires text != ""
    ensures var r := Mark(s, a, b, text);
      (r == s || |r| > |s|) && (|s| >= 2 ==> |r| >= 2 && r[..2] == s[..2])
    decreases |s|
  {
    if |s| >= 2 {
      var rest := if s[0] == a && s[1] == b then s[2..] else s[1..];
      MarkGrows(rest, a, b, text);
      MarkHead(s[1..], a, b, text);
    }
  }

  lemma MarkHead(s: string, a: char, b: char, text: string)
    requires s != ""
    ensures Mark(s, a, b, text) != "" && Mark(s, a, b, text)[0] == s[0]
  {
  }

  lemma MarkedPieceOk(s: string, a: char, b: char, text: string, first: bool)
    requires text != "" && b != '\n' && (first ==> |s| < 2 || s[0] != a)
    ensures PieceOk(Mark(s, a, b, text), first) <==> PieceOk(s, first)
  {
    MarkGrows(s, a, b, text);
    if |s| >= 2 { assert s[..2] == [s[0], s[1]]; }
    var r := Mark(s, a, b, text);
    if !first {
      assert |s| == 2 ==> s[..2] == s;
      assert |r| == 2 ==> r[..2] == r;
      assert FieldParam(r).key == FieldParam(s).key;
    } else if 2 <= |s| <= 3 {
      var rest := s[1..];
      assert r == [s[0]] + Mark(rest, a, b, text);
      if |rest| == 2 && !(rest[0] == a && rest[1] == b) {
        assert Mark(rest, a, b, text) == [rest[0]] + rest[1..];
      }
      assert r == s || |r| > 3;
    }
  }

  lemma MarkedOk(s: string, a: char, b: char, text: string, sep: char)
    requires a != sep && b != sep && sep !in text && text != "" && b != '\n'
    requires s == "" || s[0] != a
    ensures PiecesOk(Split(Mark(s, a, b, text), sep)) <==> PiecesOk(Split(s, sep))
  {
    var pieces, marked := Split(s, sep), Split(Mark(s, a, b, text), sep);
    SplitMark(s, a, b, text, sep);
    SplitHead(s, sep);
    forall i | 0 <= i < |pieces| ensures PieceOk(marked[i], i == 0) <==> PieceOk(pieces[i], i == 0) {
      MarkedPieceOk(pieces[i], a, b, text, i == 0);
    }
  }

  /** Whether the date and time of an LD are there makes no difference to stWriteDB. */
  lemma TableRecordOk(c: Config, r: string, e: Env)
    requires PlainSeparator(c) && Dated(e)
    ensures Acceptable(Parse(c, TableRecord(r, e))) <==> Acceptable(Parse(c, r))
  {
    AcceptablePieces(c, r);
    AcceptablePieces(c, TableRecord(r, e));
    if Op(r) == "LD" {
      assert r[0] == 'L' && r[1] == 'D';
      MarkKeepsLD(r, 'D', 'A', e.date);
      MarkedOk(r, 'D', 'A', e.date, c.sep);
      MarkedOk(Mark(r, 'D', 'A', e.date), 'T', 'I', e.time, c.sep);
    }
  }
}
