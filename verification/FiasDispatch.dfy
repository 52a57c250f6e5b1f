/** dispatcher.php: stored messages turned into handler command lines, and a handler reading its own arguments. */
module FiasDispatch {
  import opened Text
  import opened FiasWire
  import LegacyCommand

  /** A row of the dispatcher's query: one parameter of one message not elaborated yet. */
  datatype Row = Row(id: nat, section: string, param: string, value: Option<string>)

  /** A section of the configuration file; format is the labels between underscores. */
  datatype Section = Section(name: string, command: Option<LegacyCommand.Configured>, format: string)

  /** The words a section starts its handler with. */
  function Words(s: Section): Option<seq<string>> {
    if s.command.None? then None else LegacyCommand.Build(s.command.value, map[])
  }

  /** $ini_file[$name], the file's sections in order. */
  function Named(ini: seq<Section>, name: string): Option<Section> {
    if ini == [] then None else if ini[0].name == name then Some(ini[0]) else Named(ini[1..], name)
  }

  datatype Grouped = Grouped(section: string, params: map<string, Option<string>>)

  function RowsFor(m: MessageRow, params: seq<Param>): (r: seq<Row>)
    ensures |r| == |params|
    ensures forall i :: 0 <= i < |r| ==> r[i] == Row(m.id, m.cmd + "2" + m.dir, params[i].key, params[i].value)
  {
    seq(|params|, i requires 0 <= i < |params| => Row(m.id, m.cmd + "2" + m.dir, params[i].key, params[i].value))
  }

  /** The inner join, by message id: a message without parameters has no row. */
  function Joined(messages: seq<MessageRow>, params: seq<ParamRow>): seq<Row> {
    if messages == [] then [] else OwnRows(messages[0], params) + Joined(messages[1..], params)
  }

  function OwnRows(m: MessageRow, params: seq<ParamRow>): (r: seq<Row>)
    ensures forall i :: 0 <= i < |r| ==> r[i].id == m.id
  {
    if !m.done && m.dir == "PBX" then RowsFor(m, ParamsOf(params, m.id)) else []
  }

  // ---- Grouping ----

  function ParamsIn(rows: seq<Row>, id: nat): map<string, Option<string>> {
    if rows == [] then map[]
    else
      var r, before := rows[|rows| - 1], ParamsIn(rows[..|rows| - 1], id);
      if r.id == id then before[r.param := r.value] else before
  }

  function IdsIn(rows: seq<Row>): (ids: seq<nat>)
    ensures forall id :: id in ids <==> exists i :: 0 <= i < |rows| && rows[i].id == id
  {
    if rows == [] then []
    else
      var r, before := rows[|rows| - 1], IdsIn(rows[..|rows| - 1]);
      if r.id in before then before else before + [r.id]
  }

  function SectionIn(rows: seq<Row>, id: nat): string {
    if rows == [] then "" else if rows[0].id == id then rows[0].section else SectionIn(rows[1..], id)
  }

  lemma {:induction false} SectionInExtends(rows: seq<Row>, r: Row, id: nat)
    ensures id in IdsIn(rows) ==> SectionIn(rows + [r], id) == SectionIn(rows, id)
    ensures id !in IdsIn(rows) && r.id == id ==> SectionIn(rows + [r], id) == r.section
  {
    if rows != [] {
      assert (rows + [r])[1..] == rows[1..] + [r];
      SectionInExtends(rows[1..], r, id);
      IdsInTail(rows, id);
    }
  }

  lemma IdsInTail(rows: seq<Row>, id: nat)
    requires rows != []
    ensures id in IdsIn(rows) <==> rows[0].id == id || id in IdsIn(rows[1..])
  {
    if id in IdsIn(rows) && rows[0].id != id {
      var i :| 0 <= i < |rows| && rows[i].id == id;
      assert rows[1..][i - 1].id == id;
    }
    if id in IdsIn(rows[1..]) {
      var i :| 0 <= i < |rows[1..]| && rows[1..][i].id == id;
      assert rows[i + 1].id == id;
    }
  }

  function Entry(rows: seq<Row>, id: nat): Grouped { Grouped(SectionIn(rows, id), ParamsIn(rows, id)) }

  lemma EntryExtends(rows: seq<Row>, r: Row, id: nat)
    requires id in IdsIn(rows) || id == r.id
    ensures Entry(rows + [r], id)
            == if id != r.id then Entry(rows, id)
               else Grouped(if id in IdsIn(rows) then SectionIn(rows, id) else r.section,
                            ParamsIn(rows, id)[r.param := r.value])
  {
    SectionInExtends(rows, r, id);
    assert (rows + [r])[..|rows|] == rows;
  }

  /** The messages shaped so far: ids in order of appearance, each with its section and parameters. */
  ghost predicate Shaped(rows: seq<Row>, order: seq<nat>, messages: map<nat, Grouped>) {
    && order == IdsIn(rows)
    && (forall id :: id in messages <==> id in order)
    && (forall id :: id in order ==> messages[id] == Entry(rows, id))
  }

  /** The entry a row adds its parameter to. */
  function Open(messages: map<nat, Grouped>, row: Row): Grouped {
    if row.id in messages then messages[row.id] else Grouped(row.section, map[])
  }

  function WithParam(g: Grouped, row: Row): Grouped { g.(params := g.params[row.param := row.value]) }

  lemma ShapedNext(rows: seq<Row>, i: nat, order: seq<nat>, messages: map<nat, Grouped>)
    requires i < |rows| && Shaped(rows[..i], order, messages)
    ensures Shaped(rows[..i + 1], if rows[i].id in messages then order else order + [rows[i].id],
                   messages[rows[i].id := WithParam(Open(messages, rows[i]), rows[i])])
  {
    assert rows[..i + 1] == rows[..i] + [rows[i]];
    ShapedStep(rows[..i], rows[i], order, messages);
  }

  lemma ShapedStep(rows: seq<Row>, row: Row, order: seq<nat>, messages: map<nat, Grouped>)
    requires Shaped(rows, order, messages)
    ensures Shaped(rows + [row], if row.id in messages then order else order + [row.id],
                   messages[row.id := WithParam(Open(messages, row), row)])
  {
    assert (rows + [row])[..|rows|] == rows;
    var order' := if row.id in messages then order else order + [row.id];
    var messages' := messages[row.id := WithParam(Open(messages, row), row)];
    forall id | id in order' ensures messages'[id] == Entry(rows + [row], id) {
      EntryExtends(rows, row, id);
      if id !in order { NoParams(rows, id); }
    }
  }

  /** One row: the entry of its message is made when it is the first, and gets the parameter. */
  method AddRow(row: Row, order: seq<nat>, messages: map<nat, Grouped>) returns (order': seq<nat>, messages': map<nat, Grouped>)
    ensures order' == if row.id in messages then order else order + [row.id]
    ensures messages' == messages[row.id := WithParam(Open(messages, row), row)]
  {
    order', messages' := order, messages;
    if row.id !in messages {
      order' := order + [row.id];
      messages' := messages[row.id := Grouped(row.section, map[])];
    }
    messages' := messages'[row.id := WithParam(messages'[row.id], row)];
  }

  /** Shapes the rows: one entry per message in row order, a later parameter of the same label over an earlier one. */
  method Group(rows: seq<Row>) returns (order: seq<nat>, messages: map<nat, Grouped>)
    ensures Shaped(rows, order, messages)
  {
    order, messages := [], map[];
    for i := 0 to |rows|
      invariant Shaped(rows[..i], order, messages)
    {
      ShapedNext(rows, i, order, messages);
      order, messages := AddRow(rows[i], order, messages);
    }
    assert rows[..|rows|] == rows;
  }

  lemma {:induction false} NoParams(rows: seq<Row>, id: nat)
    requires id !in IdsIn(rows)
    ensures ParamsIn(rows, id) == map[]
  {
    if rows != [] {
      assert rows[|rows| - 1].id != id;
      NoParams(rows[..|rows| - 1], id);
    }
  }

  // ---- The positional encoding and its decoding ----

  /** PHP's empty() on a label. */
  predicate Blank(s: string) { s == "" || s == "0" }

  function Positional(format: seq<string>, params: map<string, Option<string>>): (r: seq<string>)
    ensures |r| == |format|
    ensures forall i :: 0 <= i < |r| ==> r[i] == Encoded(format[i], params)
  {
    seq(|format|, i requires 0 <= i < |format| => Encoded(format[i], params))
  }

  function Encoded(tag: string, params: map<string, Option<string>>): string {
    if Blank(tag) || tag !in params then "" else params[tag].GetOr("")
  }

  /** What fiasRunProcess starts: nothing when an argument holds a NUL. */
  function Started(argv: seq<string>): Option<seq<string>> { if NulFree(argv) then Some(argv) else None }

  predicate NulFree(argv: seq<string>) { forall i :: 0 <= i < |argv| ==> LegacyCommand.NUL !in argv[i] }

  /** A message handed to its section: the handler's argv, none when it could not be started. */
  datatype Launch = Launch(id: nat, argv: Option<seq<string>>)

  /** What a round does with one message: nothing without its section; LR2PBX is only marked. */
  function Handle(ini: seq<Section>, id: nat, g: Grouped): (Option<Launch>, bool) {
    if g.section == "LR2PBX" then (None, true)
    else if Named(ini, g.section).None? then (None, false)
    else
      var s := Named(ini, g.section).value;
      var argv := match Words(s)
        case Some(command) => Started(command + Positional(Split(s.format, '_'), g.params))
        case None => None;
      (Some(Launch(id, argv)), true)
  }

  function Launches(ini: seq<Section>, rows: seq<Row>, ids: seq<nat>): seq<Launch> {
    if ids == [] then []
    else
      var id := ids[|ids| - 1];
      var (l, _) := Handle(ini, id, Entry(rows, id));
      Launches(ini, rows, ids[..|ids| - 1]) + (if l.Some? then [l.value] else [])
  }

  function Marked(messages: seq<MessageRow>, ids: set<nat>): (r: seq<MessageRow>)
    ensures |r| == |messages|
    ensures forall i :: 0 <= i < |r| ==> r[i] == messages[i].(done := messages[i].done || messages[i].id in ids)
  {
    seq(|messages|, i requires 0 <= i < |messages| =>
      messages[i].(done := messages[i].done || messages[i].id in ids))
  }

  function HandledIds(ini: seq<Section>, rows: seq<Row>, ids: seq<nat>): set<nat> {
    if ids == [] then {}
    else
      var id := ids[|ids| - 1];
      HandledIds(ini, rows, ids[..|ids| - 1]) + (if Handle(ini, id, Entry(rows, id)).1 then {id} else {})
  }

  lemma MarkedTwice(messages: seq<MessageRow>, a: set<nat>, b: set<nat>)
    ensures Marked(Marked(messages, a), b) == Marked(messages, a + b)
  {
  }

  lemma MarkedNone(messages: seq<MessageRow>)
    ensures Marked(messages, {}) == messages
  {
  }

  /** fiasRunProcess, up to the start of the process. */
  method RunProcess(argv: seq<string>) returns (started: bool)
    ensures started <==> NulFree(argv)
  {
    for i := 0 to |argv|
      invariant NulFree(argv[..i])
    {
      if LegacyCommand.NUL in argv[i] { return false; }
      assert argv[..i + 1] == argv[..i] + [argv[i]];
    }
    assert argv[..|argv|] == argv;
    started := true;
  }

  /** The body of the loop over the grouped messages: the handler started if it can be, then the message marked. */
  method HandleMessage(db: Database, ini: seq<Section>, id: nat, g: Grouped) returns (launched: Option<Launch>)
    modifies db
    ensures launched == Handle(ini, id, g).0
    ensures db.tables == old(db.tables).(messages :=
              Marked(old(db.tables.messages), if Handle(ini, id, g).1 then {id} else {}))
  {
    MarkedNone(db.tables.messages);
    launched := None;
    if g.section == "LR2PBX" {
      db.tables := db.tables.(messages := Marked(db.tables.messages, {id}));
      return;
    }
    var s := Named(ini, g.section);
    if s.None? { return; }
    launched := Some(Launch(id, None));
    if s.value.command.Some? {
      var command := LegacyCommand.BuildCommand(s.value.command.value, map[]);
      if command.Done? {
        var argv := AppendArguments(command.value, Split(s.value.format, '_'), g.params);
        var started := RunProcess(argv);
        if started { launched := Some(Launch(id, Some(argv))); }
      }
    }
    db.tables := db.tables.(messages := Marked(db.tables.messages, {id}));
  }

  lemma LaunchesStep(ini: seq<Section>, rows: seq<Row>, ids: seq<nat>, id: nat)
    ensures Launches(ini, rows, ids + [id])
            == Launches(ini, rows, ids)
               + match Handle(ini, id, Entry(rows, id)).0 case Some(l) => [l] case None => []
    ensures HandledIds(ini, rows, ids + [id])
            == HandledIds(ini, rows, ids) + if Handle(ini, id, Entry(rows, id)).1 then {id} else {}
  {
    assert (ids + [id])[..|ids|] == ids;
  }

  /** What a round starts, and what it leaves in the tables. */
  function LaunchesOf(ini: seq<Section>, t: Tables): seq<Launch> {
    var rows := Joined(t.messages, t.params);
    Launches(ini, rows, IdsIn(rows))
  }

  function AfterRound(ini: seq<Section>, t: Tables): Tables {
    var rows := Joined(t.messages, t.params);
    t.(messages := Marked(t.messages, HandledIds(ini, rows, IdsIn(rows))))
  }

  /** One turn of the dispatcher's endless loop, the handlers' outcomes left aside. */
  method Round(db: Database, ini: seq<Section>) returns (launched: seq<Launch>)
    modifies db
    ensures launched == LaunchesOf(ini, old(db.tables)) && db.tables == AfterRound(ini, old(db.tables))
  {
    var rows := Joined(db.tables.messages, db.tables.params);
    var order, messages := Group(rows);
    launched := [];
    MarkedNone(db.tables.messages);
    for i := 0 to |order|
      invariant launched == Launches(ini, rows, order[..i])
      invariant db.tables == old(db.tables).(messages :=
                  Marked(old(db.tables.messages), HandledIds(ini, rows, order[..i])))
    {
      assert order[..i + 1] == order[..i] + [order[i]];
      LaunchesStep(ini, rows, order[..i], order[i]);
      var l := HandleMessage(db, ini, order[i], messages[order[i]]);
      MarkedTwice(old(db.tables.messages), HandledIds(ini, rows, order[..i]),
                  if Handle(ini, order[i], Entry(rows, order[i])).1 then {order[i]} else {});
      if l.Some? { launched := launched + [l.value]; }
    }
    assert order[..|order|] == order;
  }

  /** The loop over the format. */
  method AppendArguments(command: seq<string>, format: seq<string>, params: map<string, Option<string>>)
    returns (argv: seq<string>)
    ensures argv == command + Positional(format, params)
  {
    argv := command;
    for i := 0 to |format|
      invariant argv == command + Positional(format, params)[..i]
    {
      var tag := format[i];
      if Blank(tag) || tag !in params || params[tag].None? {
        argv := argv + [""];
      } else {
        argv := argv + [params[tag].value];
      }
    }
  }

  function Decoded(format: seq<string>, args: seq<string>): map<string, string> {
    if format == [] then map[]
    else
      var n := |format| - 1;
      var before := Decoded(format[..n], args);
      if !Blank(format[n]) && n + 1 < |args| then before[format[n] := args[n + 1]] else before
  }

  /** getArguments: the labels of the format against the arguments from the first on. */
  method GetArguments(format: seq<string>, args: seq<string>) returns (arguments: map<string, string>)
    ensures arguments == Decoded(format, args)
  {
    arguments := map[];
    var c := 1;
    for i := 0 to |format|
      invariant c == i + 1 && arguments == Decoded(format[..i], args)
    {
      var tag := format[i];
      assert format[..i + 1][..i] == format[..i];
      if !Blank(tag) && c < |args| {
        arguments := arguments[tag := args[c]];
      }
      c := c + 1;
    }
    assert format[..|format|] == format;
  }

  // ---- The handler finds its own format ----

  /** array_search: the first section that has this path, alone, as its command. */
  function ByCommand(ini: seq<Section>, path: string): Option<Section> {
    if ini == [] then None
    else if ini[0].command == Some(LegacyCommand.Line(path)) then Some(ini[0])
    else ByCommand(ini[1..], path)
  }

  /** The format a handler at this path reads its arguments by. Without a section of its own it looks under false,
      which is the key 0, and finds no label. */
  function HandlerFormat(ini: seq<Section>, path: string): seq<string> {
    match ByCommand(ini, path)
    case Some(s) => Split(s.format, '_')
    case None => (match Named(ini, "0") case Some(s) => Split(s.format, '_') case None => [""])
  }

  /** basename, of a path that does not end with a slash. */
  function Basename(path: string): string
    decreases |path|
  {
    if path == "" || path[|path| - 1] == '/' then "" else Basename(path[..|path| - 1]) + [path[|path| - 1]]
  }

  /** A handler: the directory of its file, and its place among the words it is started with. The words before it, an
      interpreter and its options, PHP does not hand on. */
  datatype Script = Script(dir: string, at: nat)

  function PathOf(script: Script, words: seq<string>): string
    requires script.at < |words|
  {
    script.dir + "/" + Basename(words[script.at])
  }

  /** The first two lines of every handler: its arguments when it is started as argv. */
  function HandlerArguments(ini: seq<Section>, script: Script, argv: seq<string>): map<string, string>
    requires script.at < |argv|
  {
    Decoded(HandlerFormat(ini, PathOf(script, argv)), argv[script.at..])
  }

  // ---- When the handler reads what the dispatcher wrote ----

  /** The last place of a label, or -1. */
  function Last(format: seq<string>, tag: string): (k: int)
    ensures -1 <= k < |format|
    ensures k >= 0 ==> format[k] == tag
  {
    if format == [] then -1
    else if format[|format| - 1] == tag then |format| - 1
    else Last(format[..|format| - 1], tag)
  }

  lemma {:induction false} LastFinds(format: seq<string>, tag: string)
    ensures Last(format, tag) >= 0 <==> tag in format
    ensures forall i :: Last(format, tag) < i < |format| ==> format[i] != tag
  {
    if format != [] {
      assert format == format[..|format| - 1] + [format[|format| - 1]];
      LastFinds(format[..|format| - 1], tag);
    }
  }

  function Upto(format: seq<string>, n: nat): seq<string> { if n < |format| then format[..n] else format }

  lemma {:induction false} DecodedAt(format: seq<string>, args: seq<string>, tag: string)
    requires args != []
    ensures var k := Last(Upto(format, |args| - 1), tag);
      && (tag in Decoded(format, args) <==> !Blank(tag) && k >= 0)
      && (tag in Decoded(format, args) ==> Decoded(format, args)[tag] == args[k + 1])
  {
    if format != [] {
      var n := |format| - 1;
      DecodedAt(format[..n], args, tag);
      if n < |args| - 1 {
        assert Upto(format, |args| - 1) == format && Upto(format[..n], |args| - 1) == format[..n];
      } else {
        assert Upto(format, |args| - 1) == Upto(format[..n], |args| - 1);
      }
    }
  }

  /** A label is met, the last time, by its own value: the dispatcher sends `extra` words before the values. */
  predicate LabelAligned(read: seq<string>, extra: nat, sent: seq<string>, tag: string) {
    var k := Last(Upto(read, extra + |sent|), tag);
    if k < 0 then tag !in sent else k >= extra && sent[k - extra] == tag
  }

  /** The handler's format against the dispatcher's. */
  predicate Aligned(read: seq<string>, extra: nat, sent: seq<string>) {
    forall tag <- read + sent :: !Blank(tag) ==> LabelAligned(read, extra, sent, tag)
  }

  /** What the handler is meant to read: each label with its value. */
  function Wanted(format: seq<string>, params: map<string, Option<string>>): map<string, string> {
    map tag | tag in format && !Blank(tag) :: Encoded(tag, params)
  }

  function ReadBack(read: seq<string>, words: seq<string>, sent: seq<string>, params: map<string, Option<string>>)
    : map<string, string>
  {
    Decoded(read, words + Positional(sent, params))
  }

  lemma AlignedLabel(read: seq<string>, extra: nat, sent: seq<string>, tag: string)
    requires Aligned(read, extra, sent) && !Blank(tag)
    ensures LabelAligned(read, extra, sent, tag)
  {
    LastFinds(Upto(read, extra + |sent|), tag);
    if tag in read || tag in sent { assert tag in read + sent; }
  }

  /** The argument at place k: a word of the command, or a value. */
  function ArgAt(words: seq<string>, sent: seq<string>, params: map<string, Option<string>>, k: nat): string
    requires words != [] && k < |words| - 1 + |sent|
  {
    if k < |words| - 1 then words[k + 1] else Encoded(sent[k - (|words| - 1)], params)
  }

  lemma ArgsAt(words: seq<string>, sent: seq<string>, params: map<string, Option<string>>, k: nat)
    requires words != [] && k < |words| - 1 + |sent|
    ensures (words + Positional(sent, params))[k + 1] == ArgAt(words, sent, params, k)
  {
  }

  /** What is read for one label: nothing, or the argument at its last place. */
  lemma ReadAt(read: seq<string>, words: seq<string>, sent: seq<string>, params: map<string, Option<string>>, tag: string)
    requires words != []
    ensures var k, got := Last(Upto(read, |words| - 1 + |sent|), tag), ReadBack(read, words, sent, params);
      if Blank(tag) || k < 0 then tag !in got else tag in got && got[tag] == ArgAt(words, sent, params, k)
  {
    var args := words + Positional(sent, params);
    assert |args| - 1 == |words| - 1 + |sent|;
    DecodedAt(read, args, tag);
    var k := Last(Upto(read, |args| - 1), tag);
    if k >= 0 { ArgsAt(words, sent, params, k); }
  }

  lemma WantedAt(sent: seq<string>, params: map<string, Option<string>>, tag: string)
    ensures if tag in sent && !Blank(tag) then tag in Wanted(sent, params) && Wanted(sent, params)[tag] == Encoded(tag, params)
            else tag !in Wanted(sent, params)
  {
  }

  lemma AlignedAt(read: seq<string>, words: seq<string>, sent: seq<string>, params: map<string, Option<string>>, tag: string)
    requires words != [] && Aligned(read, |words| - 1, sent)
    ensures SameAt(ReadBack(read, words, sent, params), Wanted(sent, params), tag)
  {
    ReadAt(read, words, sent, params, tag);
    WantedAt(sent, params, tag);
    if !Blank(tag) {
      AlignedLabel(read, |words| - 1, sent, tag);
      LabelValue(read, words, sent, params, tag);
    }
  }

  lemma LabelValue(read: seq<string>, words: seq<string>, sent: seq<string>, params: map<string, Option<string>>, tag: string)
    requires words != [] && LabelAligned(read, |words| - 1, sent, tag)
    ensures var k := Last(Upto(read, |words| - 1 + |sent|), tag);
      if k < 0 then tag !in sent else tag in sent && ArgAt(words, sent, params, k) == Encoded(tag, params)
  {
  }

  lemma AlignedReads(read: seq<string>, words: seq<string>, sent: seq<string>, params: map<string, Option<string>>)
    requires words != [] && Aligned(read, |words| - 1, sent)
    ensures ReadBack(read, words, sent, params) == Wanted(sent, params)
  {
    forall tag ensures SameAt(ReadBack(read, words, sent, params), Wanted(sent, params), tag) {
      AlignedAt(read, words, sent, params, tag);
    }
    SameMaps(ReadBack(read, words, sent, params), Wanted(sent, params));
  }

  predicate SameAt(a: map<string, string>, b: map<string, string>, tag: string) {
    if tag in a then tag in b && a[tag] == b[tag] else tag !in b
  }

  lemma SameMaps(a: map<string, string>, b: map<string, string>)
    requires forall tag :: SameAt(a, b, tag)
    ensures a == b
  {
    assert forall tag <- a.Keys :: SameAt(a, b, tag);
    assert forall tag <- b.Keys :: SameAt(a, b, tag);
  }

  /** With a format that is not aligned some message of one parameter, without NUL, is misread. */
  lemma MisalignedMisreads(read: seq<string>, words: seq<string>, sent: seq<string>) returns (tag: string, value: string)
    requires words != [] && !Aligned(read, |words| - 1, sent)
    ensures LegacyCommand.NUL !in value
    ensures ReadBack(read, words, sent, map[tag := Some(value)]) != Wanted(sent, map[tag := Some(value)])
  {
    tag :| tag in read + sent && !Blank(tag) && !LabelAligned(read, |words| - 1, sent, tag);
    value := OtherValue(read, words, sent, tag);
    LabelMisread(read, words, sent, tag, value);
  }

  /** A value that is not the word the label is met by. */
  lemma OtherValue(read: seq<string>, words: seq<string>, sent: seq<string>, tag: string) returns (value: string)
    requires words != []
    ensures LegacyCommand.NUL !in value && value != ""
    ensures var k := Last(Upto(read, |words| - 1 + |sent|), tag); 0 <= k < |words| - 1 ==> value != words[k + 1]
  {
    var k := Last(Upto(read, |words| - 1 + |sent|), tag);
    value := "x";
    if 0 <= k < |words| - 1 && words[k + 1] == "x" { value := "y"; }
  }

  /** Another argument than the one value. */
  lemma OtherArgument(words: seq<string>, sent: seq<string>, tag: string, value: string, k: nat)
    requires words != [] && k < |words| - 1 + |sent| && !Blank(tag) && value != ""
    requires if k < |words| - 1 then words[k + 1] != value else sent[k - (|words| - 1)] != tag
    ensures var params := map[tag := Some(value)]; ArgAt(words, sent, params, k) != Encoded(tag, params)
  {
  }

  /** A label that is not met by its own value: sent and not read, or read from another place. */
  lemma NotMet(read: seq<string>, words: seq<string>, sent: seq<string>, tag: string, value: string) returns (k: int)
    requires words != [] && !Blank(tag) && !LabelAligned(read, |words| - 1, sent, tag) && value != ""
    requires var k := Last(Upto(read, |words| - 1 + |sent|), tag); 0 <= k < |words| - 1 ==> value != words[k + 1]
    ensures k == Last(Upto(read, |words| - 1 + |sent|), tag) < |words| - 1 + |sent|
    ensures k < 0 ==> tag in sent
    ensures k >= 0 ==> ArgAt(words, sent, map[tag := Some(value)], k) != Encoded(tag, map[tag := Some(value)])
  {
    k := Last(Upto(read, |words| - 1 + |sent|), tag);
    if k >= 0 { OtherArgument(words, sent, tag, value, k); }
  }

  lemma Differ(got: map<string, string>, wanted: map<string, string>, tag: string)
    requires !SameAt(got, wanted, tag)
    ensures got != wanted
  {
  }

  lemma LabelMisread(read: seq<string>, words: seq<string>, sent: seq<string>, tag: string, value: string)
    requires words != [] && !Blank(tag) && !LabelAligned(read, |words| - 1, sent, tag) && value != ""
    requires var k := Last(Upto(read, |words| - 1 + |sent|), tag); 0 <= k < |words| - 1 ==> value != words[k + 1]
    ensures ReadBack(read, words, sent, map[tag := Some(value)]) != Wanted(sent, map[tag := Some(value)])
  {
    var params := map[tag := Some(value)];
    assert !SameAt(ReadBack(read, words, sent, params), Wanted(sent, params), tag) by {
      var k := NotMet(read, words, sent, tag, value);
      ReadAt(read, words, sent, params, tag);
      WantedAt(sent, params, tag);
    }
    Differ(ReadBack(read, words, sent, params), Wanted(sent, params), tag);
  }

  /** The handler reads what was meant, whatever the parameters, if and only if the formats are aligned. */
  lemma ReadsIffAligned(read: seq<string>, words: seq<string>, sent: seq<string>)
    requires words != []
    ensures (forall params :: ReadBack(read, words, sent, params) == Wanted(sent, params))
            <==> Aligned(read, |words| - 1, sent)
  {
    if Aligned(read, |words| - 1, sent) {
      forall params ensures ReadBack(read, words, sent, params) == Wanted(sent, params) {
        AlignedReads(read, words, sent, params);
      }
    } else {
      var tag, value := MisalignedMisreads(read, words, sent);
    }
  }

  /** Labels, each once. */
  predicate Plain(format: seq<string>) {
    && (forall i :: 0 <= i < |format| ==> !Blank(format[i]))
    && (forall i, j :: 0 <= i < j < |format| ==> format[i] != format[j])
  }

  lemma LastPlain(format: seq<string>, n: nat, i: nat)
    requires Plain(format) && i < |format|
    ensures Last(Upto(format, n), format[i]) == if i < n then i else -1
  {
    LastFinds(Upto(format, n), format[i]);
    if i < n { assert Upto(format, n)[i] == format[i]; }
  }

  /** For formats that name each label once: no word but the script's path, and a format that starts with the section's. */
  lemma AlignedPlain(read: seq<string>, extra: nat, sent: seq<string>)
    requires Plain(sent) && sent != [] && (Plain(read) || read == [""])
    ensures Aligned(read, extra, sent) <==> extra == 0 && sent <= read
  {
    if read == [""] {
      if Aligned(read, extra, sent) { AlignedLabel(read, extra, sent, sent[0]); }
      LastFinds(Upto(read, extra + |sent|), sent[0]);
    } else {
      if Aligned(read, extra, sent) {
        forall i | 0 <= i < |sent| ensures extra == 0 && i < |read| && read[i] == sent[i] {
          AlignedPlace(read, extra, sent, i);
        }
        AlignedPlace(read, extra, sent, |sent| - 1);
      } else if extra == 0 && sent <= read {
        PrefixAligned(read, sent);
      }
    }
  }

  lemma PrefixAligned(read: seq<string>, sent: seq<string>)
    requires sent <= read
    ensures Aligned(read, 0, sent)
  {
    assert Upto(read, |sent|) == sent;
    forall tag | tag in read + sent && !Blank(tag) ensures LabelAligned(read, 0, sent, tag) {
      LastFinds(sent, tag);
    }
  }

  lemma AlignedPlace(read: seq<string>, extra: nat, sent: seq<string>, i: nat)
    requires Plain(sent) && Plain(read) && Aligned(read, extra, sent) && i < |sent|
    ensures extra == 0 && i < |read| && read[i] == sent[i]
  {
    var tag := sent[i];
    AlignedLabel(read, extra, sent, tag);
    LastFinds(Upto(read, extra + |sent|), tag);
    if extra > 0 {
      AlignedLabel(read, extra, sent, read[0]);
      LastPlain(read, extra + |sent|, 0);
    }
  }

  /** The value of the last parameter with this label; the empty text when there is none, or it is null. */
  function LastValue(params: seq<Param>, tag: string): string {
    if params == [] then ""
    else if params[|params| - 1].key == tag then params[|params| - 1].value.GetOr("")
    else LastValue(params[..|params| - 1], tag)
  }

  lemma {:induction false} GroupedLast(m: MessageRow, params: seq<Param>, tag: string)
    requires !Blank(tag)
    ensures Encoded(tag, ParamsIn(RowsFor(m, params), m.id)) == LastValue(params, tag)
  {
    if params != [] {
      var before := params[..|params| - 1];
      assert RowsFor(m, params)[..|params| - 1] == RowsFor(m, before);
      GroupedLast(m, before, tag);
    }
  }

  lemma {:induction false} ParamsInConcat(a: seq<Row>, b: seq<Row>, id: nat)
    ensures ParamsIn(a + b, id) == ParamsIn(a, id) + ParamsIn(b, id)
  {
    if b == [] {
      Text.Unit(a);
    } else {
      var n := |b| - 1;
      assert (a + b)[..|a + b| - 1] == a + b[..n];
      ParamsInConcat(a, b[..n], id);
    }
  }

  lemma {:induction false} JoinedAway(messages: seq<MessageRow>, params: seq<ParamRow>, id: nat)
    requires forall i :: 0 <= i < |messages| ==> messages[i].id != id
    ensures ParamsIn(Joined(messages, params), id) == map[]
  {
    if messages != [] {
      JoinedAway(messages[1..], params, id);
      OwnFirst(messages, params, id);
      NoParams(OwnRows(messages[0], params), id);
    }
  }

  lemma OwnFirst(messages: seq<MessageRow>, params: seq<ParamRow>, id: nat)
    requires messages != []
    ensures ParamsIn(Joined(messages, params), id)
            == ParamsIn(OwnRows(messages[0], params), id) + ParamsIn(Joined(messages[1..], params), id)
  {
    ParamsInConcat(OwnRows(messages[0], params), Joined(messages[1..], params), id);
  }

  lemma NoMore(m: map<string, Option<string>>)
    ensures m + map[] == m && map[] + m == m
  {
  }

  lemma {:induction false} JoinedOwn(messages: seq<MessageRow>, params: seq<ParamRow>, k: nat)
    requires k < |messages| && forall i :: 0 <= i < |messages| && i != k ==> messages[i].id != messages[k].id
    ensures ParamsIn(Joined(messages, params), messages[k].id) == ParamsIn(OwnRows(messages[k], params), messages[k].id)
  {
    var m, rest := messages[k], messages[1..];
    OwnFirst(messages, params, m.id);
    if k == 0 {
      JoinedAway(rest, params, m.id);
      NoMore(ParamsIn(OwnRows(m, params), m.id));
    } else {
      assert rest[k - 1] == m;
      JoinedOwn(rest, params, k - 1);
      NoParams(OwnRows(messages[0], params), m.id);
      NoMore(ParamsIn(Joined(rest, params), m.id));
    }
  }

  // ---- Main result ----

  lemma {:induction false} SectionInOwn(messages: seq<MessageRow>, params: seq<ParamRow>, k: nat)
    requires k < |messages| && OwnRows(messages[k], params) != []
    requires forall i :: 0 <= i < |messages| && i != k ==> messages[i].id != messages[k].id
    ensures SectionIn(Joined(messages, params), messages[k].id) == messages[k].cmd + "2" + messages[k].dir
  {
    var own, rest := OwnRows(messages[0], params), Joined(messages[1..], params);
    if k == 0 {
      assert (own + rest)[0] == own[0];
    } else {
      SectionInOwn(messages[1..], params, k - 1);
      SectionInSkip(own, rest, messages[k].id);
    }
  }

  lemma {:induction false} SectionInSkip(a: seq<Row>, b: seq<Row>, id: nat)
    requires forall i :: 0 <= i < |a| ==> a[i].id != id
    ensures SectionIn(a + b, id) == SectionIn(b, id)
  {
    if a == [] {
      assert a + b == b;
    } else {
      assert (a + b)[0] == a[0] && (a + b)[1..] == a[1..] + b;
      SectionInSkip(a[1..], b, id);
    }
  }

  /** A message of a command waits in the table, with a parameter at least. */
  ghost predicate Waiting(t: Tables, k: nat, cmd: string) {
    && WellFormed(t) && k < |t.messages| && !t.messages[k].done && t.messages[k].dir == "PBX"
    && t.messages[k].cmd == cmd && ParamsOf(t.params, t.messages[k].id) != []
  }

  /** The values stored for the labels of a format: of each label the last, and nothing where there is none. */
  function StoredValues(t: Tables, id: nat, format: seq<string>): map<string, string> {
    map tag | tag in format && !Blank(tag) :: LastValue(ParamsOf(t.params, id), tag)
  }

  lemma StoredSection(t: Tables, k: nat, cmd: string)
    requires Waiting(t, k, cmd)
    ensures SectionIn(Joined(t.messages, t.params), t.messages[k].id) == cmd + "2PBX"
  {
    assert RowsFor(t.messages[k], ParamsOf(t.params, t.messages[k].id)) != [];
    SectionInOwn(t.messages, t.params, k);
    assert cmd + "2" + "PBX" == cmd + "2PBX";
  }

  lemma StoredValue(t: Tables, k: nat, cmd: string, tag: string)
    requires Waiting(t, k, cmd) && !Blank(tag)
    ensures var id := t.messages[k].id;
      Encoded(tag, ParamsIn(Joined(t.messages, t.params), id)) == LastValue(ParamsOf(t.params, id), tag)
  {
    JoinedOwn(t.messages, t.params, k);
    GroupedLast(t.messages[k], ParamsOf(t.params, t.messages[k].id), tag);
  }

  lemma StoredAreWanted(t: Tables, k: nat, cmd: string, format: seq<string>)
    requires Waiting(t, k, cmd)
    ensures var rows, id := Joined(t.messages, t.params), t.messages[k].id;
      Wanted(format, ParamsIn(rows, id)) == StoredValues(t, id, format)
  {
    var rows, id := Joined(t.messages, t.params), t.messages[k].id;
    forall tag | tag in format && !Blank(tag) ensures Encoded(tag, ParamsIn(rows, id)) == LastValue(ParamsOf(t.params, id), tag) {
      StoredValue(t, k, cmd, tag);
    }
  }

  /** What the dispatcher does with the message in row k. */
  function Launched(ini: seq<Section>, t: Tables, id: nat): Option<Launch> {
    Handle(ini, id, Entry(Joined(t.messages, t.params), id)).0
  }

  /** The handler started for a message reads each label of the section's format with its stored value. */
  predicate Served(ini: seq<Section>, script: Script, t: Tables, id: nat, format: string) {
    match Launched(ini, t, id)
    case Some(Launch(_, Some(argv))) =>
      script.at < |argv| && HandlerArguments(ini, script, argv) == StoredValues(t, id, Split(format, '_'))
    case _ => false
  }

  /** No value that the format asks for holds a NUL. */
  predicate ValuesNulFree(t: Tables, id: nat, format: seq<string>) {
    forall tag <- format :: !Blank(tag) ==> LegacyCommand.NUL !in LastValue(ParamsOf(t.params, id), tag)
  }

  /** In every table, a message of the command is served if and only if no value its section asks for holds a NUL. */
  ghost predicate AllServed(ini: seq<Section>, script: Script, cmd: string, format: string) {
    forall t, k: nat :: Waiting(t, k, cmd) ==>
      (Served(ini, script, t, t.messages[k].id, format) <==> ValuesNulFree(t, t.messages[k].id, Split(format, '_')))
  }

  /** The section of a command, and the words it starts its handler with, the script among them. */
  predicate Configures(ini: seq<Section>, cmd: string, s: Section, words: seq<string>, script: Script) {
    Named(ini, cmd + "2PBX") == Some(s) && cmd != "LR" && Words(s) == Some(words) && script.at < |words|
  }

  /** The format by which the handler of a section reads. */
  function ReadFormat(ini: seq<Section>, script: Script, words: seq<string>): seq<string>
    requires script.at < |words|
  {
    HandlerFormat(ini, PathOf(script, words))
  }

  predicate AlignedSection(ini: seq<Section>, script: Script, s: Section, words: seq<string>)
    requires script.at < |words|
  {
    Aligned(ReadFormat(ini, script, words), |words[script.at..]| - 1, Split(s.format, '_'))
  }

  lemma NotLR(cmd: string)
    requires cmd != "LR"
    ensures cmd + "2PBX" != "LR2PBX"
  {
    if |cmd| == 2 {
      assert cmd == [cmd[0], cmd[1]];
      assert (cmd + "2PBX")[0] == cmd[0] && (cmd + "2PBX")[1] == cmd[1];
    }
  }

  /** The words of a section hold no NUL. */
  lemma WordsNulFree(s: Section)
    requires Words(s).Some?
    ensures NulFree(Words(s).value)
  {
    LegacyCommand.BuildKeepsShape(s.command.value, map[]);
  }

  /** Nor do the values sent, exactly when those asked for do not. */
  lemma PositionalNulFree(sent: seq<string>, params: map<string, Option<string>>)
    ensures NulFree(Positional(sent, params))
            <==> forall tag <- sent :: !Blank(tag) ==> LegacyCommand.NUL !in Encoded(tag, params)
  {
    var values := Positional(sent, params);
    if NulFree(values) {
      forall tag | tag in sent && !Blank(tag) ensures LegacyCommand.NUL !in Encoded(tag, params) {
        var i :| 0 <= i < |sent| && sent[i] == tag;
        assert values[i] == Encoded(tag, params);
      }
    }
  }

  lemma NulFreeConcat(a: seq<string>, b: seq<string>)
    ensures NulFree(a + b) <==> NulFree(a) && NulFree(b)
  {
    if NulFree(a + b) {
      forall i | 0 <= i < |a| ensures LegacyCommand.NUL !in a[i] { assert (a + b)[i] == a[i]; }
      forall i | 0 <= i < |b| ensures LegacyCommand.NUL !in b[i] { assert (a + b)[|a| + i] == b[i]; }
    }
  }

  /** The parameters of a message as the dispatcher groups them. */
  function Grouping(t: Tables, id: nat): map<string, Option<string>> { ParamsIn(Joined(t.messages, t.params), id) }

  /** The argv of a waiting message's handler can be started exactly when its values hold no NUL. */
  lemma StartedIff(t: Tables, k: nat, cmd: string, s: Section, words: seq<string>)
    requires Waiting(t, k, cmd) && Words(s) == Some(words)
    ensures var id, sent := t.messages[k].id, Split(s.format, '_');
      NulFree(words + Positional(sent, Grouping(t, id))) <==> ValuesNulFree(t, id, sent)
  {
    var id, sent := t.messages[k].id, Split(s.format, '_');
    WordsNulFree(s);
    PositionalNulFree(sent, Grouping(t, id));
    NulFreeConcat(words, Positional(sent, Grouping(t, id)));
    forall tag | tag in sent && !Blank(tag) ensures Encoded(tag, Grouping(t, id)) == LastValue(ParamsOf(t.params, id), tag) {
      StoredValue(t, k, cmd, tag);
    }
  }

  lemma LaunchedAs(ini: seq<Section>, script: Script, t: Tables, k: nat, cmd: string, s: Section, words: seq<string>)
    requires Waiting(t, k, cmd) && Configures(ini, cmd, s, words, script)
    ensures var id := t.messages[k].id;
      Handle(ini, id, Entry(Joined(t.messages, t.params), id))
      == (Some(Launch(id, Started(words + Positional(Split(s.format, '_'), Grouping(t, id))))), true)
  {
    StoredSection(t, k, cmd);
    NotLR(cmd);
  }

  /** A waiting message is served exactly when its handler can be started, and its own parameters read back. */
  lemma ServedIffReadBack(ini: seq<Section>, script: Script, t: Tables, k: nat, cmd: string, s: Section, words: seq<string>)
    requires Waiting(t, k, cmd) && Configures(ini, cmd, s, words, script)
    ensures var id, read, sent := t.messages[k].id, ReadFormat(ini, script, words), Split(s.format, '_');
      Served(ini, script, t, id, s.format)
      <==> ValuesNulFree(t, id, sent) && ReadBack(read, words[script.at..], sent, Grouping(t, id)) == Wanted(sent, Grouping(t, id))
  {
    var id, sent := t.messages[k].id, Split(s.format, '_');
    StoredAreWanted(t, k, cmd, sent);
    StartedIff(t, k, cmd, s, words);
    LaunchedAs(ini, script, t, k, cmd, s, words);
    StartedReads(ini, script, words, Positional(sent, Grouping(t, id)));
  }

  lemma StartedReads(ini: seq<Section>, script: Script, words: seq<string>, values: seq<string>)
    requires script.at < |words|
    ensures HandlerArguments(ini, script, words + values)
            == Decoded(HandlerFormat(ini, PathOf(script, words)), words[script.at..] + values)
  {
    assert (words + values)[script.at..] == words[script.at..] + values;
  }

  /** A table with one waiting message of one parameter. */
  function OneMessage(cmd: string, tag: string, value: string): Tables {
    Tables([MessageRow(0, cmd, "PBX", false)], [ParamRow(0, tag, Some(value))], 1)
  }

  lemma OneWaits(cmd: string, tag: string, value: string)
    ensures Waiting(OneMessage(cmd, tag, value), 0, cmd)
    ensures Grouping(OneMessage(cmd, tag, value), 0) == map[tag := Some(value)]
  {
    var t := OneMessage(cmd, tag, value);
    assert t.params[1..] == [] && t.messages[1..] == [];
    assert ParamsOf(t.params, 0) == [Param(tag, Some(value))];
    var row := Row(0, cmd + "2" + "PBX", tag, Some(value));
    assert Joined(t.messages, t.params) == [row];
    assert [row][..0] == [] && ParamsIn([row][..0], 0) == map[];
    assert ParamsIn([row], 0) == ParamsIn([row][..0], 0)[tag := Some(value)];
  }

  /** Main result: a waiting message's handler gets, for every label of its section, the value stored last, exactly when
      none of these values holds a NUL; so it is for every message, if and only if the handler's format is aligned with
      the section's. */
  lemma HandlerGetsStoredValues(ini: seq<Section>, script: Script, cmd: string, s: Section, words: seq<string>)
    requires Configures(ini, cmd, s, words, script)
    ensures AllServed(ini, script, cmd, s.format) <==> AlignedSection(ini, script, s, words)
  {
    if AlignedSection(ini, script, s, words) { AlignedIsServed(ini, script, cmd, s, words);
    } else { MisalignedIsNot(ini, script, cmd, s, words); }
  }

  lemma AlignedIsServed(ini: seq<Section>, script: Script, cmd: string, s: Section, words: seq<string>)
    requires Configures(ini, cmd, s, words, script) && AlignedSection(ini, script, s, words)
    ensures AllServed(ini, script, cmd, s.format)
  {
    forall t, k: nat | Waiting(t, k, cmd)
      ensures Served(ini, script, t, t.messages[k].id, s.format) <==> ValuesNulFree(t, t.messages[k].id, Split(s.format, '_'))
    {
      AlignedServes(ini, script, t, k, cmd, s, words);
    }
  }

  lemma AlignedServes(ini: seq<Section>, script: Script, t: Tables, k: nat, cmd: string, s: Section, words: seq<string>)
    requires Waiting(t, k, cmd) && Configures(ini, cmd, s, words, script) && AlignedSection(ini, script, s, words)
    ensures Served(ini, script, t, t.messages[k].id, s.format) <==> ValuesNulFree(t, t.messages[k].id, Split(s.format, '_'))
  {
    ServedIffReadBack(ini, script, t, k, cmd, s, words);
    SectionReads(ini, script, s, words, Grouping(t, t.messages[k].id));
  }

  lemma SectionReads(ini: seq<Section>, script: Script, s: Section, words: seq<string>, params: map<string, Option<string>>)
    requires script.at < |words| && AlignedSection(ini, script, s, words)
    ensures ReadBack(ReadFormat(ini, script, words), words[script.at..], Split(s.format, '_'), params)
            == Wanted(Split(s.format, '_'), params)
  {
    AlignedReads(ReadFormat(ini, script, words), words[script.at..], Split(s.format, '_'), params);
  }

  lemma MisalignedIsNot(ini: seq<Section>, script: Script, cmd: string, s: Section, words: seq<string>)
    requires Configures(ini, cmd, s, words, script) && !AlignedSection(ini, script, s, words)
    ensures !AllServed(ini, script, cmd, s.format)
  {
    var tag, value := MisalignedMisreads(ReadFormat(ini, script, words), words[script.at..], Split(s.format, '_'));
    OneMisread(ini, script, cmd, s, words, tag, value);
  }

  /** A message of one parameter that does not read back is not served, NUL or not. */
  lemma OneMisread(ini: seq<Section>, script: Script, cmd: string, s: Section, words: seq<string>, tag: string, value: string)
    requires Configures(ini, cmd, s, words, script) && LegacyCommand.NUL !in value
    requires var params := map[tag := Some(value)];
      ReadBack(ReadFormat(ini, script, words), words[script.at..], Split(s.format, '_'), params) != Wanted(Split(s.format, '_'), params)
    ensures !AllServed(ini, script, cmd, s.format)
  {
    var t := OneMessage(cmd, tag, value);
    OneWaits(cmd, tag, value);
    ServedIffReadBack(ini, script, t, 0, cmd, s, words);
    OneValue(tag, value);
    assert ValuesNulFree(t, 0, Split(s.format, '_'));
    assert Waiting(t, 0, cmd) && t.messages[0].id == 0;
  }

  lemma OneValue(tag: string, value: string)
    ensures forall key :: LastValue([Param(tag, Some(value))], key) == if key == tag then value else ""
    ensures ParamsOf([ParamRow(0, tag, Some(value))], 0) == [Param(tag, Some(value))]
  {
    assert [Param(tag, Some(value))][..0] == [];
    assert [ParamRow(0, tag, Some(value))][1..] == [];
  }

  /** A received value that holds a NUL: a GI for room "12\0" is stored, and marked without its handler ever starting. */
  lemma NulStopsTheHandler(c: Config, ini: seq<Section>, script: Script, s: Section, words: seq<string>)
    requires c == Config('|', '\U{2}', '\U{3}')
    requires Configures(ini, "GI", s, words, script) && "RN" in Split(s.format, '_')
    ensures var value := ['1', '2', LegacyCommand.NUL];
      var t := OneMessage("GI", "RN", value);
      && Data(c, Message("GI", [Param("RN", Some(value))])) && Waiting(t, 0, "GI")
      && Handle(ini, 0, Entry(Joined(t.messages, t.params), 0)) == (Some(Launch(0, None)), true)
      && !Served(ini, script, t, 0, s.format)
  {
    var value := ['1', '2', LegacyCommand.NUL];
    assert value[2] == LegacyCommand.NUL;
    NulNotStarted(ini, script, "GI", s, words, "RN", value);
    NulIsData(c, value);
  }

  lemma NulIsData(c: Config, value: string)
    requires c == Config('|', '\U{2}', '\U{3}') && value == ['1', '2', LegacyCommand.NUL]
    ensures Data(c, Message("GI", [Param("RN", Some(value))]))
  {
    assert Clean(c, value) && Clean(c, "GI") && Clean(c, "RN");
    assert LabelOk("RN") && CommandOk("GI");
  }

  lemma NulNotStarted(ini: seq<Section>, script: Script, cmd: string, s: Section, words: seq<string>, tag: string, value: string)
    requires Configures(ini, cmd, s, words, script) && tag in Split(s.format, '_') && !Blank(tag) && LegacyCommand.NUL in value
    ensures var t := OneMessage(cmd, tag, value);
      && Waiting(t, 0, cmd) && Handle(ini, 0, Entry(Joined(t.messages, t.params), 0)) == (Some(Launch(0, None)), true)
      && !Served(ini, script, t, 0, s.format)
  {
    var t := OneMessage(cmd, tag, value);
    OneWaits(cmd, tag, value);
    OneValue(tag, value);
    assert t.messages[0].id == 0;
    assert !ValuesNulFree(t, 0, Split(s.format, '_'));
    StartedIff(t, 0, cmd, s, words);
    LaunchedAs(ini, script, t, 0, cmd, s, words);
  }

  /** For formats that name each label once: if and only if no word follows the script, and the section found by the
      script's path has a format that starts with this section's. */
  lemma PlainFormats(ini: seq<Section>, script: Script, cmd: string, s: Section, words: seq<string>,
                     read: seq<string>, sent: seq<string>)
    requires Configures(ini, cmd, s, words, script) && read == ReadFormat(ini, script, words) && sent == Split(s.format, '_')
    requires Plain(sent) && (Plain(read) || read == [""])
    ensures AllServed(ini, script, cmd, s.format) <==> |words| == script.at + 1 && sent <= read
  {
    AlignedPlain(read, |words[script.at..]| - 1, sent);
    HandlerGetsStoredValues(ini, script, cmd, s, words);
  }

  lemma {:induction false} FirstByCommand(ini: seq<Section>, i: nat, path: string)
    requires i < |ini| && ini[i].command == Some(LegacyCommand.Line(path))
    requires forall j :: 0 <= j < i && ini[j].command == ini[i].command ==> ini[j].format == ini[i].format
    ensures ByCommand(ini, path).Some? && ByCommand(ini, path).value.format == ini[i].format
  {
    if ini[0].command != ini[i].command { FirstByCommand(ini[1..], i - 1, path); }
  }

  /** So a section whose command is the script's path alone is served, unless an earlier one with that command has
      another format. */
  lemma OwnPathIsServed(ini: seq<Section>, i: nat, dir: string, cmd: string, path: string)
    requires i < |ini| && Configures(ini, cmd, ini[i], [path], Script(dir, 0))
    requires ini[i].command == Some(LegacyCommand.Line(path)) && path == dir + "/" + Basename(path)
    requires forall j :: 0 <= j < i && ini[j].command == ini[i].command ==> ini[j].format == ini[i].format
    ensures AllServed(ini, Script(dir, 0), cmd, ini[i].format)
  {
    FirstByCommand(ini, i, path);
    OwnSection(ini, ini[i], dir, path);
    HandlerGetsStoredValues(ini, Script(dir, 0), cmd, ini[i], [path]);
  }

  lemma OwnSection(ini: seq<Section>, s: Section, dir: string, path: string)
    requires ByCommand(ini, path).Some? && ByCommand(ini, path).value.format == s.format && path == dir + "/" + Basename(path)
    ensures AlignedSection(ini, Script(dir, 0), s, [path])
  {
    assert ReadFormat(ini, Script(dir, 0), [path]) == Split(s.format, '_');
    AloneIsAligned(Split(s.format, '_'), [path]);
  }

  lemma AloneIsAligned(own: seq<string>, words: seq<string>)
    requires |words| == 1
    ensures Aligned(own, |words[0..]| - 1, own)
  {
    PrefixAligned(own, own);
  }

  lemma {:induction false} JoinedIds(messages: seq<MessageRow>, params: seq<ParamRow>, id: nat)
    ensures (exists r :: r in Joined(messages, params) && r.id == id)
            <==> (exists m :: m in messages && m.id == id && OwnRows(m, params) != [])
  {
    if messages != [] {
      var m, rest := messages[0], messages[1..];
      JoinedIds(rest, params, id);
      assert forall r :: r in Joined(messages, params) <==> r in OwnRows(m, params) || r in Joined(rest, params);
      assert forall x :: x in messages <==> x == m || x in rest;
      if m.id == id && OwnRows(m, params) != [] {
        assert OwnRows(m, params)[0] in Joined(messages, params);
      }
    }
  }

  /** The dispatcher sees a message exactly when it waits and has a parameter: without any it waits for ever. */
  lemma SeenIffItHasParameters(t: Tables, k: nat)
    requires WellFormed(t) && k < |t.messages|
    ensures var m := t.messages[k];
      m.id in IdsIn(Joined(t.messages, t.params)) <==> !m.done && m.dir == "PBX" && ParamsOf(t.params, m.id) != []
  {
    var m, rows := t.messages[k], Joined(t.messages, t.params);
    JoinedIds(t.messages, t.params, m.id);
    assert m in t.messages;
    assert OwnRows(m, t.params) != [] <==> !m.done && m.dir == "PBX" && ParamsOf(t.params, m.id) != [];
    forall x | x in t.messages && x.id == m.id ensures x == m {
      var i :| 0 <= i < |t.messages| && t.messages[i] == x;
    }
    if r: Row :| r in rows && r.id == m.id {
      var i :| 0 <= i < |rows| && rows[i] == r;
      assert rows[i].id == m.id;
    }
  }

  /** The empty label and "0" stand for nothing, sent or read; any other label sends its value, and nothing without one. */
  lemma {:induction false} BlankLabels(format: seq<string>, args: seq<string>, params: map<string, Option<string>>, tag: string)
    ensures tag == "" || tag == "0" ==> Encoded(tag, params) == "" && tag !in Decoded(format, args)
    ensures tag != "" && tag != "0" ==>
              Encoded(tag, params) == (if tag in params && params[tag].Some? then params[tag].value else "")
  {
    if format != [] { BlankLabels(format[..|format| - 1], args, params, tag); }
  }

  /** What follows the last slash, or all when there is none. */
  lemma {:induction false} BasenameIs(dir: string, name: string)
    requires '/' !in name
    ensures Basename(name) == name && Basename(dir + "/" + name) == name
    decreases |name|
  {
    if name != "" {
      var n := |name| - 1;
      assert name == name[..n] + [name[n]];
      assert (dir + "/" + name)[..|dir + "/" + name| - 1] == dir + "/" + name[..n];
      BasenameIs(dir, name[..n]);
    }
  }

  // ---- A round, exactly ----

  /** A section is found by its name when there is one. */
  lemma {:induction false} NamedIs(ini: seq<Section>, name: string)
    ensures Named(ini, name).Some? <==> exists s <- ini :: s.name == name
    ensures Named(ini, name).Some? ==> Named(ini, name).value in ini && Named(ini, name).value.name == name
  {
    if ini != [] {
      NamedIs(ini[1..], name);
      assert forall s :: s in ini <==> s == ini[0] || s in ini[1..];
    }
  }

  predicate Ascending(ids: seq<nat>) { forall i, j :: 0 <= i < j < |ids| ==> ids[i] < ids[j] }

  predicate ById(rows: seq<Row>) { forall i, j :: 0 <= i < j < |rows| ==> rows[i].id <= rows[j].id }

  lemma {:induction false} JoinedById(messages: seq<MessageRow>, params: seq<ParamRow>)
    requires forall i, j :: 0 <= i < j < |messages| ==> messages[i].id < messages[j].id
    ensures ById(Joined(messages, params))
    ensures forall r <- Joined(messages, params) :: exists m <- messages :: r.id == m.id
  {
    if messages != [] {
      JoinedById(messages[1..], params);
      var own, rest := OwnRows(messages[0], params), Joined(messages[1..], params);
      assert forall m :: m in messages <==> m == messages[0] || m in messages[1..];
      forall r | r in rest ensures messages[0].id <= r.id {
        var m :| m in messages[1..] && r.id == m.id;
        var i :| 0 <= i < |messages[1..]| && messages[1..][i] == m;
        assert messages[i + 1] == m;
      }
    }
  }

  lemma {:induction false} IdsAscend(rows: seq<Row>)
    requires ById(rows)
    ensures Ascending(IdsIn(rows))
  {
    if rows != [] {
      var n := |rows| - 1;
      var before := IdsIn(rows[..n]);
      assert ById(rows[..n]);
      IdsAscend(rows[..n]);
      forall k | 0 <= k < |before| ensures before[k] <= rows[n].id {
        assert before[k] in before;
        var i :| 0 <= i < |rows[..n]| && rows[..n][i].id == before[k];
        assert rows[i].id == before[k];
      }
    }
  }

  lemma {:induction false} LaunchesAre(ini: seq<Section>, rows: seq<Row>, ids: seq<nat>)
    requires Ascending(ids)
    ensures var launches := Launches(ini, rows, ids);
      && (forall i, j :: 0 <= i < j < |launches| ==> launches[i].id < launches[j].id)
      && (forall l <- launches :: l.id in ids && Handle(ini, l.id, Entry(rows, l.id)).0 == Some(l))
      && forall id <- ids :: Handle(ini, id, Entry(rows, id)).0.Some? ==> Handle(ini, id, Entry(rows, id)).0.value in launches
  {
    if ids != [] {
      var n := |ids| - 1;
      LaunchesAre(ini, rows, ids[..n]);
      assert forall id :: id in ids <==> id in ids[..n] || id == ids[n];
      assert forall id <- ids[..n] :: id < ids[n];
    }
  }

  lemma {:induction false} HandledAre(ini: seq<Section>, rows: seq<Row>, ids: seq<nat>)
    ensures forall id :: id in HandledIds(ini, rows, ids) <==> id in ids && Handle(ini, id, Entry(rows, id)).1
  {
    if ids != [] {
      HandledAre(ini, rows, ids[..|ids| - 1]);
      assert forall id :: id in ids <==> id in ids[..|ids| - 1] || id == ids[|ids| - 1];
    }
  }

  /** The file has a section for messages of this command. */
  predicate HasSection(ini: seq<Section>, cmd: string) { exists s <- ini :: s.name == cmd + "2PBX" }

  lemma HandledAs(ini: seq<Section>, id: nat, g: Grouped, cmd: string)
    requires g.section == cmd + "2PBX"
    ensures Handle(ini, id, g).0.Some? <==> cmd != "LR" && HasSection(ini, cmd)
    ensures Handle(ini, id, g).1 <==> cmd == "LR" || HasSection(ini, cmd)
  {
    NamedIs(ini, cmd + "2PBX");
    if cmd != "LR" { NotLR(cmd); }
  }

  /** The dispatcher's query gives the message. */
  predicate Waits(t: Tables, m: MessageRow) { !m.done && m.dir == "PBX" && ParamsOf(t.params, m.id) != [] }

  /** What the loop does with the message in row k. */
  lemma HandledRow(ini: seq<Section>, t: Tables, k: nat)
    requires WellFormed(t) && k < |t.messages|
    ensures var m, rows := t.messages[k], Joined(t.messages, t.params);
      && (m.id in IdsIn(rows) <==> Waits(t, m))
      && (Waits(t, m) ==>
            && (Handle(ini, m.id, Entry(rows, m.id)).0.Some? <==> m.cmd != "LR" && HasSection(ini, m.cmd))
            && (Handle(ini, m.id, Entry(rows, m.id)).1 <==> m.cmd == "LR" || HasSection(ini, m.cmd)))
  {
    var m, rows := t.messages[k], Joined(t.messages, t.params);
    SeenIffItHasParameters(t, k);
    if Waits(t, m) {
      StoredSection(t, k, m.cmd);
      HandledAs(ini, m.id, Entry(rows, m.id), m.cmd);
    }
  }

  /** Main result: of every message in the tables, a round marks it exactly when it waits for the PBX with a parameter at
      least, and is an LR or has a section of its own; and changes nothing else of the tables. */
  lemma RoundMarks(ini: seq<Section>, t: Tables, k: nat)
    requires WellFormed(t) && k < |t.messages|
    ensures var m, t' := t.messages[k], AfterRound(ini, t);
      && |t'.messages| == |t.messages| && t' == t.(messages := t'.messages)
      && t'.messages[k] == m.(done := m.done || (Waits(t, m) && (m.cmd == "LR" || HasSection(ini, m.cmd))))
  {
    var rows := Joined(t.messages, t.params);
    HandledRow(ini, t, k);
    HandledAre(ini, rows, IdsIn(rows));
  }

  /** Main result: a round starts the handlers of the messages in their order, each once, */
  lemma RoundInOrder(ini: seq<Section>, t: Tables)
    requires WellFormed(t)
    ensures var launches := LaunchesOf(ini, t);
      && (forall i, j :: 0 <= i < j < |launches| ==> launches[i].id < launches[j].id)
      && forall l <- launches :: Launched(ini, t, l.id) == Some(l)
  {
    var rows := Joined(t.messages, t.params);
    JoinedById(t.messages, t.params);
    IdsAscend(rows);
    LaunchesAre(ini, rows, IdsIn(rows));
  }

  /** and that of a message exactly when it waits with a parameter, is no LR, and has a section. */
  lemma RoundStarts(ini: seq<Section>, t: Tables, k: nat)
    requires WellFormed(t) && k < |t.messages|
    ensures var m := t.messages[k];
      (exists l <- LaunchesOf(ini, t) :: l.id == m.id) <==> Waits(t, m) && m.cmd != "LR" && HasSection(ini, m.cmd)
  {
    HandledRow(ini, t, k);
    StartsOne(ini, t, t.messages[k].id);
  }

  lemma StartsOne(ini: seq<Section>, t: Tables, id: nat)
    requires WellFormed(t)
    ensures var rows := Joined(t.messages, t.params);
      (exists l <- LaunchesOf(ini, t) :: l.id == id) <==> id in IdsIn(rows) && Handle(ini, id, Entry(rows, id)).0.Some?
  {
    var rows := Joined(t.messages, t.params);
    JoinedById(t.messages, t.params);
    IdsAscend(rows);
    StartsOf(ini, rows, IdsIn(rows), id);
  }

  lemma StartsOf(ini: seq<Section>, rows: seq<Row>, ids: seq<nat>, id: nat)
    requires Ascending(ids)
    ensures (exists l <- Launches(ini, rows, ids) :: l.id == id) <==> id in ids && Handle(ini, id, Entry(rows, id)).0.Some?
  {
    LaunchesAre(ini, rows, ids);
    if id in ids && Handle(ini, id, Entry(rows, id)).0.Some? {
      assert Handle(ini, id, Entry(rows, id)).0.value in Launches(ini, rows, ids);
    }
  }
}
