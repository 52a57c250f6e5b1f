/** The command runner's tokenizer of legacy command lines, and the building of an argv from a template. */
module LegacyCommand {
  import opened Text

  const NUL: char := '\0'

  /** ctype_space */
  predicate Space(c: char) {
    c == ' ' || c == '\t' || c == '\n' || c == '\r' || c == '\U{0B}' || c == '\U{0C}'
  }

  predicate Spaces(s: string) { s == "" || (Space(s[0]) && Spaces(s[1..])) }

  datatype Error =
    | NulByte | OpenQuote | OpenEscape
    | NoExecutable | HoleInExecutable | NulInArgument | UnknownPlaceholder | HoleNotAlone | NulInValue
  datatype Parsed = Args(args: seq<string>) | Failed(error: Error)

  // ---- The tokenizer's loop as a state and a step ----

  datatype Scan = Scan(args: seq<string>, current: string, quote: Option<char>, escaped: bool, started: bool)

  const START: Scan := Scan([], "", None, false, false)

  function Step(s: Scan, c: char): Scan {
    if s.escaped then s.(current := s.current + [c], escaped := false, started := true)
    else if s.quote.Some? then
      if c == s.quote.value then s.(quote := None, started := true)
      else if s.quote.value == '"' && c == '\\' then s.(escaped := true, started := true)
      else s.(current := s.current + [c], started := true)
    else if c == '"' || c == '\'' then s.(quote := Some(c), started := true)
    else if c == '\\' then s.(escaped := true, started := true)
    else if Space(c) then
      if s.started then s.(args := s.args + [s.current], current := "", started := false) else s
    else s.(current := s.current + [c], started := true)
  }

  function Run(s: Scan, text: string): Scan
    decreases |text|
  {
    if text == "" then s else Run(Step(s, text[0]), text[1..])
  }

  function Finish(s: Scan): Parsed {
    if s.quote.Some? then Failed(OpenQuote)
    else if s.escaped then Failed(OpenEscape)
    else Args(if s.started then s.args + [s.current] else s.args)
  }

  function Parse(text: string): Parsed {
    if NUL in text then Failed(NulByte) else Finish(Run(START, text))
  }

  lemma {:induction false} RunConcat(s: Scan, a: string, b: string)
    ensures Run(s, a + b) == Run(Run(s, a), b)
    decreases |a|
  {
    if a == "" {
      assert a + b == b;
    } else {
      assert (a + b)[1..] == a[1..] + b;
      RunConcat(Step(s, a[0]), a[1..], b);
    }
  }

  /** fiasParseLegacyCommand */
  method ParseLegacyCommand(command: string) returns (r: Parsed)
    ensures r == Parse(command)
  {
    if exists i | 0 <= i < |command| :: command[i] == NUL { return Failed(NulByte); }
    var arguments: seq<string>, current: string := [], "";
    var quote: Option<char>, escaped, started := None, false, false;
    for index := 0 to |command|
      invariant Run(Scan(arguments, current, quote, escaped, started), command[index..]) == Run(START, command)
    {
      var character := command[index];
      assert command[index..][0] == character && command[index..][1..] == command[index + 1..];
      if escaped {
        current := current + [character];
        escaped, started := false, true;
        continue;
      }
      if quote.Some? {
        if character == quote.value {
          quote := None;
        } else if quote.value == '"' && character == '\\' {
          escaped := true;
        } else {
          current := current + [character];
        }
        started := true;
        continue;
      }
      if character == '"' || character == '\'' {
        quote, started := Some(character), true;
      } else if character == '\\' {
        escaped, started := true, true;
      } else if Space(character) {
        if started {
          arguments, current, started := arguments + [current], "", false;
        }
      } else {
        current, started := current + [character], true;
      }
    }
    if quote.Some? { return Failed(OpenQuote); }
    if escaped { return Failed(OpenEscape); }
    if started { arguments := arguments + [current]; }
    r := Args(arguments);
  }

  // ---- The grammar: what a quoted command line is ----

  /** A character between double quotes, as it is or after a backslash. */
  datatype Unit = Plain(c: char) | Backslashed(c: char)
  datatype Piece = Bare(c: char) | Escaped(c: char) | Single(s: string) | Double(units: seq<Unit>)
  /** A word and the spaces after it. */
  datatype Item = Item(word: seq<Piece>, gap: string)

  predicate PieceOk(p: Piece) {
    match p
    case Bare(c) => c != '"' && c != '\'' && c != '\\' && !Space(c)
    case Escaped(c) => true
    case Single(s) => '\'' !in s
    case Double(units) => UnitsOk(units)
  }

  predicate UnitsOk(units: seq<Unit>) {
    units == [] || ((units[0].Plain? ==> units[0].c != '"' && units[0].c != '\\') && UnitsOk(units[1..]))
  }

  predicate WordOk(w: seq<Piece>) { w == [] || (PieceOk(w[0]) && WordOk(w[1..])) }

  predicate ItemOk(it: Item) { it.word != [] && WordOk(it.word) && Spaces(it.gap) }

  /** Words are kept apart by at least one space; the last gap may be empty. */
  predicate LineOk(items: seq<Item>) {
    items == [] || (ItemOk(items[0]) && (items[0].gap == "" ==> |items| == 1) && LineOk(items[1..]))
  }

  function ShowUnits(units: seq<Unit>): string {
    if units == [] then ""
    else ShowUnit(units[0]) + ShowUnits(units[1..])
  }

  function UnitsText(units: seq<Unit>): string {
    if units == [] then "" else [units[0].c] + UnitsText(units[1..])
  }

  function ShowPiece(p: Piece): string {
    match p
    case Bare(c) => [c]
    case Escaped(c) => ['\\', c]
    case Single(s) => "'" + s + "'"
    case Double(units) => "\"" + ShowUnits(units) + "\""
  }

  function PieceText(p: Piece): string {
    match p
    case Bare(c) => [c]
    case Escaped(c) => [c]
    case Single(s) => s
    case Double(units) => UnitsText(units)
  }

  function ShowWord(w: seq<Piece>): string { if w == [] then "" else ShowPiece(w[0]) + ShowWord(w[1..]) }
  function WordText(w: seq<Piece>): string { if w == [] then "" else PieceText(w[0]) + WordText(w[1..]) }

  function Show(items: seq<Item>): string {
    if items == [] then "" else ShowWord(items[0].word) + items[0].gap + Show(items[1..])
  }

  function Words(items: seq<Item>): seq<string> {
    if items == [] then [] else [WordText(items[0].word)] + Words(items[1..])
  }

  // ---- Reading a rendered line gives its words ----

  lemma {:induction false} RunSingle(s: Scan, text: string)
    requires s.quote == Some('\'') && !s.escaped && s.started && '\'' !in text
    ensures Run(s, text) == s.(current := s.current + text)
    decreases |text|
  {
    if text == "" {
      assert s.current + "" == s.current;
    } else {
      RunSingle(Step(s, text[0]), text[1..]);
      assert s.current + [text[0]] + text[1..] == s.current + text;
    }
  }

  function ShowUnit(u: Unit): string {
    match u case Plain(c) => [c] case Backslashed(c) => ['\\', c]
  }

  lemma RunUnit(s: Scan, u: Unit)
    requires s.quote == Some('"') && !s.escaped && s.started && (u.Plain? ==> u.c != '"' && u.c != '\\')
    ensures Run(s, ShowUnit(u)) == Took(s, [u.c])
  {
    if u.Backslashed? {
      assert ShowUnit(u)[1..] == [u.c];
      assert Run(s, ShowUnit(u)) == Run(Step(s, '\\'), [u.c]);
      assert Run(Step(s, '\\'), [u.c]) == Run(Step(Step(s, '\\'), u.c), "");
    }
  }

  /** The state after text was added to the current word. */
  function Took(s: Scan, text: string): Scan { s.(current := s.current + text, started := true) }

  lemma TookConcat(s: Scan, a: string, b: string)
    ensures Took(Took(s, a), b) == Took(s, a + b)
  {
    assert s.current + a + b == s.current + (a + b);
  }

  lemma RunThen(s: Scan, a: string, middle: Scan, b: string, end: Scan)
    requires Run(s, a) == middle && Run(middle, b) == end
    ensures Run(s, a + b) == end
  {
    RunConcat(s, a, b);
  }

  lemma {:induction false} RunUnits(s: Scan, units: seq<Unit>)
    requires s.quote == Some('"') && !s.escaped && s.started && UnitsOk(units)
    ensures Run(s, ShowUnits(units)) == Took(s, UnitsText(units))
    decreases |units|
  {
    if units == [] {
      assert s.current + "" == s.current;
    } else {
      var u, s1 := units[0], Took(s, [units[0].c]);
      RunUnit(s, u);
      RunUnits(s1, units[1..]);
      TookConcat(s, [u.c], UnitsText(units[1..]));
      RunThen(s, ShowUnit(u), s1, ShowUnits(units[1..]), Took(s1, UnitsText(units[1..])));
    }
  }

  lemma RunPiece(s: Scan, p: Piece)
    requires s.quote == None && !s.escaped && PieceOk(p)
    ensures Run(s, ShowPiece(p)) == Took(s, PieceText(p))
  {
    match p
    case Bare(c) =>
      assert ShowPiece(p)[1..] == "";
    case Escaped(c) =>
      assert ShowPiece(p)[1..] == [c] && [c][1..] == "";
      assert Run(s, ShowPiece(p)) == Run(Step(s, '\\'), [c]) == Step(Step(s, '\\'), c);
    case Single(t) =>
      RunConcat(s, "'" + t, "'");
      RunConcat(s, "'", t);
      RunSingle(Step(s, '\''), t);
    case Double(units) =>
      RunConcat(s, "\"" + ShowUnits(units), "\"");
      RunConcat(s, "\"", ShowUnits(units));
      RunUnits(Step(s, '"'), units);
  }

  lemma {:induction false} RunWord(s: Scan, w: seq<Piece>)
    requires s.quote == None && !s.escaped && WordOk(w) && w != []
    ensures Run(s, ShowWord(w)) == Took(s, WordText(w))
    decreases |w|
  {
    var p, rest, s1 := w[0], w[1..], Took(s, PieceText(w[0]));
    RunPiece(s, p);
    if rest == [] {
      assert ShowPiece(p) + "" == ShowPiece(p);
      assert PieceText(p) + "" == PieceText(p);
    } else {
      RunWord(s1, rest);
      TookConcat(s, PieceText(p), WordText(rest));
      RunThen(s, ShowPiece(p), s1, ShowWord(rest), Took(s1, WordText(rest)));
    }
  }

  lemma {:induction false} RunGap(s: Scan, gap: string)
    requires s.quote == None && !s.escaped && Spaces(gap)
    ensures Run(s, gap) == if gap != "" && s.started
                           then s.(args := s.args + [s.current], current := "", started := false) else s
    decreases |gap|
  {
    if gap != "" { RunGap(Step(s, gap[0]), gap[1..]); }
  }

  lemma RunItem(args: seq<string>, it: Item)
    requires ItemOk(it)
    ensures Run(Scan(args, "", None, false, false), ShowWord(it.word) + it.gap)
            == if it.gap == "" then Scan(args, WordText(it.word), None, false, true)
               else Scan(args + [WordText(it.word)], "", None, false, false)
  {
    var s := Scan(args, "", None, false, false);
    RunWord(s, it.word);
    assert "" + WordText(it.word) == WordText(it.word);
    RunGap(Took(s, WordText(it.word)), it.gap);
    RunConcat(s, ShowWord(it.word), it.gap);
  }

  lemma RunFirstItem(args: seq<string>, items: seq<Item>)
    requires LineOk(items) && items != []
    ensures var s, it := Scan(args, "", None, false, false), items[0];
      Run(s, Show(items))
      == Run(if it.gap == "" then Scan(args, WordText(it.word), None, false, true)
             else Scan(args + [WordText(it.word)], "", None, false, false), Show(items[1..]))
  {
    RunItem(args, items[0]);
    RunConcat(Scan(args, "", None, false, false), ShowWord(items[0].word) + items[0].gap, Show(items[1..]));
  }

  lemma {:induction false} RunItems(args: seq<string>, items: seq<Item>)
    requires LineOk(items)
    ensures Finish(Run(Scan(args, "", None, false, false), Show(items))) == Args(args + Words(items))
    decreases |items|
  {
    if items == [] {
      assert args + [] == args;
    } else {
      var it, rest := items[0], items[1..];
      RunFirstItem(args, items);
      assert args + [WordText(it.word)] + Words(rest) == args + Words(items);
      if it.gap != "" {
        RunItems(args + [WordText(it.word)], rest);
      } else {
        assert rest == [];
      }
    }
  }

  // ---- And nothing else is read: every accepted line is a rendering ----

  /** The rest of a single-quoted stretch. */
  lemma {:induction false} CloseSingle(s: Scan, text: string) returns (inner: string, rest: string)
    requires s.quote == Some('\'') && !s.escaped && s.started && Finish(Run(s, text)).Args?
    ensures text == inner + "'" + rest && '\'' !in inner
    ensures Run(s, text) == Run(s.(current := s.current + inner, quote := None), rest)
    decreases |text|
  {
    assert text != "";
    if text[0] == '\'' {
      inner, rest := "", text[1..];
      assert s.current + "" == s.current;
    } else {
      var inner';
      inner', rest := CloseSingle(Step(s, text[0]), text[1..]);
      inner := [text[0]] + inner';
      assert s.current + [text[0]] + inner' == s.current + inner;
    }
  }

  lemma {:induction false} CloseDouble(s: Scan, text: string) returns (units: seq<Unit>, rest: string)
    requires s.quote == Some('"') && !s.escaped && s.started && Finish(Run(s, text)).Args?
    ensures text == ShowUnits(units) + "\"" + rest && PieceOk(Double(units))
    ensures Run(s, text) == Run(s.(current := s.current + UnitsText(units), quote := None), rest)
    decreases |text|
  {
    assert text != "";
    if text[0] == '"' {
      units, rest := [], text[1..];
      assert s.current + "" == s.current;
    } else {
      var u, tail;
      if text[0] == '\\' {
        assert text[1..] != "";
        u, tail := Backslashed(text[1]), text[2..];
        assert text[1..][1..] == tail;
        assert Run(s, text) == Run(Step(Step(s, text[0]), text[1]), tail);
        assert text == ['\\', u.c] + tail;
      } else {
        u, tail := Plain(text[0]), text[1..];
        assert text == [u.c] + tail;
      }
      var units';
      units', rest := CloseDouble(s.(current := s.current + [u.c]), tail);
      units := [u] + units';
      assert units[1..] == units';
      Assoc(s.current, [u.c], UnitsText(units'));
      Assoc(ShowUnit(u), ShowUnits(units'), "\"" + rest);
      Assoc(ShowUnits(units'), "\"", rest);
      Assoc(ShowUnits(units), "\"", rest);
    }
  }

  lemma TakeSingle(s: Scan, text: string) returns (p: Piece, rest: string)
    requires s.quote == None && !s.escaped && text != "" && text[0] == '\'' && Finish(Run(s, text)).Args?
    ensures PieceOk(p) && text == ShowPiece(p) + rest && Run(s, text) == Run(Took(s, PieceText(p)), rest)
  {
    var inner;
    inner, rest := CloseSingle(Step(s, text[0]), text[1..]);
    p := Single(inner);
    assert text == [text[0]] + (inner + "'" + rest);
  }

  lemma TakeDouble(s: Scan, text: string) returns (p: Piece, rest: string)
    requires s.quote == None && !s.escaped && text != "" && text[0] == '"' && Finish(Run(s, text)).Args?
    ensures PieceOk(p) && text == ShowPiece(p) + rest && Run(s, text) == Run(Took(s, PieceText(p)), rest)
  {
    var units;
    units, rest := CloseDouble(Step(s, text[0]), text[1..]);
    p := Double(units);
    assert text == [text[0]] + (ShowUnits(units) + "\"" + rest);
  }

  lemma TakeEscaped(s: Scan, text: string) returns (p: Piece, rest: string)
    requires s.quote == None && !s.escaped && text != "" && text[0] == '\\' && Finish(Run(s, text)).Args?
    ensures PieceOk(p) && text == ShowPiece(p) + rest && Run(s, text) == Run(Took(s, PieceText(p)), rest)
  {
    assert text[1..] != "";
    p, rest := Escaped(text[1]), text[2..];
    assert text[1..][1..] == rest;
    assert text == ['\\', text[1]] + rest;
  }

  /** One piece of a word, read off the front of what is left. */
  lemma TakePiece(s: Scan, text: string) returns (p: Piece, rest: string)
    requires s.quote == None && !s.escaped && text != "" && !Space(text[0]) && Finish(Run(s, text)).Args?
    ensures PieceOk(p) && text == ShowPiece(p) + rest
    ensures Run(s, text) == Run(Took(s, PieceText(p)), rest)
  {
    var c := text[0];
    if c == '\'' {
      p, rest := TakeSingle(s, text);
    } else if c == '"' {
      p, rest := TakeDouble(s, text);
    } else if c == '\\' {
      p, rest := TakeEscaped(s, text);
    } else {
      p, rest := Bare(c), text[1..];
      assert text == [c] + rest;
    }
  }

  lemma WordCons(p: Piece, w: seq<Piece>)
    ensures ShowWord([p] + w) == ShowPiece(p) + ShowWord(w)
    ensures WordText([p] + w) == PieceText(p) + WordText(w)
    ensures PieceOk(p) && WordOk(w) ==> WordOk([p] + w)
  {
    assert ([p] + w)[1..] == w;
  }

  lemma ItemCons(it: Item, items: seq<Item>)
    requires ItemOk(it) && LineOk(items) && (it.gap == "" ==> items == [])
    ensures LineOk([it] + items)
    ensures Show([it] + items) == ShowWord(it.word) + it.gap + Show(items)
    ensures Words([it] + items) == [WordText(it.word)] + Words(items)
  {
    assert ([it] + items)[1..] == items;
  }

  /** What is left of a command from inside a word: pieces, the gap after them, and items. */
  ghost predicate WordLeft(text: string, word: seq<Piece>, gap: string, items: seq<Item>) {
    && WordOk(word) && Spaces(gap) && LineOk(items) && (gap == "" ==> items == [])
    && text == ShowWord(word) + gap + Show(items)
  }

  lemma WordLeftCons(text: string, p: Piece, rest: string, word: seq<Piece>, gap: string, items: seq<Item>)
    requires PieceOk(p) && text == ShowPiece(p) + rest && WordLeft(rest, word, gap, items)
    ensures WordLeft(text, [p] + word, gap, items)
  {
    WordCons(p, word);
    Assoc(ShowPiece(p), ShowWord(word) + gap, Show(items));
    Assoc(ShowPiece(p), ShowWord(word), gap);
  }

  lemma {:induction false} WordLeftSpace(c: char, lead: string, items: seq<Item>)
    requires Space(c) && Spaces(lead) && LineOk(items)
    ensures WordLeft([c] + (lead + Show(items)), [], [c] + lead, items)
  {
    Assoc([c], lead, Show(items));
    Text.Unit([c] + lead);
  }

  /** From inside a word. */
  lemma {:induction false} TakeWord(s: Scan, text: string) returns (word: seq<Piece>, gap: string, items: seq<Item>)
    requires s.quote == None && !s.escaped && s.started && Finish(Run(s, text)).Args?
    ensures WordLeft(text, word, gap, items)
    ensures Finish(Run(s, text)).args == s.args + [s.current + WordText(word)] + Words(items)
    decreases |text|, 1
  {
    if text == "" {
      word, gap, items := [], "", [];
      assert s.current + "" == s.current;
    } else if Space(text[0]) {
      var lead;
      lead, items := TakeItems(Step(s, text[0]), text[1..]);
      word, gap := [], [text[0]] + lead;
      assert s.current + "" == s.current;
      WordLeftSpace(text[0], lead, items);
    } else {
      word, gap, items := TakeMore(s, text);
    }
  }

  /** From a word's next piece on. */
  lemma {:induction false} TakeMore(s: Scan, text: string) returns (word: seq<Piece>, gap: string, items: seq<Item>)
    requires s.quote == None && !s.escaped && text != "" && !Space(text[0]) && Finish(Run(s, text)).Args?
    ensures WordLeft(text, word, gap, items) && word != []
    ensures Finish(Run(s, text)).args == s.args + [s.current + WordText(word)] + Words(items)
    decreases |text|, 0
  {
    var p, rest := TakePiece(s, text);
    var word';
    word', gap, items := TakeWord(Took(s, PieceText(p)), rest);
    word := [p] + word';
    WordLeftCons(text, p, rest, word', gap, items);
    WordCons(p, word');
    TookConcat(s, PieceText(p), WordText(word'));
    assert Took(s, PieceText(p)).current + WordText(word') == s.current + WordText(word);
  }

  lemma ItemsLeft(args: seq<string>, text: string, word: seq<Piece>, gap: string, more: seq<Item>)
    requires WordLeft(text, word, gap, more) && word != []
    ensures var items := [Item(word, gap)] + more;
      LineOk(items) && text == "" + Show(items) && args + ["" + WordText(word)] + Words(more) == args + Words(items)
  {
    ItemCons(Item(word, gap), more);
    Text.Unit(WordText(word));
    Text.Unit(text);
    Assoc(args, [WordText(word)], Words(more));
  }

  /** From between words. */
  lemma {:induction false} TakeItems(s: Scan, text: string) returns (lead: string, items: seq<Item>)
    requires s.quote == None && !s.escaped && !s.started && s.current == "" && Finish(Run(s, text)).Args?
    ensures Spaces(lead) && LineOk(items) && text == lead + Show(items)
    ensures Finish(Run(s, text)).args == s.args + Words(items)
    decreases |text|, 1
  {
    if text == "" {
      lead, items := "", [];
    } else if Space(text[0]) {
      lead, items := TakeItems(s, text[1..]);
      Assoc([text[0]], lead, Show(items));
      lead := [text[0]] + lead;
    } else {
      var word, gap, more := TakeMore(s, text);
      lead, items := "", [Item(word, gap)] + more;
      ItemsLeft(s.args, text, word, gap, more);
    }
  }

  /** text is the words args, each quoted in some way, spaces around them. */
  ghost predicate Rendering(text: string, lead: string, items: seq<Item>, args: seq<string>) {
    Spaces(lead) && LineOk(items) && text == lead + Show(items) && args == Words(items)
  }

  /** Main result: a command reads as args exactly when it is a rendering, quoted in any way, of those words. */
  lemma ParsesExactlyRenderings(text: string, args: seq<string>)
    ensures Parse(text) == Args(args)
            <==> NUL !in text && exists lead: string, items: seq<Item> :: Rendering(text, lead, items, args)
  {
    if NUL !in text {
      forall lead: string, items: seq<Item> | Rendering(text, lead, items, args)
        ensures Parse(text) == Args(args)
      {
        RunConcat(START, lead, Show(items));
        RunGap(START, lead);
        RunItems([], items);
        Text.Unit(Words(items));
      }
      if Parse(text) == Args(args) {
        var lead, items := TakeItems(START, text);
        Text.Unit(Words(items));
        assert Rendering(text, lead, items, args);
      }
    }
  }

  // ---- One canonical quoting: each argument between double quotes ----

  function QuoteUnits(arg: string): (units: seq<Unit>)
    ensures UnitsOk(units)
    ensures UnitsText(units) == arg
  {
    if arg == "" then []
    else
      var u := if arg[0] == '"' || arg[0] == '\\' then Backslashed(arg[0]) else Plain(arg[0]);
      [u] + QuoteUnits(arg[1..])
  }

  function Quote(arg: string): string { ShowPiece(Double(QuoteUnits(arg))) }

  function QuoteAll(args: seq<string>): string {
    if args == [] then "" else Quote(args[0]) + " " + QuoteAll(args[1..])
  }

  function QuotedItems(args: seq<string>): (items: seq<Item>)
    ensures LineOk(items)
  {
    if args == [] then []
    else
      var it := Item([Double(QuoteUnits(args[0]))], " ");
      QuotedWord(args[0]);
      ItemCons(it, QuotedItems(args[1..]));
      [it] + QuotedItems(args[1..])
  }

  /** A quoted argument is the rendering of one word of one piece. */
  lemma QuotedWord(arg: string)
    ensures var it := Item([Double(QuoteUnits(arg))], " ");
      ItemOk(it) && ShowWord(it.word) == Quote(arg) && WordText(it.word) == arg
  {
    var p := Double(QuoteUnits(arg));
    WordCons(p, []);
    Text.Unit([p]);
    Text.Unit(ShowPiece(p));
    Text.Unit(PieceText(p));
    assert Spaces(" ") by { assert Spaces(" "[1..]); }
  }

  lemma {:induction false} QuotedRendering(args: seq<string>)
    requires forall a <- args :: NUL !in a
    ensures Show(QuotedItems(args)) == QuoteAll(args) && Words(QuotedItems(args)) == args
  {
    if args != [] {
      QuotedRendering(args[1..]);
      QuotedWord(args[0]);
      ItemCons(Item([Double(QuoteUnits(args[0]))], " "), QuotedItems(args[1..]));
    }
  }

  lemma {:induction false} NoNulQuoted(args: seq<string>)
    requires forall a <- args :: NUL !in a
    ensures NUL !in QuoteAll(args)
  {
    if args != [] {
      assert args[0] in args;
      NoNul(args[0]);
      NoNulQuoted(args[1..]);
    }
  }

  lemma {:induction false} NoNul(arg: string)
    requires NUL !in arg
    ensures NUL !in ShowUnits(QuoteUnits(arg))
  {
    if arg != "" {
      var u := if arg[0] == '"' || arg[0] == '\\' then Backslashed(arg[0]) else Plain(arg[0]);
      assert QuoteUnits(arg) == [u] + QuoteUnits(arg[1..]);
      NoNul(arg[1..]);
      assert arg[0] != NUL;
    }
  }

  /** The tokenizer undoes the quoting of any NUL-free argument list. */
  lemma QuotingRoundTrip(args: seq<string>)
    requires forall a <- args :: NUL !in a
    ensures Parse(QuoteAll(args)) == Args(args)
  {
    var items := QuotedItems(args);
    QuotedRendering(args);
    NoNulQuoted(args);
    Text.Unit(QuoteAll(args));
    assert Rendering(QuoteAll(args), "", items, args);
    ParsesExactlyRenderings(QuoteAll(args), args);
  }

  // ---- Building an argv ----

  const PLACEHOLDERS: seq<string> := ["%ARG%", "%ROOM%", "%RESERVATION%", "%GUESTNAME%", "%GUESTLANGUAGE%"]

  /** The command of a configuration section: a legacy line, or a list of arguments. */
  datatype Configured = Line(text: string) | Listed(tokens: seq<string>)

  function Tokens(c: Configured): Option<seq<string>> {
    match c
    case Listed(tokens) => Some(tokens)
    case Line(text) => (match Parse(text) case Args(args) => Some(args) case Failed(_) => None)
  }

  /** The placeholder text starts with, if any. */
  function At(text: string): (r: Option<string>)
    ensures r.Some? ==> 5 <= |r.value| <= |text| && text[0] == '%'
  {
    if "%ARG%" <= text then Some("%ARG%")
    else if "%ROOM%" <= text then Some("%ROOM%")
    else if "%RESERVATION%" <= text then Some("%RESERVATION%")
    else if "%GUESTNAME%" <= text then Some("%GUESTNAME%")
    else if "%GUESTLANGUAGE%" <= text then Some("%GUESTLANGUAGE%")
    else None
  }

  /** fiasFindPlaceholders: those somewhere in text, overlapping ones too. */
  function Found(text: string): set<string> {
    if text == "" then {}
    else (match At(text) case Some(p) => {p} case None => {}) + Found(text[1..])
  }

  lemma {:induction false} FoundLater(text: string, k: nat)
    requires k <= |text|
    ensures Found(text[k..]) <= Found(text)
  {
    if k > 0 {
      FoundLater(text[1..], k - 1);
      assert text[1..][k - 1..] == text[k..];
    }
  }

  lemma AtSelf(p: string)
    requires p in PLACEHOLDERS
    ensures At(p) == Some(p)
  {
    if p == "%ROOM%" { assert p[1] == 'R';
    } else if p == "%RESERVATION%" { assert p[1] == 'R' && p[2] == 'E';
    } else if p == "%GUESTNAME%" { assert p[1] == 'G';
    } else if p == "%GUESTLANGUAGE%" { assert p[1] == 'G' && p[6] == 'L';
    }
  }

  /** The marks are at the two ends only. */
  lemma OneName(p: string, i: nat)
    requires p in PLACEHOLDERS && 1 <= i < |p| - 1
    ensures p[i] != '%'
  {
  }

  /** A placeholder is read as itself, and holds no other. */
  lemma PlaceholderAlone(p: string)
    requires p in PLACEHOLDERS
    ensures At(p) == Some(p) && Found(p) == {p}
  {
    AtSelf(p);
    forall i | 1 <= i < |p| ensures At(p[i..]) == None {
      if i < |p| - 1 { OneName(p, i); }
    }
    NoneLater(p, 1);
  }

  lemma {:induction false} NoneLater(text: string, k: nat)
    requires k <= |text| && forall i :: k <= i < |text| ==> At(text[i..]) == None
    ensures Found(text[k..]) == {}
    decreases |text| - k
  {
    if k < |text| {
      NoneLater(text, k + 1);
      assert text[k..][1..] == text[k + 1..];
    }
  }

  predicate NameChar(c: char) { 'A' <= c <= 'Z' || '0' <= c <= '9' || c == '#' || c == '+' || c == '_' }

  function NameLength(text: string): (n: nat)
    ensures n <= |text|
  {
    if text != "" && NameChar(text[0]) then 1 + NameLength(text[1..]) else 0
  }

  /** fiasValidateKnownPlaceholders: each "%NAME%", read from the left, is one of the placeholders. */
  predicate OnlyKnown(text: string)
    decreases |text|
  {
    if text == "" then true
    else
      var n := if text[0] == '%' then NameLength(text[1..]) else 0;
      if n > 0 && n + 1 < |text| && text[n + 1] == '%' then
        text[..n + 2] in PLACEHOLDERS && OnlyKnown(text[n + 2..])
      else OnlyKnown(text[1..])
  }

  function ValueOf(p: string, values: map<string, string>): string { if p in values then values[p] else "" }

  /** strtr: the text read once from the left, each placeholder replaced by its value. */
  function Expand(text: string, values: map<string, string>): string
    decreases |text|
  {
    if text == "" then ""
    else match At(text)
      case Some(p) => ValueOf(p, values) + Expand(text[|p|..], values)
      case None => [text[0]] + Expand(text[1..], values)
  }

  /** What a token asks for: fixed characters and holes, from the token alone. */
  datatype Part = Fixed(c: char) | Hole(name: string)

  function Parts(text: string): seq<Part>
    decreases |text|
  {
    if text == "" then []
    else match At(text)
      case Some(p) => [Hole(p)] + Parts(text[|p|..])
      case None => [Fixed(text[0])] + Parts(text[1..])
  }

  function Fill(parts: seq<Part>, values: map<string, string>): string {
    if parts == [] then ""
    else (match parts[0] case Fixed(c) => [c] case Hole(p) => ValueOf(p, values)) + Fill(parts[1..], values)
  }

  lemma {:induction false} ExpandFills(text: string, values: map<string, string>)
    ensures Expand(text, values) == Fill(Parts(text), values)
    decreases |text|
  {
    if text != "" {
      match At(text)
      case Some(p) => ExpandFills(text[|p|..], values);
      case None => ExpandFills(text[1..], values);
    }
  }

  lemma {:induction false} ExpandPlain(text: string, values: map<string, string>)
    requires Found(text) == {}
    ensures Expand(text, values) == text
  {
    if text != "" {
      ExpandPlain(text[1..], values);
      assert [text[0]] + text[1..] == text;
    }
  }

  lemma ExpandWhole(p: string, values: map<string, string>)
    requires At(p) == Some(p) && p != ""
    ensures Expand(p, values) == ValueOf(p, values)
  {
    assert p[|p|..] == "";
    Text.Unit(ValueOf(p, values));
  }

  /** The placeholders a token names are given values without NUL. */
  predicate ValuesClean(text: string, values: map<string, string>) {
    forall p <- Found(text) :: NUL !in ValueOf(p, values)
  }

  predicate TokenOk(c: Configured, token: string) {
    && NUL !in token && OnlyKnown(token)
    && (c.Listed? && Found(token) != {} ==> token in PLACEHOLDERS)
  }

  datatype Outcome<T> = Done(value: T) | Stopped(error: Error)

  /** What stops a token: its own text first, then the values it asks for. */
  function TokenError(c: Configured, token: string, values: map<string, string>): Option<Error> {
    if NUL in token then Some(NulInArgument)
    else if !OnlyKnown(token) then Some(UnknownPlaceholder)
    else if !TokenOk(c, token) then Some(HoleNotAlone)
    else if !ValuesClean(token, values) then Some(NulInValue)
    else None
  }

  /** One turn of fiasBuildCommand: the argument of a configured token. */
  method BuildArgument(c: Configured, token: string, values: map<string, string>) returns (r: Outcome<string>)
    ensures r.Done? <==> TokenOk(c, token) && ValuesClean(token, values)
    ensures r == match TokenError(c, token, values) case None => Done(Expand(token, values)) case Some(e) => Stopped(e)
  {
    if NUL in token { return Stopped(NulInArgument); }
    if !OnlyKnown(token) { return Stopped(UnknownPlaceholder); }
    if c.Listed? {
      if Found(token) == {} {
        ExpandPlain(token, values);
        return Done(token);
      }
      if token !in PLACEHOLDERS { return Stopped(HoleNotAlone); }
      PlaceholderAlone(token);
      ExpandWhole(token, values);
      assert ValuesClean(token, values) <==> NUL !in ValueOf(token, values);
      return if NUL in ValueOf(token, values) then Stopped(NulInValue) else Done(ValueOf(token, values));
    }
    // fiasExpandLegacyToken: a value is asked for each placeholder found, then all are replaced at once.
    if !ValuesClean(token, values) { return Stopped(NulInValue); }
    r := Done(Expand(token, values));
  }

  /** The error of the first token that has one. */
  function FirstError(c: Configured, tokens: seq<string>, values: map<string, string>): Option<Error> {
    if tokens == [] then None
    else if TokenError(c, tokens[0], values).Some? then TokenError(c, tokens[0], values)
    else FirstError(c, tokens[1..], values)
  }

  /** What stops a command: reading it, its executable, or the first token that cannot be an argument. */
  function BuildError(c: Configured, values: map<string, string>): Option<Error> {
    if c.Line? && Parse(c.text).Failed? then Some(Parse(c.text).error)
    else
      var tokens := Tokens(c).value;
      if tokens == [] || tokens[0] == "" then Some(NoExecutable)
      else if Found(tokens[0]) != {} then Some(HoleInExecutable)
      else FirstError(c, tokens, values)
  }

  /** fiasBuildCommand */
  method BuildCommand(c: Configured, values: map<string, string>) returns (r: Outcome<seq<string>>)
    ensures r.Done? <==> Build(c, values).Some?
    ensures r.Done? ==> r.value == Build(c, values).value
    ensures r.Stopped? ==> BuildError(c, values) == Some(r.error)
  {
    var tokens;
    match c {
      case Listed(ts) => tokens := ts;
      case Line(text) =>
        var parsed := ParseLegacyCommand(text);
        if parsed.Failed? { return Stopped(parsed.error); }
        tokens := parsed.args;
    }
    if tokens == [] || tokens[0] == "" { return Stopped(NoExecutable); }
    if Found(tokens[0]) != {} { return Stopped(HoleInExecutable); }
    var arguments: seq<string> := [];
    for i := 0 to |tokens|
      invariant Built(c, tokens, values, i, arguments)
    {
      var argument := BuildArgument(c, tokens[i], values);
      BuiltStep(c, tokens, values, i, arguments);
      if argument.Stopped? {
        NotBuildable(c, tokens, values, i);
        return Stopped(argument.error);
      }
      arguments := arguments + [argument.value];
    }
    AllArguments(c, tokens, values, arguments);
    r := Done(arguments);
  }

  /** The first i tokens are arguments, and so the first error is that of the others. */
  predicate Built(c: Configured, tokens: seq<string>, values: map<string, string>, i: nat, arguments: seq<string>)
    requires i <= |tokens|
  {
    && |arguments| == i && FirstError(c, tokens, values) == FirstError(c, tokens[i..], values)
    && forall k :: 0 <= k < i ==> TokenError(c, tokens[k], values) == None && arguments[k] == Expand(tokens[k], values)
  }

  lemma BuiltStep(c: Configured, tokens: seq<string>, values: map<string, string>, i: nat, arguments: seq<string>)
    requires i < |tokens| && Built(c, tokens, values, i, arguments)
    ensures TokenError(c, tokens[i], values) == None ==>
      Built(c, tokens, values, i + 1, arguments + [Expand(tokens[i], values)])
    ensures TokenError(c, tokens[i], values).Some? ==> FirstError(c, tokens, values) == TokenError(c, tokens[i], values)
  {
    assert tokens[i..][0] == tokens[i] && tokens[i..][1..] == tokens[i + 1..];
  }

  lemma NotBuildable(c: Configured, tokens: seq<string>, values: map<string, string>, i: nat)
    requires i < |tokens| && TokenError(c, tokens[i], values).Some?
    ensures Tokens(c) == Some(tokens) ==> Build(c, values) == None
  {
    assert tokens[i] in tokens;
  }

  lemma AllArguments(c: Configured, tokens: seq<string>, values: map<string, string>, arguments: seq<string>)
    requires Built(c, tokens, values, |tokens|, arguments)
    ensures arguments == ExpandAll(tokens, values)
    ensures forall t <- tokens :: TokenOk(c, t) && ValuesClean(t, values)
  {
  }

  function ExpandAll(tokens: seq<string>, values: map<string, string>): (r: seq<string>)
    ensures |r| == |tokens| && forall i :: 0 <= i < |r| ==> r[i] == Expand(tokens[i], values)
  {
    seq(|tokens|, i requires 0 <= i < |tokens| => Expand(tokens[i], values))
  }

  predicate Buildable(c: Configured) {
    && Tokens(c).Some? && Tokens(c).value != [] && Tokens(c).value[0] != "" && Found(Tokens(c).value[0]) == {}
    && forall t <- Tokens(c).value :: TokenOk(c, t)
  }

  function Build(c: Configured, values: map<string, string>): Option<seq<string>> {
    if Buildable(c) && (forall t <- Tokens(c).value :: ValuesClean(t, values))
    then Some(ExpandAll(Tokens(c).value, values)) else None
  }

  /** Expanding a token without NUL with values without NUL gives no NUL. */
  lemma {:induction false} ExpandClean(text: string, values: map<string, string>)
    requires NUL !in text && ValuesClean(text, values)
    ensures NUL !in Expand(text, values)
    decreases |text|
  {
    if text != "" {
      match At(text)
      case Some(p) =>
        assert p in Found(text);
        FoundLater(text, |p|);
        ExpandClean(text[|p|..], values);
      case None =>
        FoundLater(text, 1);
        ExpandClean(text[1..], values);
    }
  }

  /** Values neither add arguments nor touch the executable; they land whole in the holes of the configured
      tokens, none of their own text taken for a placeholder; only a NUL in one can stop the command. */
  lemma BuildKeepsShape(c: Configured, values: map<string, string>)
    requires Build(c, values).Some?
    ensures var argv, tokens := Build(c, values).value, Tokens(c).value;
      && |argv| == |tokens| && argv[0] == tokens[0]
      && (forall i :: 0 <= i < |argv| ==> argv[i] == Fill(Parts(tokens[i]), values) && NUL !in argv[i])
    ensures forall other: map<string, string> ::
      (forall k <- other :: NUL !in other[k]) ==>
        Build(c, other).Some? && |Build(c, other).value| == |Build(c, values).value|
  {
    var argv, tokens := Build(c, values).value, Tokens(c).value;
    ExpandPlain(tokens[0], values);
    forall i | 0 <= i < |argv|
      ensures argv[i] == Fill(Parts(tokens[i]), values) && NUL !in argv[i]
    {
      assert TokenOk(c, tokens[i]) && ValuesClean(tokens[i], values);
      ExpandFills(tokens[i], values);
      ExpandClean(tokens[i], values);
    }
  }
}
