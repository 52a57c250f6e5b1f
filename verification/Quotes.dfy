/** Replies: session.go writes the quote before the text, guest_page.go takes it out again, quote.go shows it to the app. */
module Quotes {
  import opened Text
  import opened Spaces

  /** unicode.IsSpace */
  predicate IsSpace(c: char) {
    || '\t' <= c <= '\r' || c == ' ' || c == '\U{85}' || c == '\U{A0}' || c == '\U{1680}' || '\U{2000}' <= c <= '\U{200A}'
    || c == '\U{2028}' || c == '\U{2029}' || c == '\U{202F}' || c == '\U{205F}' || c == '\U{3000}'
  }

  // ---- Replies ----

  /** What a group reply carries: the text with the quote in front, where the quote is, and whom it answers. */
  datatype Reply = Reply(text: string, start: int, end: int, id: string, to: string)

  /** SendGroupReply */
  function Compose(room: string, body: string, id: string, author: string, quote: string): Reply {
    var fallback := "> " + quote + "\n";
    Reply(fallback + body, 0, |fallback|, id, room + "/" + author)
  }

  datatype Shown = Shown(body: string, quoted: bool, quote: string, author: string)

  function TrimPrefix(s: string, p: string): string { if p <= s then s[|p|..] else s }

  function IndexOf(s: string, c: char): int { if s == "" then -1 else if s[0] == c then 0 else var i := IndexOf(s[1..], c); if i < 0 then i else i + 1 }

  lemma {:induction false} IndexAfter(a: string, b: string, c: char)
    requires c !in a
    ensures IndexOf(a + [c] + b, c) == |a|
  {
    if a != "" {
      assert (a + [c] + b)[1..] == a[1..] + [c] + b;
      IndexAfter(a[1..], b, c);
    }
  }

  lemma {:induction false} IndexBounds(s: string, c: char)
    ensures -1 <= IndexOf(s, c) < |s| && (IndexOf(s, c) < 0 <==> c !in s)
    ensures IndexOf(s, c) >= 0 ==> s[IndexOf(s, c)] == c && c !in s[..IndexOf(s, c)]
  {
    if s != "" && s[0] != c {
      IndexBounds(s[1..], c);
      var i := IndexOf(s[1..], c);
      assert s == [s[0]] + s[1..];
      if i >= 0 { assert s[..i + 1] == [s[0]] + s[1..][..i]; }
    }
  }

  /** guestMessage, for a message that may be a reply. */
  function Recover(r: Reply): Shown {
    if r.id == "" then Shown(r.text, false, "", "")
    else
      IndexBounds(r.to, '/');
      var i := IndexOf(r.to, '/');
      var author := if i >= 0 then r.to[i + 1..] else "";
      if r.start >= 0 && r.end > r.start && r.end <= |r.text| then
        Shown(Trim(r.text[..r.start] + r.text[r.end..], IsSpace), true, Trim(TrimPrefix(r.text[r.start..r.end], ">"), IsSpace), author)
      else Shown(r.text, true, "", author)
  }

  /** Main result: whatever a reply quotes and says, the page shows that quote and that text, trimmed, and the author;
      so it shows them as they were exactly when both were trimmed. */
  lemma ReplyRoundTrip(room: string, body: string, id: string, author: string, quote: string)
    requires '/' !in room && id != ""
    ensures var s := Recover(Compose(room, body, id, author, quote));
      && s == Shown(Trim(body, IsSpace), true, Trim(quote, IsSpace), author)
      && (s.quote == quote && s.body == body <==> Trimmed(quote, IsSpace) && Trimmed(body, IsSpace))
  {
    var fallback := "> " + quote + "\n";
    assert (fallback + body)[..|fallback|] == fallback && (fallback + body)[|fallback|..] == body;
    Unit(body);
    assert TrimPrefix(fallback, ">") == [' '] + (quote + ['\n']);
    TrimStart(quote + ['\n'], ' ', IsSpace);
    TrimEnd(quote, '\n', IsSpace);
    assert room + "/" + author == room + ['/'] + author;
    IndexAfter(room, author, '/');
    assert (room + ['/'] + author)[|room| + 1..] == author;
    TrimmedIff(quote, IsSpace);
    TrimmedIff(body, IsSpace);
  }

  /** What is shown of any message: a message that is no reply as it is; of a reply, the author is what follows the first
      slash, if there is one, and the span of the quote, when it lies in the text and is not empty, is cut out and shown
      trimmed and without its mark; another span leaves the text whole. */
  lemma RecoversExactly(r: Reply)
    ensures r.id == "" ==> Recover(r) == Shown(r.text, false, "", "")
    ensures r.id != "" && '/' !in r.to ==> Recover(r).author == ""
    ensures r.id != "" && (r.start < 0 || r.start >= r.end || r.end > |r.text|) ==> Recover(r).body == r.text && Recover(r).quote == ""
  {
    IndexBounds(r.to, '/');
  }

  lemma CutsTheSpan(r: Reply, before: string, span: string, after: string, room: string, author: string)
    requires r.id != "" && r.text == before + span + after && r.start == |before| && r.end == |before| + |span| && span != ""
    requires r.to == room + ['/'] + author && '/' !in room
    ensures var s := Recover(r);
      && s.body == Trim(before + after, IsSpace) && s.author == author
      && s.quote == Trim(if span[0] == '>' then span[1..] else span, IsSpace)
  {
    IndexAfter(room, author, '/');
    assert r.to[|room| + 1..] == author;
    assert r.text[..r.start] == before && r.text[r.end..] == after && r.text[r.start..r.end] == span;
    assert ">" <= span <==> span[0] == '>';
  }

  // ---- Wrapping ----

  function Line(group: seq<string>): string { Join(group, " ") }

  /** The lines as groups of words; cut when the rest of the words did not fit. */
  datatype Wrapped = Wrapped(groups: seq<seq<string>>, cut: bool)

  /** The words in lines, after those of the line begun; more: how many lines may follow it. */
  function Fill(words: seq<string>, group: seq<string>, width: int, more: int): (r: Wrapped)
    ensures |r.groups| > 0
    decreases |words|
  {
    if words == [] then Wrapped([group], false)
    else if group != [] && |Line(group + [words[0]])| > width then
      if more == 0 then Wrapped([group], true)
      else
        var r := Fill(words[1..], [words[0]], width, more - 1);
        Wrapped([group] + r.groups, r.cut)
    else Fill(words[1..], group + [words[0]], width, more)
  }

  function Lines(w: Wrapped): seq<string>
    requires |w.groups| > 0
    decreases |w.groups|
  {
    if |w.groups| == 1 then [Line(w.groups[0]) + if w.cut then "…" else ""]
    else [Line(w.groups[0])] + Lines(Wrapped(w.groups[1..], w.cut))
  }

  lemma {:induction false} LineMore(group: seq<string>, w: string)
    ensures Line(group + [w]) == if group == [] then w else Line(group) + " " + w
  {
    if group != [] {
      assert (group + [w])[1..] == group[1..] + [w];
      LineMore(group[1..], w);
    }
  }

  lemma LinesMore(lines: seq<string>, group: seq<string>, r: Wrapped)
    requires |r.groups| > 0
    ensures lines + Lines(Wrapped([group] + r.groups, r.cut)) == lines + [Line(group)] + Lines(r)
  {
    assert ([group] + r.groups)[1..] == r.groups;
    Assoc(lines, [Line(group)], Lines(r));
  }

  /** What the lines come to, with one line begun. */
  function Wraps(lines: seq<string>, group: seq<string>, words: seq<string>, width: int, n: int): seq<string> {
    lines + Lines(Fill(words, group, width, n - 1 - |lines|))
  }

  /** The next word ends the text, ends the line, or goes on in it. */
  lemma WrapsStep(lines: seq<string>, group: seq<string>, words: seq<string>, width: int, n: int)
    requires words != []
    ensures Wraps(lines, group, words, width, n) ==
      if group != [] && |Line(group + [words[0]])| > width then
        if |lines| == n - 1 then lines + [Line(group) + "…"] else Wraps(lines + [Line(group)], [words[0]], words[1..], width, n)
      else Wraps(lines, group + [words[0]], words[1..], width, n)
  {
    if group != [] && |Line(group + [words[0]])| > width && |lines| != n - 1 {
      LinesMore(lines, group, Fill(words[1..], [words[0]], width, n - 2 - |lines|));
    }
  }

  method Wrap(text: string, width: int, n: int) returns (lines: seq<string>)
    ensures lines == Lines(Fill(Fields(text, IsSpace), [], width, n - 1))
  {
    var words := Fields(text, IsSpace);
    lines := [];
    var line := "";
    ghost var group: seq<string> := [];
    Unit(Lines(Fill(words, [], width, n - 1)));
    for i := 0 to |words|
      invariant line == Line(group) && (line == "" <==> group == [])
      invariant Wraps(lines, group, words[i..], width, n) == Lines(Fill(words, [], width, n - 1))
    {
      var w := words[i];
      assert words[i] in words && words[i..][1..] == words[i + 1..];
      WrapsStep(lines, group, words[i..], width, n);
      LineMore(group, w);
      LineMore([], w);
      Unit([w]);
      if line != "" && |line + " " + w| > width {
        if |lines| == n - 1 { return lines + [line + "…"]; }
        lines := lines + [line];
        line, group := "", [];
      }
      if line != "" { line := line + " "; }
      line, group := line + w, group + [w];
    }
    assert words[|words|..] == [];
    Unit(line);
    lines := lines + [line];
  }

  function Flat(groups: seq<seq<string>>): seq<string> { if groups == [] then [] else groups[0] + Flat(groups[1..]) }

  /** A line is within the width, or a word that is wider alone. */
  predicate Fits(group: seq<string>, width: int) { |group| <= 1 || |Line(group)| <= width }

  /** Each line ends where its next word would not fit. */
  predicate Greedy(groups: seq<seq<string>>, width: int) {
    forall i :: 0 < i < |groups| ==> groups[i] != [] && |Line(groups[i - 1] + [groups[i][0]])| > width
  }

  lemma {:induction false} FillFits(words: seq<string>, group: seq<string>, width: int, more: int)
    requires Fits(group, width)
    ensures forall g <- Fill(words, group, width, more).groups :: Fits(g, width)
    decreases |words|
  {
    if words != [] {
      if group != [] && |Line(group + [words[0]])| > width {
        if more != 0 { FillFits(words[1..], [words[0]], width, more - 1); }
      } else {
        FillFits(words[1..], group + [words[0]], width, more);
      }
    }
  }

  lemma {:induction false} FillStarts(words: seq<string>, group: seq<string>, width: int, more: int)
    requires group != []
    ensures Fill(words, group, width, more).groups[0] != [] && Fill(words, group, width, more).groups[0][0] == group[0]
    decreases |words|
  {
    if words != [] && !(|Line(group + [words[0]])| > width) {
      FillStarts(words[1..], group + [words[0]], width, more);
    }
  }

  lemma {:induction false} FillIsGreedy(words: seq<string>, group: seq<string>, width: int, more: int)
    ensures Greedy(Fill(words, group, width, more).groups, width)
    decreases |words|
  {
    if words != [] {
      if group != [] && |Line(group + [words[0]])| > width {
        if more != 0 {
          FillIsGreedy(words[1..], [words[0]], width, more - 1);
          FillStarts(words[1..], [words[0]], width, more - 1);
          var r := Fill(words[1..], [words[0]], width, more - 1).groups;
          forall i | 0 < i < |[group] + r| ensures ([group] + r)[i] != [] && |Line(([group] + r)[i - 1] + [([group] + r)[i][0]])| > width {
            if i > 1 { assert r[i - 1] != [] && |Line(r[i - 2] + [r[i - 1][0]])| > width; }
          }
        }
      } else {
        FillIsGreedy(words[1..], group + [words[0]], width, more);
      }
    }
  }

  lemma {:induction false} FillBound(words: seq<string>, group: seq<string>, width: int, more: int)
    requires more >= 0
    ensures |Fill(words, group, width, more).groups| <= more + 1
    ensures Fill(words, group, width, more).cut ==> |Fill(words, group, width, more).groups| == more + 1
    decreases |words|
  {
    if words != [] {
      if group != [] && |Line(group + [words[0]])| > width {
        if more != 0 { FillBound(words[1..], [words[0]], width, more - 1); }
      } else {
        FillBound(words[1..], group + [words[0]], width, more);
      }
    }
  }

  /** The words of the lines are the first of all words; without a cut, all; with one, the next does not fit. */
  predicate FirstWords(r: Wrapped, all: seq<string>, width: int)
    requires |r.groups| > 0
  {
    var flat := Flat(r.groups);
    flat <= all && if r.cut then |flat| < |all| && |Line(r.groups[|r.groups| - 1] + [all[|flat|]])| > width else flat == all
  }

  lemma FirstWordsMore(group: seq<string>, r: Wrapped, all: seq<string>, width: int)
    requires |r.groups| > 0 && FirstWords(r, all, width)
    ensures FirstWords(Wrapped([group] + r.groups, r.cut), group + all, width)
  {
    var more := [group] + r.groups;
    assert more[1..] == r.groups && Flat(more) == group + Flat(r.groups);
  }

  lemma {:induction false} FillKeepsWords(words: seq<string>, group: seq<string>, width: int, more: int)
    ensures FirstWords(Fill(words, group, width, more), group + words, width)
    decreases |words|
  {
    Unit(group);
    if words == [] {
    } else if group != [] && |Line(group + [words[0]])| > width {
      if more != 0 {
        FillKeepsWords(words[1..], [words[0]], width, more - 1);
        assert [words[0]] + words[1..] == words;
        FirstWordsMore(group, Fill(words[1..], [words[0]], width, more - 1), words, width);
      }
    } else {
      FillKeepsWords(words[1..], group + [words[0]], width, more);
      assert group + [words[0]] + words[1..] == group + words;
    }
  }

  lemma {:induction false} LinesLength(w: Wrapped)
    requires |w.groups| > 0
    ensures |Lines(w)| == |w.groups|
    ensures forall i :: 0 <= i < |w.groups| ==> Lines(w)[i] == Line(w.groups[i]) + if w.cut && i == |w.groups| - 1 then "…" else ""
    decreases |w.groups|
  {
    if |w.groups| > 1 {
      LinesLength(Wrapped(w.groups[1..], w.cut));
    }
  }

  /** Main result: a text in at most n lines, each filled with words as long as they fit the width, of the text's words
      from the first on; all of them, or up to the mark at the end of the nth line. */
  lemma WrapIsExact(text: string, width: int, n: int)
    ensures var w := Fill(Fields(text, IsSpace), [], width, n - 1);
      && (forall g <- w.groups :: Fits(g, width)) && Greedy(w.groups, width)
      && FirstWords(w, Fields(text, IsSpace), width)
      && |Lines(w)| == |w.groups| && (n >= 1 ==> |Lines(w)| <= n && (w.cut ==> |Lines(w)| == n))
  {
    var words := Fields(text, IsSpace);
    LinesLength(Fill(words, [], width, n - 1));
    FillFits(words, [], width, n - 1);
    FillIsGreedy(words, [], width, n - 1);
    FillKeepsWords(words, [], width, n - 1);
    Unit(words);
    if n >= 1 { FillBound(words, [], width, n - 1); }
  }

  // ---- appQuote ----

  const QUOTE_WIDTH := 32
  const QUOTE_LINES := 2

  /** The text before and after the first occurrence of ": ". */
  function CutName(s: string): Option<(string, string)> {
    if |s| < 2 then None
    else if s[0] == ':' && s[1] == ' ' then Some(("", s[2..]))
    else
      var r := CutName(s[1..]);
      if r.None? then None else Some(([s[0]] + r.value.0, r.value.1))
  }

  function Bars(lines: seq<string>): string { if lines == [] then "" else Bars(lines[..|lines| - 1]) + "┃ " + lines[|lines| - 1] + "\n" }

  function ShowQuote(quote: seq<string>, body: string): string {
    var q := Join(quote, " ");
    var cut := CutName(q);
    if cut.Some? then "┃ " + cut.value.0 + ":\n" + Bars(Lines(Fill(Fields(cut.value.1, IsSpace), [], QUOTE_WIDTH, QUOTE_LINES - 1))) + body
    else Bars(Lines(Fill(Fields(q, IsSpace), [], QUOTE_WIDTH, QUOTE_LINES - 1))) + body
  }

  /** A body taken apart: the lines of its quote, and what is left; open when a quote line does not end. */
  datatype Parts = Parts(quote: seq<string>, rest: string, open: bool)

  function Take(quote: seq<string>, body: string): Parts
    decreases |body|
  {
    IndexBounds(body, '\n');
    var i := IndexOf(body, '\n');
    if !(">" <= body) then Parts(quote, body, false)
    else if i < 0 then Parts(quote, body, true)
    else
      TrimmedIff(body[i + 1..], IsSpace);
      Take(quote + [Trim(TrimPrefix(body[..i], ">"), IsSpace)], Trim(body[i + 1..], IsSpace))
  }

  /** The quote, then the answer; nothing but the rest when there is no quote, or one of its lines does not end. */
  function ShowParts(p: Parts): string { if p.open || p.quote == [] then p.rest else ShowQuote(p.quote, p.rest) }

  lemma CutNameStep(s: string, i: nat)
    requires i + 1 < |s|
    ensures CutName(s[i..]) ==
      if s[i] == ':' && s[i + 1] == ' ' then Some(("", s[i + 2..]))
      else if CutName(s[i + 1..]).None? then None
      else Some(([s[i]] + CutName(s[i + 1..]).value.0, CutName(s[i + 1..]).value.1))
  {
    assert s[i..][1..] == s[i + 1..] && s[i..][2..] == s[i + 2..];
  }

  function Before(front: string, r: Option<(string, string)>): Option<(string, string)> {
    if r.None? then None else Some((front + r.value.0, r.value.1))
  }

  lemma BeforeMore(s: string, i: nat, r: Option<(string, string)>)
    requires i < |s|
    ensures Before(s[..i], Before([s[i]], r)) == Before(s[..i + 1], r) && Before("", r) == r
  {
    if r.Some? {
      Unit(r.value.0);
      assert s[..i + 1] == s[..i] + [s[i]];
      Assoc(s[..i], [s[i]], r.value.0);
    }
  }

  /** strings.Cut at ": " */
  method CutAtColon(s: string) returns (name: string, rest: string, ok: bool)
    ensures ok <==> CutName(s).Some?
    ensures ok ==> CutName(s).value == (name, rest)
  {
    var i := 0;
    assert s[0..] == s && s[..0] == "";
    if s != "" { BeforeMore(s, 0, CutName(s)); }
    name, rest, ok := "", "", false;
    while i + 1 < |s|
      invariant i <= |s| && CutName(s) == Before(s[..i], CutName(s[i..]))
    {
      CutNameStep(s, i);
      if s[i] == ':' && s[i + 1] == ' ' {
        Unit(s[..i]);
        return s[..i], s[i + 2..], true;
      }
      BeforeMore(s, i, CutName(s[i + 1..]));
      i := i + 1;
    }
  }

  method Bar(lines: seq<string>, before: string) returns (b: string)
    ensures b == before + Bars(lines)
  {
    b := before;
    for i := 0 to |lines|
      invariant b == before + Bars(lines[..i])
    {
      assert lines[..i + 1][..i] == lines[..i];
      b := b + "┃ " + lines[i] + "\n";
    }
    assert lines[..|lines|] == lines;
  }

  lemma TakeOnce(quote: seq<string>, body: string)
    requires ">" <= body
    ensures var i := IndexOf(body, '\n');
      if i < 0 then Take(quote, body) == Parts(quote, body, true)
      else && i < |body| && |Trim(body[i + 1..], IsSpace)| < |body|
           && Take(quote, body) == Take(quote + [Trim(TrimPrefix(body[..i], ">"), IsSpace)], Trim(body[i + 1..], IsSpace))
  {
    IndexBounds(body, '\n');
    if IndexOf(body, '\n') >= 0 { TrimmedIff(body[IndexOf(body, '\n') + 1..], IsSpace); }
  }

  method AppQuote(text: string) returns (shown: string)
    ensures shown == ShowParts(Take([], text))
  {
    var body, quote: seq<string> := text, [];
    while ">" <= body
      invariant Take([], text) == Take(quote, body)
      decreases |body|
    {
      IndexBounds(body, '\n');
      var i := IndexOf(body, '\n');
      TakeOnce(quote, body);
      if i < 0 { return body; }
      quote := quote + [Trim(TrimPrefix(body[..i], ">"), IsSpace)];
      body := Trim(body[i + 1..], IsSpace);
    }
    if |quote| == 0 { return body; }
    shown := PrintQuote(quote, body);
  }

  method PrintQuote(quote: seq<string>, body: string) returns (shown: string)
    ensures shown == ShowQuote(quote, body)
  {
    var q := Join(quote, " ");
    var name, rest, ok := CutAtColon(q);
    var before := "";
    if ok {
      before := "┃ " + name + ":\n";
      q := rest;
    }
    var lines := Wrap(q, QUOTE_WIDTH, QUOTE_LINES);
    var b := Bar(lines, before);
    shown := b + body;
  }

  lemma {:induction false} CutNameGlues(s: string)
    ensures CutName(s).Some? ==> s == CutName(s).value.0 + ": " + CutName(s).value.1
  {
    if |s| >= 2 {
      if s[0] == ':' && s[1] == ' ' {
        assert s == [s[0], s[1]] + s[2..];
      } else {
        CutNameGlues(s[1..]);
        assert s == [s[0]] + s[1..];
      }
    }
  }

  // ---- When quote and answer come apart ----

  /** A reply as clients write it: each line of the quote marked, then the answer. */
  function Written(lines: seq<string>, answer: string): string {
    if lines == [] then answer else "> " + lines[0] + "\n" + Written(lines[1..], answer)
  }

  function TrimAll(lines: seq<string>): seq<string> {
    if lines == [] then [] else [Trim(lines[0], IsSpace)] + TrimAll(lines[1..])
  }

  predicate OneLine(s: string) { '\n' !in s }

  lemma TakeOne(quote: seq<string>, line: string, rest: string)
    requires OneLine(line)
    ensures Take(quote, "> " + line + "\n" + rest) == Take(quote + [Trim(line, IsSpace)], Trim(rest, IsSpace))
  {
    var first := "> " + line;
    var body := first + ['\n'] + rest;
    assert "> " + line + "\n" + rest == body;
    IndexAfter(first, rest, '\n');
    assert body[..|first|] == first && body[|first| + 1..] == rest;
    assert TrimPrefix(first, ">") == [' '] + line;
    TrimStart(line, ' ', IsSpace);
    TakeOnce(quote, body);
  }

  lemma {:induction false} TakeGrows(quote: seq<string>, body: string)
    ensures quote <= Take(quote, body).quote
    ensures ">" <= body ==> Take(quote, body).open || |Take(quote, body).quote| > |quote|
    decreases |body|
  {
    if ">" <= body && IndexOf(body, '\n') >= 0 {
      TakeOnce(quote, body);
      var i := IndexOf(body, '\n');
      TakeGrows(quote + [Trim(TrimPrefix(body[..i], ">"), IsSpace)], Trim(body[i + 1..], IsSpace));
    }
  }

  lemma {:induction false} WrittenEnds(lines: seq<string>, s: string)
    requires s != "" && !IsSpace(s[|s| - 1])
    ensures var w := Written(lines, s);
      w != "" && w[|w| - 1] == s[|s| - 1] && (lines != [] ==> Trim(w, IsSpace) == w)
  {
    if lines != [] {
      WrittenEnds(lines[1..], s);
      TrimmedIff(Written(lines, s), IsSpace);
    }
  }

  /** The marked lines are taken off one by one, down to a rest that does not end in white space. */
  lemma {:induction false} TakeLines(quote: seq<string>, lines: seq<string>, s: string)
    requires (forall l <- lines :: OneLine(l)) && s != "" && !IsSpace(s[|s| - 1])
    ensures Take(quote, Trim(Written(lines, s), IsSpace)) == Take(quote + TrimAll(lines), Trim(s, IsSpace))
    decreases |lines|
  {
    if lines == [] {
      Unit(quote);
    } else {
      WrittenEnds(lines, s);
      assert lines[0] in lines && forall l <- lines[1..] :: l in lines;
      TakeOne(quote, lines[0], Written(lines[1..], s));
      TakeLines(quote + [Trim(lines[0], IsSpace)], lines[1..], s);
      Assoc(quote, [Trim(lines[0], IsSpace)], TrimAll(lines[1..]));
    }
  }

  /** White space after a text does not matter to Trim. */
  lemma {:induction false} TrimAfter(p: string, s: string)
    ensures Trim(p + s, IsSpace) == Trim(p + TrimRight(s, IsSpace), IsSpace)
  {
    if s != "" && IsSpace(s[|s| - 1]) {
      var n := |s| - 1;
      assert p + s == p + s[..n] + [s[n]];
      TrimEnd(p + s[..n], s[n], IsSpace);
      TrimAfter(p, s[..n]);
    }
  }

  lemma {:induction false} TrimLeftBlank(s: string)
    requires s != "" && !IsSpace(s[|s| - 1])
    ensures TrimLeft(s, IsSpace) != "" && TrimLeft(s, IsSpace)[|TrimLeft(s, IsSpace)| - 1] == s[|s| - 1]
  {
    if IsSpace(s[0]) { TrimLeftBlank(s[1..]); }
  }

  /** A text that trims to nothing trims to nothing from the right. */
  lemma BlankOrEnds(s: string)
    ensures var t := TrimRight(s, IsSpace);
      && Trim(t, IsSpace) == Trim(s, IsSpace) && (t == "" || !IsSpace(t[|t| - 1]))
      && (Trim(s, IsSpace) == "" <==> t == "")
  {
    TrimRightShape(s, IsSpace);
    TrimAfter("", s);
    var t := TrimRight(s, IsSpace);
    assert "" + s == s && "" + t == t;
    if t != "" {
      TrimLeftBlank(t);
      TrimRightShape(TrimLeft(t, IsSpace), IsSpace);
    }
  }

  lemma {:induction false} WrittenConcat(lines: seq<string>, s: string)
    ensures Written(lines, s) == Written(lines, "") + s
  {
    if lines == [] {
      Unit(s);
    } else {
      WrittenConcat(lines[1..], s);
      Assoc("> " + lines[0] + "\n", Written(lines[1..], ""), s);
    }
  }

  /** The same for any answer that is not blank. */
  lemma TakeWritten(quote: seq<string>, lines: seq<string>, answer: string)
    requires (forall l <- lines :: OneLine(l)) && Trim(answer, IsSpace) != ""
    ensures Take(quote, Trim(Written(lines, answer), IsSpace)) == Take(quote + TrimAll(lines), Trim(answer, IsSpace))
  {
    BlankOrEnds(answer);
    WrittenConcat(lines, answer);
    WrittenConcat(lines, TrimRight(answer, IsSpace));
    TrimAfter(Written(lines, ""), answer);
    TakeLines(quote, lines, TrimRight(answer, IsSpace));
  }

  /** A last quote line with nothing after it does not end any more once the white space is gone. */
  lemma LastLineOpens(line: string, answer: string)
    requires OneLine(line) && Trim(answer, IsSpace) == ""
    ensures var t := Trim(Written([line], answer), IsSpace); ">" <= t && OneLine(t)
  {
    var first := "> " + line;
    BlankOrEnds(answer);
    assert Written([line], answer) == (first + "\n") + answer;
    TrimAfter(first + "\n", answer);
    Unit(first + "\n");
    TrimEnd(first, '\n', IsSpace);
    assert TrimLeft(first, IsSpace) == first;
    TrimRightShape(first, IsSpace);
    BlankOrEnds(first);
    assert Trim(first, IsSpace)[0] == '>' by { TrimKeepsMark(line); }
  }

  lemma TrimKeepsMark(line: string)
    ensures var t := Trim("> " + line, IsSpace); t != "" && t[0] == '>'
  {
    var first := "> " + line;
    TrimAfter(">", " " + line);
    assert ">" + (" " + line) == first;
    var r := TrimRight(" " + line, IsSpace);
    TrimRightShape(" " + line, IsSpace);
    TrimmedIff(">" + r, IsSpace);
  }

  lemma {:induction false} WrittenSplit(lines: seq<string>, last: string, s: string)
    ensures Written(lines + [last], s) == Written(lines, Written([last], s))
  {
    if lines != [] {
      assert (lines + [last])[1..] == lines[1..] + [last];
      WrittenSplit(lines[1..], last, s);
    }
  }

  /** The first line is taken off, and the rest of the text trimmed. */
  lemma TakeFirst(lines: seq<string>, answer: string)
    requires lines != [] && OneLine(lines[0])
    ensures Take([], Written(lines, answer)) == Take([Trim(lines[0], IsSpace)], Trim(Written(lines[1..], answer), IsSpace))
  {
    TakeOne([], lines[0], Written(lines[1..], answer));
    Unit([Trim(lines[0], IsSpace)]);
  }

  lemma OpenAtLast(quote: seq<string>, middle: seq<string>, last: string, answer: string)
    requires (forall l <- middle :: OneLine(l)) && OneLine(last) && Trim(answer, IsSpace) == ""
    ensures Take(quote, Trim(Written(middle + [last], answer), IsSpace)).open
  {
    WrittenSplit(middle, last, answer);
    LastLineOpens(last, answer);
    var tail := Written([last], answer);
    TakeWritten(quote, middle, tail);
    IndexBounds(Trim(tail, IsSpace), '\n');
    TakeOnce(quote + TrimAll(middle), Trim(tail, IsSpace));
  }

  /** Without an answer, a quote of more than one line stays open at its last. */
  lemma BlankAnswerOpens(lines: seq<string>, answer: string)
    requires |lines| >= 2 && (forall l <- lines :: OneLine(l)) && Trim(answer, IsSpace) == ""
    ensures Take([], Written(lines, answer)).open
  {
    var n := |lines| - 1;
    var middle, last := lines[1..n], lines[n];
    assert lines[1..] == middle + [last] && last in lines && forall l <- middle :: l in lines;
    TakeFirst(lines, answer);
    OpenAtLast([Trim(lines[0], IsSpace)], middle, last, answer);
  }

  /** Quote and answer as they were written, trimmed. */
  predicate ComesApart(lines: seq<string>, answer: string) {
    Take([], Written(lines, answer)) == Parts(TrimAll(lines), Trim(answer, IsSpace), false)
  }

  /** Main result: a reply comes apart into the lines it quotes and its answer if and only if the answer does not begin
      as a quote itself, nor is blank below a quote of more than one line. */
  lemma WrittenComesApart(lines: seq<string>, answer: string)
    requires lines != [] && forall l <- lines :: OneLine(l)
    ensures ComesApart(lines, answer)
            <==> !(">" <= Trim(answer, IsSpace)) && (Trim(answer, IsSpace) == "" ==> |lines| == 1)
  {
    var a, first := Trim(answer, IsSpace), Trim(lines[0], IsSpace);
    assert lines[0] in lines && forall l <- lines[1..] :: l in lines;
    TakeFirst(lines, answer);
    if a != "" {
      TakeWritten([first], lines[1..], answer);
      TakeGrows([first] + TrimAll(lines[1..]), a);
    } else if |lines| == 1 {
      assert lines[1..] == [] && TrimAll(lines) == [first];
    } else {
      BlankAnswerOpens(lines, answer);
    }
  }

  /** A second line of the quote that is not marked becomes part of the answer. */
  lemma UnmarkedLineLeaks(line: string, second: string, answer: string)
    requires OneLine(line) && !(">" <= Trim(second + "\n" + answer, IsSpace))
    ensures Take([], "> " + line + "\n" + (second + "\n" + answer))
            == Parts([Trim(line, IsSpace)], Trim(second + "\n" + answer, IsSpace), false)
  {
    TakeOne([], line, second + "\n" + answer);
    Unit([Trim(line, IsSpace)]);
  }

  /** A quote line without an end drops the lines before it. */
  lemma OpenQuoteDropsTheRest(first: string, second: string)
    requires OneLine(first) && OneLine(second) && ">" <= second && Trimmed(second, IsSpace)
    ensures ShowParts(Take([], "> " + first + "\n" + second)) == second
  {
    TakeOne([], first, second);
    TrimmedIff(second, IsSpace);
    IndexBounds(second, '\n');
    TakeOnce([] + [Trim(first, IsSpace)], second);
  }

  // ---- The gateway's own replies ----

  const QUOTE_MAX := 200

  /** guestSend's quote: the message's text on one line, cut when it is long. */
  function QuoteOf(text: string): string {
    var q := Line(Fields(text, IsSpace));
    if |q| > QUOTE_MAX then q[..QUOTE_MAX - 1] + "…" else q
  }

  predicate Word(w: string) { w != "" && forall c <- w :: !IsSpace(c) }

  lemma {:induction false} LineOfWords(words: seq<string>)
    requires forall w <- words :: Word(w)
    ensures OneLine(Line(words)) && Trimmed(Line(words), IsSpace) && (words != [] ==> Line(words) != "")
  {
    if words != [] {
      assert Word(words[0]) && forall w <- words[1..] :: w in words;
      assert '\n' !in words[0] by { assert IsSpace('\n'); }
      if |words| > 1 {
        LineOfWords(words[1..]);
        JoinTwo(words, " ");
        var rest := Line(words[1..]);
        assert Line(words) == words[0] + " " + rest;
      }
    }
  }

  lemma QuoteOfIsOneLine(text: string)
    ensures OneLine(QuoteOf(text)) && Trim(QuoteOf(text), IsSpace) == QuoteOf(text)
  {
    LineOfWords(Fields(text, IsSpace));
    TrimmedIff(QuoteOf(text), IsSpace);
  }

  /** The quote sent is the text's words on one line when that has two hundred characters at most, else its first 199 and
      an ellipsis. */
  lemma QuoteOfIs(text: string)
    ensures var q, sent := Join(Fields(text, IsSpace), " "), QuoteOf(text);
      (|q| <= 200 ==> sent == q) && (|q| > 200 ==> |sent| == 200 && sent[..199] == q[..199] && sent[199] == '…')
  {
  }

  /** A message that begins no quote is shown as it is. */
  lemma PlainIsShown(body: string)
    requires body == "" || body[0] != '>'
    ensures ShowParts(Take([], body)) == body
  {
  }

  /** Main result: the app shows a reply sent through the gateway as the name before the first ": " of the quote, if
      there is one, at most two lines of the quote, and the trimmed answer; unless the answer begins as a quote, and
      only then. */
  lemma AppShowsTheReply(text: string, answer: string, room: string, id: string, author: string)
    ensures var quote, a := QuoteOf(text), Trim(answer, IsSpace);
      var parts := Take([], Compose(room, answer, id, author, quote).text);
      && (parts == Parts([quote], a, false) <==> !(">" <= a))
      && (!(">" <= a) ==>
            match CutName(quote)
            case Some((name, said)) =>
              quote == name + ": " + said &&
              var lines := Lines(Fill(Fields(said, IsSpace), [], QUOTE_WIDTH, 1));
              ShowParts(parts) == "┃ " + name + ":\n" + Bars(lines) + a && |lines| <= QUOTE_LINES
            case None =>
              var lines := Lines(Fill(Fields(quote, IsSpace), [], QUOTE_WIDTH, 1));
              ShowParts(parts) == Bars(lines) + a && |lines| <= QUOTE_LINES)
  {
    var quote := QuoteOf(text);
    QuoteOfIsOneLine(text);
    assert Written([quote], answer) == Compose(room, answer, id, author, quote).text;
    WrittenComesApart([quote], answer);
    assert TrimAll([quote]) == [quote];
    CutNameGlues(quote);
    if CutName(quote).Some? { WrapIsExact(CutName(quote).value.1, QUOTE_WIDTH, QUOTE_LINES);
    } else { WrapIsExact(quote, QUOTE_WIDTH, QUOTE_LINES); }
  }
}
