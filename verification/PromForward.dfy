/** promtext.py: whole pages, and label values. */
module PromForward {
  import opened Text
  import opened Spaces
  import opened PromText

  // ---- Printing as the source does ----

  /** '%s="%s"' */
  function LabelText(l: Label): string { l.name + "=\"" + l.value + "\"" }

  function LabelTexts(labels: seq<Label>): seq<string> { if labels == [] then [] else [LabelText(labels[0])] + LabelTexts(labels[1..]) }

  lemma {:induction false} LabelsAreJoined(labels: seq<Label>, rest: string)
    requires labels != []
    ensures PrintLabels(labels, rest) == Join(LabelTexts(labels), ",") + ("}" + rest)
    decreases |labels|
  {
    var text, texts := LabelText(labels[0]), LabelTexts(labels[1..]);
    LabelsAreText(labels[0], if |labels| == 1 then "}" + rest else "," + PrintLabels(labels[1..], rest));
    assert LabelTexts(labels) == [text] + texts;
    if |labels| == 1 {
      assert [text] + texts == [text];
    } else {
      LabelsAreJoined(labels[1..], rest);
      JoinFirst(text, texts);
      assert texts != [];
      Regroup(text, ",", Join(texts, ","), "}" + rest);
    }
  }

  lemma LabelsAreText(l: Label, rest: string)
    ensures PrintLabel(l, rest) == LabelText(l) + rest
  {
  }

  lemma JoinFirst(text: string, texts: seq<string>)
    ensures texts != [] ==> Join([text] + texts, ",") == text + "," + Join(texts, ",")
  {
    assert ([text] + texts)[1..] == texts;
  }

  lemma Regroup(a: string, b: string, c: string, d: string)
    ensures a + (b + (c + d)) == a + b + c + d
  {
  }

  /** A sample's line: the name, the labels in braces when there are any, and the value. */
  lemma PrintIsFormat(s: Sample)
    ensures Print(s) == s.name + (if s.labels == [] then "" else "{" + Join(LabelTexts(s.labels), ",") + "}") + " " + s.value
  {
    if s.labels != [] { LabelsAreJoined(s.labels, " " + s.value); }
  }

  // ---- Lines ----

  /** str.splitlines */
  function SplitLines(s: string): seq<string>
    decreases |s|
  {
    if s == "" then []
    else
      var n := Span(s, Line);
      if n == |s| then [s]
      else [s[..n]] + SplitLines(s[n + (if s[n] == '\r' && n + 1 < |s| && s[n + 1] == '\n' then 2 else 1)..])
  }

  lemma {:induction false} LinesArePlain(s: string)
    ensures forall i :: 0 <= i < |SplitLines(s)| ==> Plain(SplitLines(s)[i])
    decreases |s|
  {
    if s != "" {
      var n := Span(s, Line);
      SpanHolds(s, Line);
      if n < |s| { LinesArePlain(s[n + (if s[n] == '\r' && n + 1 < |s| && s[n + 1] == '\n' then 2 else 1)..]); }
    }
  }

  /** Lines as a page: each with a line feed after it. */
  function Page(lines: seq<string>): string { if lines == [] then "" else lines[0] + ("\n" + Page(lines[1..])) }

  /** The source's own way to write it. */
  lemma {:induction false} PageIsJoin(lines: seq<string>)
    ensures Page(lines) == if lines == [] then "" else Join(lines, "\n") + "\n"
  {
    if |lines| > 1 {
      PageIsJoin(lines[1..]);
      assert Join(lines, "\n") == lines[0] + "\n" + Join(lines[1..], "\n");
    } else if |lines| == 1 {
      Unit("\n");
    }
  }

  lemma {:induction false} FirstLine(line: string, rest: string)
    requires Plain(line)
    ensures SplitLines(line + ("\n" + rest)) == [line] + SplitLines(rest)
  {
    var s := line + ("\n" + rest);
    SpanOf(line, "\n" + rest, Line);
    assert s[|line|] == '\n';
    assert s[|line| + 1..] == rest;
  }

  predicate AllPlain(lines: seq<string>) { forall i :: 0 <= i < |lines| ==> Plain(lines[i]) }

  lemma {:induction false} PageSplits(lines: seq<string>)
    requires AllPlain(lines)
    ensures SplitLines(Page(lines)) == lines
  {
    if lines != [] {
      FirstLine(lines[0], Page(lines[1..]));
      PageSplits(lines[1..]);
    }
  }

  // ---- Samples ----

  /** unescape */
  function Unescape(s: string): string
    decreases |s|
  {
    if s == "" then ""
    else if s[0] == '\\' && |s| > 1 && s[1] != '\n' then [if s[1] == 'n' then '\n' else s[1]] + Unescape(s[2..])
    else [s[0]] + Unescape(s[1..])
  }

  /** The labels by name, the last of a name: what a dictionary keeps. */
  function Dict(labels: seq<Label>): map<string, string> {
    if labels == [] then map[]
    else Dict(labels[..|labels| - 1])[labels[|labels| - 1].name := Unescape(labels[|labels| - 1].value)]
  }

  /** A sample as a reader sees it; the value is the text that float reads. */
  datatype Reading = Reading(labels: map<string, string>, value: string)

  function SampleOf(line: string, number: string -> bool): Option<Sample> { ParseSample(Trim(line, IsSpace), number) }

  function ReadingsOf(line: string, name: string, number: string -> bool): seq<Reading> {
    var s := SampleOf(line, number);
    if s.Some? && s.value.name == name then [Reading(Dict(s.value.labels), s.value.value)] else []
  }

  function SamplesIn(lines: seq<string>, name: string, number: string -> bool): seq<Reading> {
    if lines == [] then [] else ReadingsOf(lines[0], name, number) + SamplesIn(lines[1..], name, number)
  }

  method Samples(text: string, name: string, number: string -> bool) returns (found: seq<Reading>)
    ensures found == SamplesIn(SplitLines(text), name, number)
  {
    found := [];
    var lines := SplitLines(text);
    for i := 0 to |lines|
      invariant found + SamplesIn(lines[i..], name, number) == SamplesIn(lines, name, number)
    {
      assert lines[i..][0] == lines[i] && lines[i..][1..] == lines[i + 1..];
      Assoc(found, ReadingsOf(lines[i], name, number), SamplesIn(lines[i + 1..], name, number));
      var s := ReadSample(Trim(lines[i], IsSpace), number);
      if s.Some? && s.value.name == name {
        var d := DictOf(s.value.labels);
        found := found + [Reading(d, s.value.value)];
      } else {
        Unit(found);
      }
    }
    Unit(found);
  }

  method DictOf(labels: seq<Label>) returns (d: map<string, string>)
    ensures d == Dict(labels)
  {
    d := map[];
    for i := 0 to |labels|
      invariant d == Dict(labels[..i])
    {
      assert labels[..i + 1][..i] == labels[..i];
      d := d[labels[i].name := Unescape(labels[i].value)];
    }
    assert labels[..|labels|] == labels;
  }

  // ---- Forwarding ----

  predicate IsReserved(name: string) { name == "module" || name == "module_id" || name == "instance" }

  predicate HasReserved(labels: seq<Label>) { exists i :: 0 <= i < |labels| && IsReserved(labels[i].name) }

  predicate NoSpace(s: string) { forall i :: 0 <= i < |s| ==> !IsSpace(s[i]) }

  function WordLength(s: string): (n: nat)
    ensures n <= |s| && NoSpace(s[..n]) && (n < |s| ==> IsSpace(s[n]))
    ensures s != "" && !IsSpace(s[0]) ==> n > 0
  {
    if s == "" || IsSpace(s[0]) then 0
    else
      var n := WordLength(s[1..]);
      assert s[..n + 1] == [s[0]] + s[1..][..n];
      n + 1
  }

  /** str.split(None, n): at most n words, and the rest as it is. */
  function SplitWords(s: string, n: nat): seq<string>
    decreases n
  {
    var t := SkipSpaces(s);
    if t == "" then []
    else if n == 0 then [t]
    else [t[..WordLength(t)]] + SplitWords(t[WordLength(t)..], n - 1)
  }

  /** A HELP or TYPE line of a family with the prefix. */
  predicate IsComment(fields: seq<string>, prefix: string) {
    |fields| >= 3 && (fields[1] == "HELP" || fields[1] == "TYPE") && prefix <= fields[2]
  }

  function Forwarded(lines: seq<string>, prefix: string, number: string -> bool, seen: set<(string, string)>): seq<string> {
    if lines == [] then []
    else
      var line := Trim(lines[0], IsSpace);
      if Starts(line, '#') then
        var fields := SplitWords(line, 3);
        if IsComment(fields, prefix) && (fields[1], fields[2]) !in seen
        then [Join(fields, " ")] + Forwarded(lines[1..], prefix, number, seen + {(fields[1], fields[2])})
        else Forwarded(lines[1..], prefix, number, seen)
      else
        var s := ParseSample(line, number);
        if s.Some? && prefix <= s.value.name && !HasReserved(s.value.labels)
        then [Print(s.value)] + Forwarded(lines[1..], prefix, number, seen)
        else Forwarded(lines[1..], prefix, number, seen)
  }

  /** forward */
  function ForwardOf(text: string, prefix: string, number: string -> bool): string {
    Page(Forwarded(SplitLines(text), prefix, number, {}))
  }

  method Forward(text: string, prefix: string, number: string -> bool) returns (page: string)
    ensures page == ForwardOf(text, prefix, number)
  {
    var lines: seq<string>, seen: set<(string, string)> := [], {};
    var all := SplitLines(text);
    for i := 0 to |all|
      invariant lines + Forwarded(all[i..], prefix, number, seen) == Forwarded(all, prefix, number, {})
    {
      assert all[i..][0] == all[i] && all[i..][1..] == all[i + 1..];
      var out, key := ForwardLine(Trim(all[i], IsSpace), prefix, number, seen);
      ghost var more := Forwarded(all[i + 1..], prefix, number, seen + key);
      assert seen + {} == seen;
      assert Forwarded(all[i..], prefix, number, seen) == out + more;
      Assoc(lines, out, more);
      lines, seen := lines + out, seen + key;
    }
    Unit(lines);
    PageIsJoin(lines);
    page := if |lines| > 0 then Join(lines, "\n") + "\n" else "";
  }

  /** One stripped line: what is kept of it, and the key of a comment that is. */
  method ForwardLine(line: string, prefix: string, number: string -> bool, seen: set<(string, string)>)
    returns (out: seq<string>, key: set<(string, string)>)
    ensures var fields := SplitWords(line, 3); Starts(line, '#') ==>
              if IsComment(fields, prefix) && (fields[1], fields[2]) !in seen
              then out == [Join(fields, " ")] && key == {(fields[1], fields[2])} else out == [] && key == {}
    ensures var s := ParseSample(line, number); !Starts(line, '#') ==>
              key == {} && out == if s.Some? && prefix <= s.value.name && !HasReserved(s.value.labels) then [Print(s.value)] else []
  {
    if line != "" && line[0] == '#' {
      var fields := SplitWords(line, 3);
      if |fields| >= 3 && (fields[1] == "HELP" || fields[1] == "TYPE") && prefix <= fields[2] && (fields[1], fields[2]) !in seen {
        return [Join(fields, " ")], {(fields[1], fields[2])};
      }
      return [], {};
    }
    var s := ReadSample(line, number);
    if s.None? || !(prefix <= s.value.name) { return [], {}; }
    var reserved := AnyReserved(s.value.labels);
    if reserved { return [], {}; }
    out, key := [Print(s.value)], {};
  }

  method AnyReserved(labels: seq<Label>) returns (r: bool)
    ensures r == HasReserved(labels)
  {
    for i := 0 to |labels|
      invariant forall j :: 0 <= j < i ==> !IsReserved(labels[j].name)
    {
      if IsReserved(labels[i].name) { return true; }
    }
    r := false;
  }

  // ---- Meaning ----

  /** The readings without a reserved label. */
  function Unreserved(found: seq<Reading>): seq<Reading> {
    if found == [] then []
    else (if exists k <- found[0].labels :: IsReserved(k) then [] else [found[0]]) + Unreserved(found[1..])
  }

  lemma {:induction false} DictKeys(labels: seq<Label>)
    ensures forall k :: k in Dict(labels) <==> exists i :: 0 <= i < |labels| && labels[i].name == k
  {
    if labels != [] {
      var n := |labels| - 1;
      DictKeys(labels[..n]);
      forall k ensures k in Dict(labels) <==> exists i :: 0 <= i < |labels| && labels[i].name == k {
        if k in Dict(labels[..n]) {
          var i :| 0 <= i < n && labels[..n][i].name == k;
          assert labels[i].name == k;
        } else if i :| 0 <= i < |labels| && labels[i].name == k {
          if i < n { assert labels[..n][i].name == k; }
        }
      }
    }
  }

  lemma ReservedSame(labels: seq<Label>)
    ensures HasReserved(labels) <==> exists k <- Dict(labels) :: IsReserved(k)
  {
    DictKeys(labels);
    if HasReserved(labels) {
      var i :| 0 <= i < |labels| && IsReserved(labels[i].name);
      assert labels[i].name in Dict(labels);
    }
  }

  /** A printed sample's line is the sample, and nothing else. */
  lemma PrintedLine(s: Sample, number: string -> bool)
    requires SampleOk(s, number)
    ensures SampleOf(Print(s), number) == Some(s) && !Starts(Print(s), '#') && Trim(Print(s), IsSpace) == Print(s)
  {
    PrintedTrims(s);
    PrintedParses(s, number);
  }

  lemma PrintedTrims(s: Sample)
    requires s.name != "" && NameStart(s.name[0]) && s.value != "" && forall c <- s.value :: !IsSpace(c)
    ensures !Starts(Print(s), '#') && Trim(Print(s), IsSpace) == Print(s)
  {
    PrintedEnds(s);
    TrimmedIff(Print(s), IsSpace);
  }

  lemma {:induction false} LabelsEnd(labels: seq<Label>, rest: string)
    requires rest != ""
    ensures PrintLabels(labels, rest)[|PrintLabels(labels, rest)| - 1] == rest[|rest| - 1]
    decreases |labels|
  {
    if |labels| > 1 { LabelsEnd(labels[1..], rest); }
  }

  lemma PrintedEnds(s: Sample)
    requires s.name != "" && NameStart(s.name[0]) && s.value != "" && forall c <- s.value :: !IsSpace(c)
    ensures var p := Print(s); p != "" && p[0] == s.name[0] && !IsSpace(p[0]) && !IsSpace(p[|p| - 1])
  {
    var tail := " " + s.value;
    assert tail[|tail| - 1] == s.value[|s.value| - 1] && s.value[|s.value| - 1] in s.value;
    LabelsEnd(s.labels, tail);
  }

  /** A kept line has no reading of a name but the one that the line it stands for has. */
  lemma {:induction false} ForwardMeans(lines: seq<string>, prefix: string, number: string -> bool, seen: set<(string, string)>, name: string)
    requires prefix <= name
    ensures SamplesIn(Forwarded(lines, prefix, number, seen), name, number) == Unreserved(SamplesIn(lines, name, number))
    decreases |lines|
  {
    if lines != [] {
      var line := Trim(lines[0], IsSpace);
      var rest := SamplesIn(lines[1..], name, number);
      if Starts(line, '#') {
        var fields := SplitWords(line, 3);
        assert ReadingsOf(lines[0], name, number) == [];
        Unit(rest);
        if IsComment(fields, prefix) && (fields[1], fields[2]) !in seen {
          var more := Forwarded(lines[1..], prefix, number, seen + {(fields[1], fields[2])});
          ForwardMeans(lines[1..], prefix, number, seen + {(fields[1], fields[2])}, name);
          CommentReads(line, name, number);
          FirstReading(Join(fields, " "), more, name, number);
        } else {
          ForwardMeans(lines[1..], prefix, number, seen, name);
        }
      } else {
        ForwardMeans(lines[1..], prefix, number, seen, name);
        SampleMeans(lines, prefix, number, seen, name);
      }
    }
  }

  lemma FirstReading(line: string, more: seq<string>, name: string, number: string -> bool)
    ensures SamplesIn([line] + more, name, number) == ReadingsOf(line, name, number) + SamplesIn(more, name, number)
    ensures ReadingsOf(line, name, number) == [] ==> SamplesIn([line] + more, name, number) == SamplesIn(more, name, number)
  {
    assert ([line] + more)[1..] == more;
    Unit(SamplesIn(more, name, number));
  }

  lemma UnreservedMore(first: seq<Reading>, rest: seq<Reading>)
    requires |first| <= 1
    ensures Unreserved(first + rest) == (if first == [] || exists k <- first[0].labels :: IsReserved(k) then [] else first) + Unreserved(rest)
  {
    if first == [] {
      Unit(rest);
      Unit(Unreserved(rest));
    } else {
      assert (first + rest)[1..] == rest && first == [first[0]];
    }
  }

  lemma {:induction false} SampleMeans(lines: seq<string>, prefix: string, number: string -> bool, seen: set<(string, string)>, name: string)
    requires lines != [] && prefix <= name && !Starts(Trim(lines[0], IsSpace), '#')
    requires SamplesIn(Forwarded(lines[1..], prefix, number, seen), name, number) == Unreserved(SamplesIn(lines[1..], name, number))
    ensures SamplesIn(Forwarded(lines, prefix, number, seen), name, number) == Unreserved(SamplesIn(lines, name, number))
  {
    var s := SampleOf(lines[0], number);
    var more := Forwarded(lines[1..], prefix, number, seen);
    var rest := SamplesIn(lines[1..], name, number);
    UnreservedMore(ReadingsOf(lines[0], name, number), rest);
    Unit(Unreserved(rest));
    if s.Some? {
      ReservedSame(s.value.labels);
      if prefix <= s.value.name && !HasReserved(s.value.labels) {
        ParsedIsOk(Trim(lines[0], IsSpace), number);
        PrintedLine(s.value, number);
        FirstReading(Print(s.value), more, name, number);
        assert ReadingsOf(Print(s.value), name, number) == ReadingsOf(lines[0], name, number);
      }
    }
  }

  lemma TrimFirst(c: string)
    requires c != "" && !IsSpace(c[0])
    ensures Trim(c, IsSpace) == "" || Trim(c, IsSpace)[0] == c[0]
  {
    TrimLeftShape(c, IsSpace);
    TrimRightShape(c, IsSpace);
  }

  lemma NoSampleAt(t: string, number: string -> bool)
    requires t == "" || t[0] == '#'
    ensures ParseSample(t, number) == None
  {
  }

  /** A line that starts as a comment does so trimmed, and is no sample. */
  lemma HashIsNoSample(c: string, number: string -> bool)
    requires Starts(c, '#')
    ensures SampleOf(c, number) == None
  {
    TrimFirst(c);
    NoSampleAt(Trim(c, IsSpace), number);
  }

  lemma CommentReads(line: string, name: string, number: string -> bool)
    requires Starts(line, '#')
    ensures ReadingsOf(Join(SplitWords(line, 3), " "), name, number) == []
  {
    JoinStarts(line);
    HashIsNoSample(Join(SplitWords(line, 3), " "), number);
  }

  lemma JoinStarts(line: string)
    requires Starts(line, '#')
    ensures Starts(Join(SplitWords(line, 3), " "), '#')
  {
    assert SkipSpaces(line) == line;
    var words := SplitWords(line, 3);
    assert words[0] == line[..WordLength(line)];
    assert Starts(words[0], '#');
  }

  /** Main result: for every page and every metric name under the prefix, reading the forwarded page gives what reading
      the page gives, without the samples that carry a reserved label. */
  lemma {:induction false} ForwardKeepsMeaning(text: string, prefix: string, number: string -> bool, name: string)
    requires prefix <= name
    ensures SamplesIn(SplitLines(ForwardOf(text, prefix, number)), name, number)
      == Unreserved(SamplesIn(SplitLines(text), name, number))
  {
    var lines := SplitLines(text);
    LinesArePlain(text);
    ForwardedArePlain(lines, prefix, number, {});
    PageSplits(Forwarded(lines, prefix, number, {}));
    ForwardMeans(lines, prefix, number, {}, name);
  }

  lemma TrimPlain(s: string)
    requires Plain(s)
    ensures Plain(Trim(s, IsSpace))
  {
    TrimmedIff(s, IsSpace);
    PlainWord(Trim(s, IsSpace), s);
  }

  lemma AllPlainMore(line: string, lines: seq<string>)
    requires Plain(line) && AllPlain(lines)
    ensures AllPlain([line] + lines)
  {
  }

  lemma {:induction false} ForwardedArePlain(lines: seq<string>, prefix: string, number: string -> bool, seen: set<(string, string)>)
    requires AllPlain(lines)
    ensures AllPlain(Forwarded(lines, prefix, number, seen))
    decreases |lines|
  {
    if lines != [] {
      var line := Trim(lines[0], IsSpace);
      TrimPlain(lines[0]);
      if Starts(line, '#') {
        var fields := SplitWords(line, 3);
        SplitPlain(line, 3);
        JoinPlain(fields);
        if IsComment(fields, prefix) && (fields[1], fields[2]) !in seen {
          ForwardedArePlain(lines[1..], prefix, number, seen + {(fields[1], fields[2])});
          AllPlainMore(Join(fields, " "), Forwarded(lines[1..], prefix, number, seen + {(fields[1], fields[2])}));
        } else {
          ForwardedArePlain(lines[1..], prefix, number, seen);
        }
      } else {
        ForwardedArePlain(lines[1..], prefix, number, seen);
        if ParseSample(line, number).Some? {
          ParsedIsOk(line, number);
          AllPlainMore(Print(ParseSample(line, number).value), Forwarded(lines[1..], prefix, number, seen));
        }
      }
    }
  }

  lemma {:induction false} SplitPlain(s: string, n: nat)
    requires Plain(s)
    ensures AllPlain(SplitWords(s, n))
    decreases n
  {
    var t := SkipSpaces(s);
    SkipSpacesEnd(s);
    PlainEnd(s, t);
    if t != "" && n > 0 { SplitPlain(t[WordLength(t)..], n - 1); }
  }

  lemma {:induction false} JoinPlain(words: seq<string>)
    requires AllPlain(words)
    ensures Plain(Join(words, " "))
  {
    if |words| > 1 {
      JoinPlain(words[1..]);
      PlainJoin(words[0], " ");
      PlainJoin(words[0] + " ", Join(words[1..], " "));
    }
  }

  // ---- Twice ----

  /** Words, and after n of them any text that does not begin with white space. */
  predicate IsSplit(words: seq<string>, n: nat) {
    words == [] || (words[0] != "" && !IsSpace(words[0][0]) && if n == 0 then |words| == 1 else NoSpace(words[0]) && IsSplit(words[1..], n - 1))
  }

  lemma {:induction false} SplitIsSplit(s: string, n: nat)
    ensures IsSplit(SplitWords(s, n), n)
    decreases n
  {
    var t := SkipSpaces(s);
    SkippedStarts(s);
    if t != "" && n > 0 {
      SplitIsSplit(t[WordLength(t)..], n - 1);
      assert SplitWords(s, n)[1..] == SplitWords(t[WordLength(t)..], n - 1);
    }
  }

  lemma {:induction false} SkippedStarts(s: string)
    ensures SkipSpaces(s) == "" || !IsSpace(SkipSpaces(s)[0])
  {
    if s != "" && IsSpace(s[0]) { SkippedStarts(s[1..]); }
  }

  lemma {:induction false} WordEnds(w: string, rest: string)
    requires NoSpace(w) && (rest == "" || IsSpace(rest[0]))
    ensures WordLength(w + rest) == |w|
  {
    if w == "" {
      assert w + rest == rest;
    } else {
      assert (w + rest)[1..] == w[1..] + rest;
      WordEnds(w[1..], rest);
    }
  }

  lemma SplitWord(w: string, more: string, n: nat)
    requires w != "" && NoSpace(w) && n > 0
    ensures SplitWords(w + (" " + more), n) == [w] + SplitWords(more, n - 1)
  {
    var s := w + (" " + more);
    assert s[0] == w[0];
    NoSpaces(s);
    WordEnds(w, " " + more);
    Cut(w, " " + more);
    SpaceFirst(more, n - 1);
  }

  lemma SpaceFirst(s: string, n: nat)
    ensures SplitWords(" " + s, n) == SplitWords(s, n)
  {
    Cut(" ", s);
    assert SkipSpaces(" " + s) == SkipSpaces(s);
  }

  lemma SplitLast(w: string, n: nat)
    requires w != "" && !IsSpace(w[0]) && (n > 0 ==> NoSpace(w))
    ensures SplitWords(w, n) == [w]
  {
    NoSpaces(w);
    if n > 0 {
      WordEnds(w, "");
      Unit(w);
      assert w[..|w|] == w && w[|w|..] == "";
      assert SplitWords("", n - 1) == [];
      Unit([w]);
    }
  }

  lemma {:induction false} SplitsBack(words: seq<string>, n: nat)
    requires IsSplit(words, n)
    ensures SplitWords(Join(words, " "), n) == words
    decreases n
  {
    if words == [] {
    } else if |words| == 1 {
      SplitLast(words[0], n);
      assert [words[0]] == words;
    } else {
      SplitsBack(words[1..], n - 1);
      SplitsBackMore(words, n);
    }
  }

  lemma SplitsBackMore(words: seq<string>, n: nat)
    requires |words| > 1 && IsSplit(words, n) && SplitWords(Join(words[1..], " "), n - 1) == words[1..]
    ensures SplitWords(Join(words, " "), n) == words
  {
    JoinTwo(words, " ");
    Assoc(words[0], " ", Join(words[1..], " "));
    SplitWord(words[0], Join(words[1..], " "), n);
    assert [words[0]] + words[1..] == words;
  }

  predicate EndsInWord(s: string) { s != "" && !IsSpace(s[|s| - 1]) }

  lemma {:induction false} SplitEnd(s: string, n: nat)
    requires EndsInWord(s)
    ensures SplitWords(s, n) != [] && EndsInWord(SplitWords(s, n)[|SplitWords(s, n)| - 1])
    decreases n
  {
    var t := SkipSpaces(s);
    SkippedEnds(s);
    SkippedStarts(s);
    if n > 0 {
      var k := WordLength(t);
      if k < |t| {
        DropEnds(t, k);
        SplitEnd(t[k..], n - 1);
        LastOf(t[..k], SplitWords(t[k..], n - 1));
      } else {
        assert t[..k] == t && t[k..] == "";
        assert SplitWords("", n - 1) == [];
        assert SplitWords(s, n) == [t];
      }
    } else {
      assert SplitWords(s, n) == [t];
    }
  }

  lemma LastOf(w: string, words: seq<string>)
    requires words != []
    ensures ([w] + words)[|[w] + words| - 1] == words[|words| - 1]
  {
  }

  lemma DropEnds(t: string, k: nat)
    requires EndsInWord(t) && k < |t|
    ensures EndsInWord(t[k..])
  {
  }

  lemma SkippedEnds(s: string)
    requires EndsInWord(s)
    ensures EndsInWord(SkipSpaces(s))
  {
    SkipSpacesEnd(s);
    SkippedKeeps(s);
  }

  lemma {:induction false} SkippedKeeps(s: string)
    requires s != "" && !IsSpace(s[|s| - 1])
    ensures SkipSpaces(s) != ""
  {
    if IsSpace(s[0]) { SkippedKeeps(s[1..]); }
  }

  lemma {:induction false} JoinEnd(words: seq<string>)
    requires words != [] && EndsInWord(words[|words| - 1])
    ensures EndsInWord(Join(words, " "))
  {
    if |words| > 1 { JoinEnd(words[1..]); }
  }

  /** A forwarded comment is forwarded again as it is. */
  lemma CommentStays(line: string)
    requires Starts(line, '#') && Trimmed(line, IsSpace)
    ensures var c := Join(SplitWords(line, 3), " ");
      Starts(c, '#') && Trim(c, IsSpace) == c && SplitWords(c, 3) == SplitWords(line, 3)
  {
    JoinStarts(line);
    SplitIsSplit(line, 3);
    SplitsBack(SplitWords(line, 3), 3);
    SplitEnd(line, 3);
    JoinEnd(SplitWords(line, 3));
    HashTrimmed(Join(SplitWords(line, 3), " "));
  }

  lemma HashTrimmed(c: string)
    requires Starts(c, '#') && EndsInWord(c)
    ensures Trim(c, IsSpace) == c
  {
    TrimmedIff(c, IsSpace);
  }

  lemma {:induction false} ForwardedTwice(lines: seq<string>, prefix: string, number: string -> bool, seen: set<(string, string)>)
    ensures var out := Forwarded(lines, prefix, number, seen); Forwarded(out, prefix, number, seen) == out
    decreases |lines|
  {
    if lines != [] {
      var line := Trim(lines[0], IsSpace);
      TrimmedIff(lines[0], IsSpace);
      if Starts(line, '#') {
        var fields := SplitWords(line, 3);
        if IsComment(fields, prefix) && (fields[1], fields[2]) !in seen {
          var more := Forwarded(lines[1..], prefix, number, seen + {(fields[1], fields[2])});
          ForwardedTwice(lines[1..], prefix, number, seen + {(fields[1], fields[2])});
          CommentStays(line);
          assert ([Join(fields, " ")] + more)[1..] == more;
        } else {
          ForwardedTwice(lines[1..], prefix, number, seen);
        }
      } else {
        ForwardedTwice(lines[1..], prefix, number, seen);
        var s := ParseSample(line, number);
        if s.Some? && prefix <= s.value.name && !HasReserved(s.value.labels) {
          var more := Forwarded(lines[1..], prefix, number, seen);
          ParsedIsOk(line, number);
          PrintedLine(s.value, number);
          assert ([Print(s.value)] + more)[1..] == more;
        }
      }
    }
  }

  /** Main result: forwarding a forwarded page changes nothing. */
  lemma ForwardIsIdempotent(text: string, prefix: string, number: string -> bool)
    ensures ForwardOf(ForwardOf(text, prefix, number), prefix, number) == ForwardOf(text, prefix, number)
  {
    var lines := SplitLines(text);
    LinesArePlain(text);
    ForwardedArePlain(lines, prefix, number, {});
    PageSplits(Forwarded(lines, prefix, number, {}));
    ForwardedTwice(lines, prefix, number, {});
  }

  // ---- Comments ----

  /** No comment of the page has this kind and family. */
  predicate NoKey(lines: seq<string>, key: (string, string)) {
    forall i :: 0 <= i < |lines| && Starts(lines[i], '#') ==> !HasKey(lines[i], key)
  }

  predicate HasKey(line: string, key: (string, string)) {
    var fields := SplitWords(line, 3);
    |fields| >= 3 && (fields[1], fields[2]) == key
  }

  /** A family has one HELP and one TYPE line at most. */
  ghost predicate OncePerKey(lines: seq<string>) {
    lines == [] || (OncePerKey(lines[1..])
                    && (Starts(lines[0], '#') ==> forall key :: HasKey(lines[0], key) ==> NoKey(lines[1..], key)))
  }

  lemma NoKeyMore(line: string, lines: seq<string>, key: (string, string))
    requires NoKey(lines, key) && (Starts(line, '#') ==> !HasKey(line, key))
    ensures NoKey([line] + lines, key)
  {
  }

  lemma {:induction false} SeenIsNotRepeated(lines: seq<string>, prefix: string, number: string -> bool, seen: set<(string, string)>,
                                             key: (string, string))
    requires key in seen
    ensures NoKey(Forwarded(lines, prefix, number, seen), key)
    decreases |lines|
  {
    if lines != [] {
      var line := Trim(lines[0], IsSpace);
      TrimmedIff(lines[0], IsSpace);
      SeenIsNotRepeated(lines[1..], prefix, number, seen, key);
      if Starts(line, '#') {
        var fields := SplitWords(line, 3);
        if IsComment(fields, prefix) && (fields[1], fields[2]) !in seen {
          SeenIsNotRepeated(lines[1..], prefix, number, seen + {(fields[1], fields[2])}, key);
          CommentStays(line);
          NoKeyMore(Join(fields, " "), Forwarded(lines[1..], prefix, number, seen + {(fields[1], fields[2])}), key);
        }
      } else if ParseSample(line, number).Some? {
        ParsedIsOk(line, number);
        PrintedLine(ParseSample(line, number).value, number);
        NoKeyMore(Print(ParseSample(line, number).value), Forwarded(lines[1..], prefix, number, seen), key);
      }
    }
  }

  /** A forwarded page has each family's HELP and TYPE line once at most. */
  lemma {:induction false} CommentsOnce(lines: seq<string>, prefix: string, number: string -> bool, seen: set<(string, string)>)
    ensures OncePerKey(Forwarded(lines, prefix, number, seen))
    decreases |lines|
  {
    if lines != [] {
      var line := Trim(lines[0], IsSpace);
      TrimmedIff(lines[0], IsSpace);
      CommentsOnce(lines[1..], prefix, number, seen);
      if Starts(line, '#') {
        var fields := SplitWords(line, 3);
        if IsComment(fields, prefix) && (fields[1], fields[2]) !in seen {
          var key, more := (fields[1], fields[2]), Forwarded(lines[1..], prefix, number, seen + {(fields[1], fields[2])});
          CommentsOnce(lines[1..], prefix, number, seen + {key});
          SeenIsNotRepeated(lines[1..], prefix, number, seen + {key}, key);
          CommentStays(line);
          assert ([Join(fields, " ")] + more)[1..] == more;
        }
      } else if ParseSample(line, number).Some? {
        ParsedIsOk(line, number);
        PrintedLine(ParseSample(line, number).value, number);
        assert ([Print(ParseSample(line, number).value)] + Forwarded(lines[1..], prefix, number, seen))[1..]
            == Forwarded(lines[1..], prefix, number, seen);
      }
    }
  }

  // ---- Label values ----

  /** str.replace of one character. */
  function Replace(s: string, c: char, put: string): string {
    if s == "" then "" else (if s[0] == c then put else [s[0]]) + Replace(s[1..], c, put)
  }

  /** escape */
  function Escape(v: string): string { Replace(Replace(Replace(v, '\\', "\\\\"), '"', "\\\""), '\n', "\\n") }

  function EscapeChar(c: char): string {
    if c == '\\' then "\\\\" else if c == '"' then "\\\"" else if c == '\n' then "\\n" else [c]
  }

  lemma {:induction false} ReplaceJoin(a: string, b: string, c: char, put: string)
    ensures Replace(a + b, c, put) == Replace(a, c, put) + Replace(b, c, put)
  {
    if a == "" {
      Unit(b);
      Unit(Replace(b, c, put));
    } else {
      assert (a + b)[1..] == a[1..] + b;
      ReplaceJoin(a[1..], b, c, put);
      Assoc(if a[0] == c then put else [a[0]], Replace(a[1..], c, put), Replace(b, c, put));
    }
  }

  lemma ReplaceOne(x: char, c: char, put: string)
    ensures Replace([x], c, put) == if x == c then put else [x]
  {
    assert [x][1..] == "";
    Unit(if x == c then put else [x]);
  }

  /** The three passes do what one would, character by character. */
  lemma EscapeStep(v: string)
    requires v != ""
    ensures Escape(v) == EscapeChar(v[0]) + Escape(v[1..])
  {
    var c := v[0];
    var r1 := Replace(v[1..], '\\', "\\\\");
    var e1 := if c == '\\' then "\\\\" else [c];
    ReplaceJoin(e1, r1, '"', "\\\"");
    var e2, r2 := Replace(e1, '"', "\\\""), Replace(r1, '"', "\\\"");
    ReplaceJoin(e2, r2, '\n', "\\n");
    EscapeOne(c);
  }

  lemma EscapeOne(c: char)
    ensures Replace(Replace(if c == '\\' then "\\\\" else [c], '"', "\\\""), '\n', "\\n") == EscapeChar(c)
  {
    if c == '\\' {
      ReplaceTwo('\\', '\\', '"', "\\\"");
      ReplaceTwo('\\', '\\', '\n', "\\n");
    } else if c == '"' {
      ReplaceOne('"', '"', "\\\"");
      ReplaceTwo('\\', '"', '\n', "\\n");
    } else {
      ReplaceOne(c, '"', "\\\"");
      ReplaceOne(c, '\n', "\\n");
    }
  }

  lemma ReplaceTwo(x: char, y: char, c: char, put: string)
    requires x != c && y != c
    ensures Replace([x, y], c, put) == [x, y]
  {
    assert [x, y][1..] == [y];
    ReplaceOne(y, c, put);
  }

  /** Main result: a label value of any text is undone by unescape, and can stand between the quotes. */
  lemma {:induction false} EscapeRoundTrip(v: string)
    ensures Unescape(Escape(v)) == v && EscapedText(Escape(v))
  {
    if v == "" {
      assert Replace(Replace("", '\\', "\\\\"), '"', "\\\"") == "";
    } else {
      EscapeStep(v);
      EscapeRoundTrip(v[1..]);
      UnescapeStep(v[0], Escape(v[1..]));
      assert [v[0]] + v[1..] == v;
    }
  }

  lemma UnescapeStep(c: char, rest: string)
    ensures Unescape(EscapeChar(c) + rest) == [c] + Unescape(rest)
    ensures EscapedText(EscapeChar(c) + rest) == EscapedText(rest)
  {
    var s := EscapeChar(c) + rest;
    if |EscapeChar(c)| == 2 {
      assert s[2..] == rest;
    } else {
      assert s[1..] == rest;
    }
  }

  /** Python ends a line at other characters too, which escape lets stand. */
  predicate OnlyLineFeeds(v: string) { forall i :: 0 <= i < |v| && IsBreak(v[i]) ==> v[i] == '\n' }

  lemma {:induction false} EscapeIsPlain(v: string)
    ensures Plain(Escape(v)) <==> OnlyLineFeeds(v)
  {
    if v == "" {
      assert Escape(v) == "" by { assert Replace(Replace("", '\\', "\\\\"), '"', "\\\"") == ""; }
    } else {
      EscapeStep(v);
      EscapeIsPlain(v[1..]);
      PlainParts(EscapeChar(v[0]), Escape(v[1..]));
      assert Plain(EscapeChar(v[0])) <==> (IsBreak(v[0]) ==> v[0] == '\n');
    }
  }

  lemma PlainParts(a: string, b: string)
    ensures Plain(a + b) <==> Plain(a) && Plain(b)
  {
    if Plain(a + b) {
      assert a == (a + b)[..|a|] && b == (a + b)[|a|..];
      forall i | 0 <= i < |a| ensures !IsBreak(a[i]) { assert !IsBreak((a + b)[i]); }
      forall i | 0 <= i < |b| ensures !IsBreak(b[i]) { assert !IsBreak((a + b)[|a| + i]); }
    }
  }

  lemma {:induction false} UnescapedBreaks(s: string)
    requires Plain(s)
    ensures OnlyLineFeeds(Unescape(s))
    decreases |s|
  {
    if s != "" {
      if s[0] == '\\' && |s| > 1 && s[1] != '\n' { UnescapedBreaks(s[2..]); } else { UnescapedBreaks(s[1..]); }
    }
  }

  lemma {:induction false} DictBreaks(labels: seq<Label>)
    requires PlainLabels(labels)
    ensures forall k <- Dict(labels) :: OnlyLineFeeds(Dict(labels)[k])
  {
    if labels != [] {
      var n := |labels| - 1;
      assert labels[n] in labels;
      DictBreaks(labels[..n]);
      UnescapedBreaks(labels[n].value);
    }
  }

  /** No page whatever gives a label value with another end of line than a line feed. */
  lemma {:induction false} ValuesRead(lines: seq<string>, name: string, number: string -> bool, r: Reading, k: string)
    requires AllPlain(lines) && r in SamplesIn(lines, name, number) && k in r.labels
    ensures OnlyLineFeeds(r.labels[k])
  {
    if r in ReadingsOf(lines[0], name, number) {
      TrimPlain(lines[0]);
      ParsedIsOk(Trim(lines[0], IsSpace), number);
      DictBreaks(SampleOf(lines[0], number).value.labels);
    } else {
      ValuesRead(lines[1..], name, number, r, k);
    }
  }

  /** Main result: a sample printed with an escaped label value reads back from a page with that value exactly when the
      value has no end of line but line feeds. */
  lemma ValueReadsBack(s: Sample, l: string, v: string, number: string -> bool)
    requires s.labels == [Label(l, Escape(v))] && NameOk(l) && SampleOk(s.(labels := []), number)
    requires Plain(s.name) && Plain(l) && Plain(s.value)
    ensures SamplesIn(SplitLines(Page([Print(s)])), s.name, number) == [Reading(map[l := v], s.value)] <==> OnlyLineFeeds(v)
  {
    if OnlyLineFeeds(v) {
      EscapedReads(s, l, v, number);
    } else {
      var lines, r := SplitLines(Page([Print(s)])), Reading(map[l := v], s.value);
      LinesArePlain(Page([Print(s)]));
      if r in SamplesIn(lines, s.name, number) { ValuesRead(lines, s.name, number, r, l); }
      assert r in [r];
    }
  }

  lemma EscapedReads(s: Sample, l: string, v: string, number: string -> bool)
    requires s.labels == [Label(l, Escape(v))] && NameOk(l) && SampleOk(s.(labels := []), number)
    requires Plain(s.name) && Plain(l) && Plain(s.value) && OnlyLineFeeds(v)
    ensures SamplesIn(SplitLines(Page([Print(s)])), s.name, number) == [Reading(map[l := v], s.value)]
  {
    EscapeRoundTrip(v);
    EscapeIsPlain(v);
    assert LabelOk(s.labels[0]);
    PrintedLine(s, number);
    PlainPrint(s);
    PageSplits([Print(s)]);
    OneEntry(s.labels, l, v);
    FirstReading(Print(s), [], s.name, number);
    Unit([Print(s)]);
    Unit([Reading(map[l := v], s.value)]);
  }

  lemma OneEntry(labels: seq<Label>, l: string, v: string)
    requires labels == [Label(l, Escape(v))] && Unescape(Escape(v)) == v
    ensures Dict(labels) == map[l := v]
  {
    assert labels[..0] == [];
  }
}
