/** promtext.py: the lines that are samples are exactly those a grammar gives. */
module PromGrammar {
  import opened Text
  import opened Spaces
  import opened PromText

  predicate Blank(s: string) { forall i :: 0 <= i < |s| ==> IsSpace(s[i]) }

  /** The white space of one label, and whether a comma follows it. */
  datatype Spacing = Spacing(before: string, afterName: string, afterEquals: string, afterValue: string, comma: bool)

  predicate AllBlank(p: Spacing) { Blank(p.before) && Blank(p.afterName) && Blank(p.afterEquals) && Blank(p.afterValue) }

  function NameText(a: string, name: string, b: string, rest: string): string { a + (name + (b + ("=" + rest))) }

  function ValueText(a: string, v: string, b: string, rest: string): string { a + ("\"" + (v + ("\"" + (b + rest)))) }

  function Comma(p: Spacing, rest: string): string { if p.comma then "," + rest else rest }

  function ShowLabel(l: Label, p: Spacing, rest: string): string {
    NameText(p.before, l.name, p.afterName, ValueText(p.afterEquals, l.value, p.afterValue, Comma(p, rest)))
  }

  /** The labels as they may stand between the braces, and the text after these. */
  function ShowLabels(labels: seq<Label>, ps: seq<Spacing>, close: string, rest: string): string
    requires |ps| == |labels|
  {
    if labels == [] then close + ("}" + rest) else ShowLabel(labels[0], ps[0], ShowLabels(labels[1..], ps[1..], close, rest))
  }

  /** Only the last label may go without a comma, and then nothing is between it and the brace but its own white space. */
  predicate Laid(labels: seq<Label>, ps: seq<Spacing>, close: string) {
    && |ps| == |labels| && Blank(close)
    && (forall i :: 0 <= i < |ps| ==> AllBlank(ps[i]) && (!ps[i].comma ==> i == |ps| - 1 && close == ""))
  }

  // ---- Pieces ----

  lemma {:induction false} SkipShape(s: string) returns (a: string)
    ensures Blank(a) && s == a + SkipSpaces(s) && (SkipSpaces(s) == "" || !IsSpace(SkipSpaces(s)[0]))
  {
    a := "";
    if s != "" && IsSpace(s[0]) {
      var b := SkipShape(s[1..]);
      a := [s[0]] + b;
    }
  }

  lemma {:induction false} SkipBlank(a: string, t: string)
    requires Blank(a) && (t == "" || !IsSpace(t[0]))
    ensures SkipSpaces(a + t) == t
  {
    if a == "" {
      Unit(t);
    } else {
      assert (a + t)[1..] == a[1..] + t;
      SkipBlank(a[1..], t);
    }
  }

  lemma NameFits(a: string, name: string, b: string, rest: string)
    requires Blank(a) && Blank(b) && NameOk(name)
    ensures MatchName(NameText(a, name, b, rest)) == Some((name, rest))
    ensures SkipSpaces(NameText(a, name, b, rest)) == NameText("", name, b, rest)
  {
    var u := b + ("=" + rest);
    var t := name + u;
    assert t[0] == name[0] && !IsSpace(name[0]);
    SkipBlank(a, t);
    Unit(t);
    SkipBlank(b, "=" + rest);
    assert u[0] == if b == "" then '=' else b[0];
    SpanOf(name, u, LabelName);
    Cut("=", rest);
  }

  lemma NameShape(s: string) returns (a: string, b: string)
    requires MatchName(s).Some?
    ensures Blank(a) && Blank(b) && NameOk(MatchName(s).value.0)
    ensures s == NameText(a, MatchName(s).value.0, b, MatchName(s).value.1)
    ensures SkipSpaces(s) == s ==> a == ""
  {
    var s1 := SkipSpaces(s);
    a := SkipShape(s);
    var n := Span(s1, LabelName);
    b := SkipShape(s1[n..]);
    NameIsOk(s);
    var s2 := SkipSpaces(s1[n..]);
    assert s1 == s1[..n] + s1[n..] && s2 == "=" + s2[1..];
  }

  lemma ValueFits(a: string, v: string, b: string, rest: string)
    requires Blank(a) && Blank(b) && EscapedText(v) && (rest == "" || !IsSpace(rest[0]))
    ensures MatchValue(ValueText(a, v, b, rest)) == Some((v, rest))
  {
    var t := "\"" + (v + ("\"" + (b + rest)));
    SkipBlank(a, t);
    NoSpaces(t);
    ValueClosed(v, b + rest);
    CutQuoted(v, b + rest);
    MatchValueIs(t, |v|);
    SkipBlank(b, rest);
    MatchValueOf(a + t, t);
  }

  lemma MatchValueOf(s: string, t: string)
    requires SkipSpaces(s) == t && SkipSpaces(t) == t
    ensures MatchValue(s) == MatchValue(t)
  {
  }

  lemma QuotedParts(s: string, n: nat)
    requires Starts(s, '"') && n < |s| - 1 && s[1..][n] == '"'
    ensures s == "\"" + (s[1..n + 1] + ("\"" + s[n + 2..]))
  {
  }

  /** What a quoted value at the start of a text is. */
  lemma QuotedShape(s: string) returns (n: nat)
    requires SkipSpaces(s) == s && MatchValue(s).Some?
    ensures n + 2 <= |s| && s == "\"" + (s[1..n + 1] + ("\"" + s[n + 2..])) && EscapedText(s[1..n + 1])
    ensures MatchValue(s) == Some((s[1..n + 1], SkipSpaces(s[n + 2..])))
  {
    n := ValueLength(s[1..]).value;
    MatchValueIs(s, n);
    QuotedParts(s, n);
    ValueIsOk(s);
  }

  lemma ValueShape(s: string) returns (a: string, b: string)
    requires MatchValue(s).Some?
    ensures Blank(a) && Blank(b) && EscapedText(MatchValue(s).value.0)
    ensures s == ValueText(a, MatchValue(s).value.0, b, MatchValue(s).value.1)
    ensures MatchValue(s).value.1 == "" || !IsSpace(MatchValue(s).value.1[0])
  {
    var t := SkipSpaces(s);
    a := SkipShape(s);
    NoSpaces(t);
    MatchValueOf(s, t);
    var n := QuotedShape(t);
    b := SkipShape(t[n + 2..]);
  }

  // ---- One label ----

  lemma TurnFits(l: Label, p: Spacing, rest: string)
    requires LabelOk(l) && AllBlank(p) && (p.comma || Starts(rest, '}'))
    ensures OneLabel(ShowLabel(l, p, rest)) == Pair(l, rest)
  {
    var tail := Comma(p, rest);
    var quoted := ValueText(p.afterEquals, l.value, p.afterValue, tail);
    var t := NameText("", l.name, p.afterName, quoted);
    NameFits(p.before, l.name, p.afterName, quoted);
    NameFits("", l.name, p.afterName, quoted);
    ValueFits(p.afterEquals, l.value, p.afterValue, tail);
    assert t[0] == l.name[0];
    MatchFits(t, l.name, quoted, l.value, tail);
    if p.comma { Cut(",", rest); }
    TurnParts(ShowLabel(l, p, rest), t, Match(l, p.comma, rest));
  }

  lemma MatchFits(s: string, name: string, quoted: string, value: string, tail: string)
    requires MatchName(s) == Some((name, quoted)) && MatchValue(quoted) == Some((value, tail))
    ensures MatchLabel(s) == Some(Match(Label(name, value), Starts(tail, ','), if Starts(tail, ',') then tail[1..] else tail))
  {
  }

  lemma TurnShape(s: string) returns (p: Spacing)
    requires OneLabel(s).Pair?
    ensures AllBlank(p) && LabelOk(OneLabel(s).pair) && (p.comma || Starts(OneLabel(s).rest, '}'))
    ensures s == ShowLabel(OneLabel(s).pair, p, OneLabel(s).rest)
  {
    var t := SkipSpaces(s);
    var a := SkipShape(s);
    NoSpaces(t);
    var m := MatchLabel(t).value;
    var b, c := NameShape(t);
    var quoted := MatchName(t).value.1;
    var d, e := ValueShape(quoted);
    var tail := MatchValue(quoted).value.1;
    p := Spacing(a, c, d, e, m.comma);
    assert tail == Comma(p, m.rest);
    assert NameText(a, m.pair.name, c, quoted) == a + NameText("", m.pair.name, c, quoted) by { Unit(m.pair.name + (c + ("=" + quoted))); }
  }

  // ---- All labels ----

  lemma LaidMore(labels: seq<Label>, ps: seq<Spacing>, close: string)
    requires labels != [] && Laid(labels, ps, close)
    ensures Laid(labels[1..], ps[1..], close)
  {
  }

  lemma BraceFits(close: string, rest: string)
    requires Blank(close)
    ensures Labels(close + ("}" + rest)) == Some(([], rest))
  {
    SkipBlank(close, "}" + rest);
    Cut("}", rest);
    TurnEnds(close + ("}" + rest), "}" + rest);
  }

  lemma FirstFits(l: Label, p: Spacing, more: string, labels: seq<Label>, rest: string)
    requires LabelOk(l) && AllBlank(p) && (p.comma || Starts(more, '}')) && Labels(more) == Some((labels, rest))
    ensures Labels(ShowLabel(l, p, more)) == Some(([l] + labels, rest))
  {
    TurnFits(l, p, more);
  }

  lemma {:induction false} LabelsFit(labels: seq<Label>, ps: seq<Spacing>, close: string, rest: string)
    requires LabelsOk(labels) && Laid(labels, ps, close)
    ensures Labels(ShowLabels(labels, ps, close, rest)) == Some((labels, rest))
    decreases |labels|
  {
    if labels == [] {
      BraceFits(close, rest);
    } else {
      var more := ShowLabels(labels[1..], ps[1..], close, rest);
      assert labels[0] in labels && AllBlank(ps[0]);
      LaidMore(labels, ps, close);
      LabelsFit(labels[1..], ps[1..], close, rest);
      if !ps[0].comma { Unit("}" + rest); }
      FirstFits(labels[0], ps[0], more, labels[1..], rest);
      assert [labels[0]] + labels[1..] == labels;
    }
  }

  lemma {:induction false} LabelsShape(s: string) returns (ps: seq<Spacing>, close: string)
    requires Labels(s).Some?
    ensures LabelsOk(Labels(s).value.0) && Laid(Labels(s).value.0, ps, close)
    ensures s == ShowLabels(Labels(s).value.0, ps, close, Labels(s).value.1)
    decreases |s|
  {
    if OneLabel(s).Close? {
      ps := [];
      close := SkipShape(s);
      var t := SkipSpaces(s);
      assert t == "}" + t[1..];
    } else {
      var l, rest := OneLabel(s).pair, OneLabel(s).rest;
      var p := TurnShape(s);
      var more;
      more, close := LabelsShape(rest);
      ps := [p] + more;
      var labels := Labels(s).value.0;
      assert labels == [l] + Labels(rest).value.0;
      assert labels[1..] == Labels(rest).value.0 && ps[1..] == more;
      if !p.comma { BraceCloses(rest, Labels(rest).value.0, more, close, Labels(rest).value.1); }
    }
  }

  /** What begins with the brace has no label before it. */
  lemma BraceCloses(s: string, labels: seq<Label>, ps: seq<Spacing>, close: string, rest: string)
    requires Starts(s, '}') && Labels(s) == Some((labels, rest)) && Laid(labels, ps, close) && s == ShowLabels(labels, ps, close, rest)
    ensures labels == [] && close == ""
  {
    NoSpaces(s);
    TurnEnds(s, s);
  }

  // ---- Samples ----

  /** What may follow the name and the labels: the value, and a timestamp perhaps. */
  predicate Ends(tail: string, value: string, number: string -> bool) {
    var words := Fields(tail, IsSpace);
    (|words| == 1 || |words| == 2) && words[0] == value && number(value)
  }

  predicate MetricName(name: string) { name != "" && NameStart(name[0]) && forall i :: 0 <= i < |name| ==> NameChar(name[i]) }

  /** A line without braces. */
  predicate Bare(line: string, s: Sample, tail: string) {
    s.labels == [] && line == s.name + tail && (tail == "" || (!NameChar(tail[0]) && tail[0] != '{'))
  }

  /** A line with braces. */
  predicate Braced(line: string, s: Sample, ps: seq<Spacing>, close: string, tail: string) {
    LabelsOk(s.labels) && Laid(s.labels, ps, close) && line == s.name + ("{" + ShowLabels(s.labels, ps, close, tail))
  }

  /** The line writes the sample: its name, the labels in braces with any white space, the value, and what is dropped. */
  ghost predicate Renders(line: string, s: Sample, number: string -> bool) {
    MetricName(s.name)
    && ((exists tail :: Bare(line, s, tail) && Ends(tail, s.value, number))
        || (exists ps, close, tail :: Braced(line, s, ps, close, tail) && Ends(tail, s.value, number)))
  }

  lemma BareParses(line: string, s: Sample, tail: string, number: string -> bool)
    requires MetricName(s.name) && Bare(line, s, tail) && Ends(tail, s.value, number)
    ensures ParseSample(line, number) == Some(s)
  {
    SpanOf(s.name, tail, Name);
    assert line[0] == s.name[0];
  }

  lemma BracedParses(line: string, s: Sample, ps: seq<Spacing>, close: string, tail: string, number: string -> bool)
    requires MetricName(s.name) && Braced(line, s, ps, close, tail) && Ends(tail, s.value, number)
    ensures ParseSample(line, number) == Some(s)
  {
    var rest := "{" + ShowLabels(s.labels, ps, close, tail);
    SpanOf(s.name, rest, Name);
    assert line[0] == s.name[0];
    Cut("{", ShowLabels(s.labels, ps, close, tail));
    LabelsFit(s.labels, ps, close, tail);
  }

  lemma ParsedRenders(line: string, number: string -> bool)
    requires ParseSample(line, number).Some?
    ensures Renders(line, ParseSample(line, number).value, number)
  {
    var s := ParseSample(line, number).value;
    var n := Span(line, Name);
    var rest := line[n..];
    SpanHolds(line, Name);
    assert MetricName(s.name);
    assert line == line[..n] + rest;
    if Starts(rest, '{') {
      var ps, close := LabelsShape(rest[1..]);
      assert rest == "{" + rest[1..];
      assert Braced(line, s, ps, close, Labels(rest[1..]).value.1);
    } else {
      assert Bare(line, s, rest);
    }
  }

  /** Main result: a line reads as a sample if and only if it writes that sample. */
  lemma ParsesExactlyRenderings(line: string, s: Sample, number: string -> bool)
    ensures ParseSample(line, number) == Some(s) <==> Renders(line, s, number)
  {
    if ParseSample(line, number) == Some(s) { ParsedRenders(line, number); }
    if Renders(line, s, number) {
      if tail :| Bare(line, s, tail) && Ends(tail, s.value, number) {
        BareParses(line, s, tail, number);
      } else {
        var ps, close, tail :| Braced(line, s, ps, close, tail) && Ends(tail, s.value, number);
        BracedParses(line, s, ps, close, tail, number);
      }
    }
  }
}
