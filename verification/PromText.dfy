/** promtext.py: reading and forwarding pages in the Prometheus text format. */
module PromText {
  import opened Text
  import opened Spaces

  // ---- Characters ----

  /** str.isspace, and \s */
  predicate IsSpace(c: char) {
    || '\t' <= c <= '\r' || '\U{1C}' <= c <= ' ' || c == '\U{85}' || c == '\U{A0}' || c == '\U{1680}'
    || '\U{2000}' <= c <= '\U{200A}' || c == '\U{2028}' || c == '\U{2029}' || c == '\U{202F}' || c == '\U{205F}' || c == '\U{3000}'
  }

  /** Where str.splitlines ends a line. */
  predicate IsBreak(c: char) {
    '\n' <= c <= '\r' || '\U{1C}' <= c <= '\U{1E}' || c == '\U{85}' || c == '\U{2028}' || c == '\U{2029}'
  }

  predicate Letter(c: char) { 'a' <= c <= 'z' || 'A' <= c <= 'Z' || c == '_' }

  predicate LetterOrDigit(c: char) { Letter(c) || '0' <= c <= '9' }

  predicate NameStart(c: char) { Letter(c) || c == ':' }

  predicate NameChar(c: char) { LetterOrDigit(c) || c == ':' }

  datatype Class = Space | Name | LabelName | Line

  predicate In(c: char, k: Class) {
    match k
    case Space => IsSpace(c)
    case Name => NameChar(c)
    case LabelName => LetterOrDigit(c)
    case Line => !IsBreak(c)
  }

  /** How many characters at the start are of a class. */
  function Span(s: string, k: Class): (n: nat)
    ensures n <= |s|
  {
    if s == "" || !In(s[0], k) then 0 else 1 + Span(s[1..], k)
  }

  lemma {:induction false} SpanHolds(s: string, k: Class)
    ensures var n := Span(s, k); (forall i :: 0 <= i < n ==> In(s[i], k)) && (n < |s| ==> !In(s[n], k))
  {
    if s != "" && In(s[0], k) { SpanHolds(s[1..], k); }
  }

  lemma {:induction false} SpanOf(a: string, b: string, k: Class)
    requires (forall i :: 0 <= i < |a| ==> In(a[i], k)) && (b == "" || !In(b[0], k))
    ensures Span(a + b, k) == |a| && (a + b)[..|a|] == a && (a + b)[|a|..] == b
  {
    if a == "" {
      assert a + b == b;
    } else {
      assert (a + b)[1..] == a[1..] + b;
      SpanOf(a[1..], b, k);
    }
  }

  // ---- A label, as _LABEL_RE matches it ----

  datatype Label = Label(name: string, value: string) // the value as it is escaped

  /** How long the escaped text up to the closing quote is, if it closes. */
  function ValueLength(s: string): (r: Option<nat>)
    ensures r.Some? ==> r.value < |s| && s[r.value] == '"'
    decreases |s|
  {
    if s == "" || s[0] == '\n' then None
    else if s[0] == '"' then Some(0)
    else if s[0] == '\\' then
      if |s| < 2 || s[1] == '\n' then None
      else
        var r := ValueLength(s[2..]);
        if r.None? then None else Some(r.value + 2)
    else
      var r := ValueLength(s[1..]);
      if r.None? then None else Some(r.value + 1)
  }

  /** A text the quotes can hold: no bare quote, line feed or backslash at the end. */
  predicate EscapedText(s: string)
    decreases |s|
  {
    s == "" || (s[0] != '\n' && s[0] != '"' && if s[0] == '\\' then |s| >= 2 && s[1] != '\n' && EscapedText(s[2..]) else EscapedText(s[1..]))
  }

  lemma {:induction false} ValueClosed(v: string, rest: string)
    requires EscapedText(v)
    ensures ValueLength(v + ("\"" + rest)) == Some(|v|)
    decreases |v|
  {
    var s := v + ("\"" + rest);
    if v == "" {
    } else if v[0] == '\\' {
      assert s[2..] == v[2..] + ("\"" + rest);
      ValueClosed(v[2..], rest);
    } else {
      assert s[1..] == v[1..] + ("\"" + rest);
      ValueClosed(v[1..], rest);
    }
  }

  lemma {:induction false} ValueIsEscaped(s: string)
    requires ValueLength(s).Some?
    ensures EscapedText(s[..ValueLength(s).value])
    decreases |s|
  {
    var n := ValueLength(s).value;
    if s[0] == '"' {
    } else if s[0] == '\\' {
      ValueIsEscaped(s[2..]);
      assert s[..n][2..] == s[2..][..n - 2];
    } else {
      ValueIsEscaped(s[1..]);
      assert s[..n][1..] == s[1..][..n - 1];
    }
  }

  /** A match: the label, whether a comma follows, and the text after it all. */
  datatype Match = Match(pair: Label, comma: bool, rest: string)

  predicate Starts(s: string, c: char) { s != "" && s[0] == c }

  /** t is how s ends. */
  predicate End(s: string, t: string) { |t| <= |s| && t == s[|s| - |t|..] }

  lemma EndOfEnd(s: string, t: string, u: string)
    requires End(s, t) && End(t, u)
    ensures End(s, u)
  {
  }

  function SkipSpaces(s: string): (r: string)
    ensures |r| <= |s|
  {
    if s != "" && IsSpace(s[0]) then SkipSpaces(s[1..]) else s
  }

  lemma {:induction false} SkipSpacesEnd(s: string)
    ensures End(s, SkipSpaces(s))
  {
    if s != "" && IsSpace(s[0]) { SkipSpacesEnd(s[1..]); }
  }

  /** \s*([a-zA-Z_][a-zA-Z0-9_]*)\s*= and what follows. */
  function MatchName(s: string): (r: Option<(string, string)>)
    ensures r.Some? ==> |r.value.1| < |s|
  {
    var s1 := SkipSpaces(s);
    if s1 == "" || !Letter(s1[0]) then None
    else
      var n := Span(s1, LabelName);
      var s2 := SkipSpaces(s1[n..]);
      if !Starts(s2, '=') then None else Some((s1[..n], s2[1..]))
  }

  lemma MatchNameEnd(s: string)
    ensures MatchName(s).Some? ==> End(s, MatchName(s).value.1)
  {
    if MatchName(s).Some? {
      var s1 := SkipSpaces(s);
      var n := Span(s1, LabelName);
      SkipSpacesEnd(s);
      SkipSpacesEnd(s1[n..]);
      EndOfEnd(s, s1, s1[n..]);
      EndOfEnd(s, s1[n..], SkipSpaces(s1[n..]));
      EndOfEnd(s, SkipSpaces(s1[n..]), SkipSpaces(s1[n..])[1..]);
    }
  }

  /** The quoted value, and what follows the white space after it. */
  function MatchValue(s: string): (r: Option<(string, string)>)
    ensures r.Some? ==> |r.value.1| <= |s|
  {
    var s1 := SkipSpaces(s);
    if !Starts(s1, '"') then None
    else
      var v := ValueLength(s1[1..]);
      if v.None? then None else Some((s1[1..v.value + 1], SkipSpaces(s1[v.value + 2..])))
  }

  lemma MatchValueEnd(s: string)
    ensures MatchValue(s).Some? ==> End(s, MatchValue(s).value.1)
  {
    if MatchValue(s).Some? {
      var s1 := SkipSpaces(s);
      var s2 := s1[ValueLength(s1[1..]).value + 2..];
      SkipSpacesEnd(s);
      SkipSpacesEnd(s2);
      EndOfEnd(s, s1, s2);
      EndOfEnd(s, s2, SkipSpaces(s2));
    }
  }

  function MatchLabel(s: string): (r: Option<Match>)
    ensures r.Some? ==> |r.value.rest| < |s|
  {
    var name := MatchName(s);
    if name.None? then None
    else
      var value := MatchValue(name.value.1);
      if value.None? then None
      else
        var s1 := value.value.1;
        var comma := Starts(s1, ',');
        Some(Match(Label(name.value.0, value.value.0), comma, if comma then s1[1..] else s1))
  }

  lemma MatchLabelEnd(s: string)
    ensures MatchLabel(s).Some? ==> End(s, MatchLabel(s).value.rest)
  {
    if MatchLabel(s).Some? {
      var t := MatchName(s).value.1;
      var s1 := MatchValue(t).value.1;
      MatchNameEnd(s);
      MatchValueEnd(t);
      EndOfEnd(s, t, s1);
      EndOfEnd(s, s1, MatchLabel(s).value.rest);
    }
  }

  /** One round of the loop over the labels: no label where one should be, the closing brace, or a label. */
  datatype Turn = Bad | Close(rest: string) | Pair(pair: Label, rest: string)

  function OneLabel(s: string): (r: Turn)
    ensures !r.Bad? ==> |r.rest| < |s|
  {
    var t := SkipSpaces(s);
    if Starts(t, '}') then Close(t[1..])
    else
      var m := MatchLabel(t);
      if m.None? || (!m.value.comma && !Starts(m.value.rest, '}')) then Bad else Pair(m.value.pair, m.value.rest)
  }

  /** The labels up to the closing brace, and what comes after it. */
  function Labels(s: string): (r: Option<(seq<Label>, string)>)
    decreases |s|
  {
    match OneLabel(s)
    case Bad => None
    case Close(rest) => Some(([], rest))
    case Pair(pair, rest) => Prepend([pair], Labels(rest))
  }

  function Prepend(found: seq<Label>, r: Option<(seq<Label>, string)>): Option<(seq<Label>, string)> {
    if r.None? then None else Some((found + r.value.0, r.value.1))
  }

  lemma PrependTwice(found: seq<Label>, pair: Label, r: Option<(seq<Label>, string)>)
    ensures Prepend([], r) == r && Prepend(found, Prepend([pair], r)) == Prepend(found + [pair], r)
  {
    if r.Some? {
      Unit(r.value.0);
      Assoc(found, [pair], r.value.0);
    }
  }

  datatype Sample = Sample(name: string, labels: seq<Label>, value: string)

  /** parse_sample; number is what float accepts. */
  function ParseSample(line: string, number: string -> bool): Option<Sample> {
    if line == "" || !NameStart(line[0]) then None
    else
      var n := Span(line, Name);
      var rest := line[n..];
      var r := if Starts(rest, '{') then Labels(rest[1..]) else Some(([], rest));
      if r.None? then None
      else
        var fields := Fields(r.value.1, IsSpace);
        if |fields| !in {1, 2} || !number(fields[0]) then None
        else Some(Sample(line[..n], r.value.0, fields[0]))
  }

  /** The loop of parse_sample over the labels. */
  method ReadLabels(rest: string) returns (labels: Option<(seq<Label>, string)>)
    ensures labels == Labels(rest)
  {
    var position, found: seq<Label> := 0, [];
    assert rest[0..] == rest;
    PrependTwice([], Label("", ""), Labels(rest));
    while true
      invariant position <= |rest| && Labels(rest) == Prepend(found, Labels(rest[position..]))
      decreases |rest| - position
    {
      var turn, next := ReadOne(rest, position);
      match turn
      case Bad =>
        return None;
      case Close(after) =>
        Unit(found);
        return Some((found, after));
      case Pair(pair, after) =>
        PrependTwice(found, pair, Labels(after));
        found, position := found + [pair], next;
    }
  }

  lemma {:induction false} TurnParts(s: string, t: string, m: Match)
    requires SkipSpaces(s) == t && MatchLabel(t) == Some(m) && !Starts(t, '}')
    ensures OneLabel(s) == if m.comma || Starts(m.rest, '}') then Pair(m.pair, m.rest) else Bad
  {
  }

  lemma TurnEnds(s: string, t: string)
    requires SkipSpaces(s) == t
    ensures Starts(t, '}') ==> OneLabel(s) == Close(t[1..])
    ensures !Starts(t, '}') && MatchLabel(t).None? ==> OneLabel(s) == Bad
  {
  }

  method ReadOne(rest: string, start: nat) returns (turn: Turn, next: nat)
    requires start <= |rest|
    ensures turn == OneLabel(rest[start..]) && (!turn.Bad? ==> start < next <= |rest| && rest[next..] == turn.rest)
  {
    var position := ReadSpaces(rest, start);
    next := position;
    TurnEnds(rest[start..], rest[position..]);
    if position < |rest| && rest[position] == '}' {
      assert rest[position..][1..] == rest[position + 1..];
      return Close(rest[position + 1..]), position + 1;
    }
    var m := MatchLabel(rest[position..]);
    if m.None? { return Bad, position; }
    TurnParts(rest[start..], rest[position..], m.value);
    MatchLabelEnd(rest[position..]);
    EndOfEnd(rest, rest[position..], m.value.rest);
    next := |rest| - |m.value.rest|;
    if !m.value.comma && (next >= |rest| || rest[next] != '}') { return Bad, next; }
    turn := Pair(m.value.pair, m.value.rest);
  }

  method ReadSpaces(rest: string, start: nat) returns (position: nat)
    requires start <= |rest|
    ensures start <= position <= |rest| && rest[position..] == SkipSpaces(rest[start..])
  {
    position := start;
    while position < |rest| && IsSpace(rest[position])
      invariant start <= position <= |rest|
      invariant SkipSpaces(rest[start..]) == SkipSpaces(rest[position..])
    {
      assert rest[position..][1..] == rest[position + 1..];
      position := position + 1;
    }
  }

  method ReadSample(line: string, number: string -> bool) returns (sample: Option<Sample>)
    ensures sample == ParseSample(line, number)
  {
    if line == "" || !NameStart(line[0]) { return None; }
    var n := Span(line, Name);
    var name, rest := line[..n], line[n..];
    var labels: seq<Label> := [];
    if Starts(rest, '{') {
      var r := ReadLabels(rest[1..]);
      if r.None? { return None; }
      labels, rest := r.value.0, r.value.1;
    }
    var fields := Fields(rest, IsSpace);
    if |fields| != 1 && |fields| != 2 { return None; }
    if !number(fields[0]) { return None; }
    sample := Some(Sample(name, labels, fields[0]));
  }

  // ---- Printing ----

  /** name="value", and the text after it. */
  function PrintLabel(l: Label, rest: string): string { l.name + ("=" + ("\"" + (l.value + ("\"" + rest)))) }

  /** The labels with commas between them, the closing brace and the text after it. */
  function PrintLabels(labels: seq<Label>, rest: string): string {
    if labels == [] then "}" + rest
    else PrintLabel(labels[0], if |labels| == 1 then "}" + rest else "," + PrintLabels(labels[1..], rest))
  }

  function Print(s: Sample): string {
    var tail := " " + s.value;
    s.name + if s.labels == [] then tail else "{" + PrintLabels(s.labels, tail)
  }

  predicate NameOk(name: string) { name != "" && Letter(name[0]) && forall i :: 0 <= i < |name| ==> In(name[i], LabelName) }

  predicate LabelOk(l: Label) { NameOk(l.name) && EscapedText(l.value) }

  predicate LabelsOk(labels: seq<Label>) { forall l <- labels :: LabelOk(l) }

  predicate SampleOk(s: Sample, number: string -> bool) {
    && s.name != "" && NameStart(s.name[0]) && (forall i :: 0 <= i < |s.name| ==> In(s.name[i], Name))
    && LabelsOk(s.labels)
    && s.value != "" && (forall c <- s.value :: !IsSpace(c)) && number(s.value)
  }

  lemma NoSpaces(s: string)
    requires s == "" || !IsSpace(s[0])
    ensures SkipSpaces(s) == s
  {
  }

  lemma Cut(a: string, b: string)
    ensures (a + b)[..|a|] == a && (a + b)[|a|..] == b
  {
  }

  lemma NameMatches(l: Label, rest: string)
    requires LabelOk(l)
    ensures MatchName(l.name + ("=" + rest)) == Some((l.name, rest))
  {
    var s := l.name + ("=" + rest);
    assert s[0] == l.name[0];
    NoSpaces(s);
    SpanOf(l.name, "=" + rest, LabelName);
    NoSpaces("=" + rest);
    Cut("=", rest);
    assert SkipSpaces(s) == s && SkipSpaces(s[|l.name|..]) == "=" + rest;
    assert MatchName(s) == Some((s[..|l.name|], ("=" + rest)[1..]));
  }

  lemma MatchValueIs(s: string, n: nat)
    requires SkipSpaces(s) == s && Starts(s, '"') && ValueLength(s[1..]) == Some(n)
    ensures MatchValue(s) == Some((s[1..n + 1], SkipSpaces(s[n + 2..])))
  {
  }

  lemma CutQuoted(v: string, rest: string)
    ensures var s := "\"" + (v + ("\"" + rest));
      s[1..] == v + ("\"" + rest) && s[1..|v| + 1] == v && s[|v| + 2..] == rest
  {
  }

  lemma ValueMatches(v: string, rest: string)
    requires EscapedText(v) && (rest == "" || !IsSpace(rest[0]))
    ensures MatchValue("\"" + (v + ("\"" + rest))) == Some((v, rest))
  {
    var s := "\"" + (v + ("\"" + rest));
    NoSpaces(s);
    ValueClosed(v, rest);
    CutQuoted(v, rest);
    MatchValueIs(s, |v|);
    NoSpaces(rest);
  }

  lemma LabelMatches(l: Label, rest: string)
    requires LabelOk(l) && rest != "" && (rest[0] == ',' || rest[0] == '}')
    ensures MatchLabel(PrintLabel(l, rest)) == Some(Match(l, rest[0] == ',', if rest[0] == ',' then rest[1..] else rest))
  {
    var quoted := "\"" + (l.value + ("\"" + rest));
    NameMatches(l, quoted);
    ValueMatches(l.value, rest);
    MatchParts(PrintLabel(l, rest), l.name, quoted, l.value, rest);
  }

  lemma MatchParts(s: string, name: string, quoted: string, value: string, rest: string)
    requires MatchName(s) == Some((name, quoted)) && MatchValue(quoted) == Some((value, rest)) && rest != ""
    ensures MatchLabel(s) == Some(Match(Label(name, value), rest[0] == ',', if rest[0] == ',' then rest[1..] else rest))
  {
  }

  lemma LastLabel(l: Label, tail: string)
    requires LabelOk(l)
    ensures Labels(PrintLabel(l, "}" + tail)) == Some(([l], tail))
  {
    LabelTurn(l, "}" + tail);
    BraceTurn(tail);
    Unit([l]);
  }

  lemma BraceTurn(tail: string)
    ensures Labels("}" + tail) == Some(([], tail))
  {
    NoSpaces("}" + tail);
    Cut("}", tail);
    TurnEnds("}" + tail, "}" + tail);
  }

  lemma NextLabel(l: Label, more: string, labels: seq<Label>, tail: string)
    requires LabelOk(l) && Labels(more) == Some((labels, tail))
    ensures Labels(PrintLabel(l, "," + more)) == Some(([l] + labels, tail))
  {
    LabelTurn(l, "," + more);
    Cut(",", more);
  }

  lemma LabelTurn(l: Label, rest: string)
    requires LabelOk(l) && rest != "" && (rest[0] == ',' || rest[0] == '}')
    ensures OneLabel(PrintLabel(l, rest)) == Pair(l, if rest[0] == ',' then rest[1..] else rest)
  {
    var s := PrintLabel(l, rest);
    assert s[0] == l.name[0];
    NoSpaces(s);
    LabelMatches(l, rest);
    TurnParts(s, s, Match(l, rest[0] == ',', if rest[0] == ',' then rest[1..] else rest));
  }

  lemma LabelsMatchMore(labels: seq<Label>, tail: string)
    requires |labels| > 1 && LabelsOk(labels)
    requires Labels(PrintLabels(labels[1..], tail)) == Some((labels[1..], tail))
    ensures Labels(PrintLabels(labels, tail)) == Some((labels, tail))
  {
    assert LabelOk(labels[0]);
    NextLabel(labels[0], PrintLabels(labels[1..], tail), labels[1..], tail);
    assert [labels[0]] + labels[1..] == labels;
  }

  lemma LabelsMatchOne(labels: seq<Label>, tail: string)
    requires |labels| == 1 && LabelsOk(labels)
    ensures Labels(PrintLabels(labels, tail)) == Some((labels, tail))
  {
    assert LabelOk(labels[0]);
    LastLabel(labels[0], tail);
    assert [labels[0]] == labels;
  }

  lemma {:induction false} LabelsMatch(labels: seq<Label>, tail: string)
    requires labels != [] && LabelsOk(labels)
    ensures Labels(PrintLabels(labels, tail)) == Some((labels, tail))
    decreases |labels|
  {
    if |labels| == 1 {
      LabelsMatchOne(labels, tail);
    } else {
      LabelsMatch(labels[1..], tail);
      LabelsMatchMore(labels, tail);
    }
  }

  /** A printed sample reads back as it was. */
  lemma PrintedParses(s: Sample, number: string -> bool)
    requires SampleOk(s, number)
    ensures ParseSample(Print(s), number) == Some(s)
  {
    var tail := " " + s.value;
    var rest := if s.labels == [] then tail else "{" + PrintLabels(s.labels, tail);
    SpanOf(s.name, rest, Name);
    assert Print(s)[0] == s.name[0];
    OneField(s.value);
    if s.labels != [] {
      Cut("{", PrintLabels(s.labels, tail));
      LabelsMatch(s.labels, tail);
    }
  }

  lemma OneField(v: string)
    requires v != "" && forall c <- v :: !IsSpace(c)
    ensures Fields(" " + v, IsSpace) == [v]
  {
    var s := " " + v;
    assert s[1..] == v;
    FieldsOfWord(v, "", IsSpace);
    assert "" + v == v;
    Unit([v]);
  }

  // ---- What parsing gives ----

  /** No end of a line in it. */
  predicate Plain(s: string) { forall i :: 0 <= i < |s| ==> !IsBreak(s[i]) }

  lemma PlainEnd(s: string, t: string)
    requires Plain(s) && End(s, t)
    ensures Plain(t)
  {
  }

  lemma SpanIsOk(s: string)
    requires s != "" && Letter(s[0])
    ensures NameOk(s[..Span(s, LabelName)])
  {
    SpanHolds(s, LabelName);
  }

  lemma NameIsOk(s: string)
    requires MatchName(s).Some?
    ensures NameOk(MatchName(s).value.0)
    ensures Plain(s) ==> Plain(MatchName(s).value.0) && Plain(MatchName(s).value.1)
  {
    var s1 := SkipSpaces(s);
    SpanIsOk(s1);
    assert MatchName(s).value.0 == s1[..Span(s1, LabelName)];
    if Plain(s) {
      SkipSpacesEnd(s);
      MatchNameEnd(s);
      PlainEnd(s, s1);
      PlainEnd(s, MatchName(s).value.1);
    }
  }

  lemma ValueIsOk(s: string)
    requires MatchValue(s).Some?
    ensures EscapedText(MatchValue(s).value.0)
    ensures Plain(s) ==> Plain(MatchValue(s).value.0) && Plain(MatchValue(s).value.1)
  {
    var s1 := SkipSpaces(s);
    ValueIsEscaped(s1[1..]);
    var n := ValueLength(s1[1..]).value;
    assert s1[1..n + 1] == s1[1..][..n];
    SkipSpacesEnd(s);
    MatchValueEnd(s);
    if Plain(s) { PlainEnd(s, s1); PlainEnd(s, MatchValue(s).value.1); }
  }

  lemma MatchIsOk(s: string)
    requires MatchLabel(s).Some?
    ensures LabelOk(MatchLabel(s).value.pair)
    ensures Plain(s) ==> Plain(MatchLabel(s).value.pair.name) && Plain(MatchLabel(s).value.pair.value) && Plain(MatchLabel(s).value.rest)
  {
    NameIsOk(s);
    ValueIsOk(MatchName(s).value.1);
    MatchLabelEnd(s);
    if Plain(s) { PlainEnd(s, MatchLabel(s).value.rest); }
  }

  predicate PlainLabels(labels: seq<Label>) { forall l <- labels :: Plain(l.name) && Plain(l.value) }

  lemma TurnIsOk(s: string)
    ensures OneLabel(s).Pair? ==> LabelOk(OneLabel(s).pair)
    ensures Plain(s) && OneLabel(s).Pair? ==> Plain(OneLabel(s).pair.name) && Plain(OneLabel(s).pair.value)
    ensures Plain(s) && !OneLabel(s).Bad? ==> Plain(OneLabel(s).rest)
  {
    SkipSpacesEnd(s);
    if Plain(s) { PlainEnd(s, SkipSpaces(s)); }
    if OneLabel(s).Pair? { MatchIsOk(SkipSpaces(s)); }
  }

  lemma {:induction false} LabelsAreOk(s: string)
    requires Labels(s).Some?
    ensures LabelsOk(Labels(s).value.0)
    ensures Plain(s) ==> PlainLabels(Labels(s).value.0) && Plain(Labels(s).value.1)
    decreases |s|
  {
    TurnIsOk(s);
    if OneLabel(s).Pair? { LabelsAreOk(OneLabel(s).rest); }
  }

  lemma PlainWord(w: string, s: string)
    requires Plain(s) && forall c <- w :: c in s
    ensures Plain(w)
  {
    forall i | 0 <= i < |w| ensures !IsBreak(w[i]) { assert w[i] in w; }
  }

  lemma ParsedIsOk(line: string, number: string -> bool)
    requires ParseSample(line, number).Some?
    ensures SampleOk(ParseSample(line, number).value, number)
    ensures Plain(line) ==> Plain(Print(ParseSample(line, number).value)) && PlainLabels(ParseSample(line, number).value.labels)
  {
    var s := ParseSample(line, number).value;
    var n := Span(line, Name);
    var rest := line[n..];
    SpanHolds(line, Name);
    assert s.name[0] == line[0];
    if Starts(rest, '{') { LabelsAreOk(rest[1..]); }
    var tail := if Starts(rest, '{') then Labels(rest[1..]).value.1 else rest;
    assert s.value == Fields(tail, IsSpace)[0];
    assert s.value in Fields(tail, IsSpace);
    FieldsFromText(tail, "", IsSpace);
    if Plain(line) {
      PlainEnd(line, rest);
      PlainWord(s.value, tail);
      PlainPrint(s);
    }
  }

  lemma PlainJoin(a: string, b: string)
    requires Plain(a) && Plain(b)
    ensures Plain(a + b)
  {
  }

  lemma PlainPrintLabel(l: Label, rest: string)
    requires Plain(l.name) && Plain(l.value) && Plain(rest)
    ensures Plain(PrintLabel(l, rest))
  {
    PlainJoin("\"", rest);
    PlainJoin(l.value, "\"" + rest);
    PlainJoin("\"", l.value + ("\"" + rest));
    PlainJoin("=", "\"" + (l.value + ("\"" + rest)));
    PlainJoin(l.name, "=" + ("\"" + (l.value + ("\"" + rest))));
  }

  lemma {:induction false} PlainPrintLabels(labels: seq<Label>, rest: string)
    requires PlainLabels(labels) && Plain(rest)
    ensures Plain(PrintLabels(labels, rest))
    decreases |labels|
  {
    PlainJoin("}", rest);
    if labels != [] {
      assert labels[0] in labels;
      if |labels| > 1 {
        PlainPrintLabels(labels[1..], rest);
        PlainJoin(",", PrintLabels(labels[1..], rest));
      }
      PlainPrintLabel(labels[0], if |labels| == 1 then "}" + rest else "," + PrintLabels(labels[1..], rest));
    }
  }

  lemma PlainPrint(s: Sample)
    requires Plain(s.name) && PlainLabels(s.labels) && Plain(s.value)
    ensures Plain(Print(s))
  {
    PlainJoin(" ", s.value);
    PlainPrintLabels(s.labels, " " + s.value);
    PlainJoin("{", PrintLabels(s.labels, " " + s.value));
    PlainJoin(s.name, if s.labels == [] then " " + s.value else "{" + PrintLabels(s.labels, " " + s.value));
  }
}
