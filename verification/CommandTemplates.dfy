/** What fiasBuildCommand makes of every template and values: which argv, or which error. */
module CommandTemplates {
  import opened Text
  import opened LegacyCommand

  /** The placeholder stands somewhere in the text. */
  predicate Occurs(p: string, text: string) { exists i :: 0 <= i <= |text| && p <= text[i..] }

  // ---- Placeholders ----

  lemma OneAt(text: string, p: string, q: string)
    requires p in PLACEHOLDERS && q in PLACEHOLDERS && p <= text && q <= text
    ensures p == q
  {
    assert |p| >= 5 && |q| >= 5 && p[1] == text[1] == q[1] && p[2] == text[2] == q[2];
    if p == "%GUESTNAME%" || q == "%GUESTNAME%" { SixthLetter(text, p, q); }
  }

  lemma SixthLetter(text: string, p: string, q: string)
    requires p in PLACEHOLDERS && q in PLACEHOLDERS && p <= text && q <= text && p[1] == q[1] == 'G'
    ensures p == q
  {
    assert p in {"%GUESTNAME%", "%GUESTLANGUAGE%"} && q in {"%GUESTNAME%", "%GUESTLANGUAGE%"};
    assert p[6] == text[6] == q[6];
    assert "%GUESTNAME%"[6] == 'N' && "%GUESTLANGUAGE%"[6] == 'L';
  }

  /** A text begins with one placeholder at most, and that is the one read there. */
  lemma AtIs(text: string, p: string)
    ensures At(text) == Some(p) <==> p in PLACEHOLDERS && p <= text
  {
    if At(text).Some? { assert At(text).value in PLACEHOLDERS && At(text).value <= text; }
    if p in PLACEHOLDERS && p <= text {
      assert At(text).Some?;
      OneAt(text, p, At(text).value);
    }
  }

  lemma {:induction false} FoundIs(text: string, p: string)
    ensures p in Found(text) <==> p in PLACEHOLDERS && Occurs(p, text)
  {
    if text != "" {
      AtIs(text, p);
      FoundIs(text[1..], p);
      assert text[0..] == text;
      if Occurs(p, text) {
        var i :| 0 <= i <= |text| && p <= text[i..];
        if i > 0 { assert text[1..][i - 1..] == text[i..]; }
      }
      if Occurs(p, text[1..]) {
        var i :| 0 <= i <= |text[1..]| && p <= text[1..][i..];
        assert text[i + 1..] == text[1..][i..];
      }
    }
  }

  predicate Plain(text: string) { forall p <- PLACEHOLDERS :: !Occurs(p, text) }

  lemma PlainIs(text: string)
    ensures Plain(text) <==> Found(text) == {}
  {
    forall p ensures p in Found(text) <==> p in PLACEHOLDERS && Occurs(p, text) { FoundIs(text, p); }
  }

  lemma ExpandChar(text: string, values: map<string, string>)
    requires text != "" && forall q <- PLACEHOLDERS :: !(q <= text)
    ensures Expand(text, values) == [text[0]] + Expand(text[1..], values)
  {
    if At(text).Some? { AtIs(text, At(text).value); }
  }

  lemma ExpandHere(p: string, rest: string, values: map<string, string>)
    requires p in PLACEHOLDERS
    ensures Expand(p + rest, values) == (if p in values then values[p] else "") + Expand(rest, values)
  {
    AtIs(p + rest, p);
    assert (p + rest)[|p|..] == rest;
  }

  /** No placeholder begins in this part of the text. */
  predicate NoneBegins(before: string, rest: string) {
    forall i, q :: 0 <= i < |before| && q in PLACEHOLDERS ==> !(q <= before[i..] + rest)
  }

  lemma NoneBeginsLater(before: string, rest: string)
    requires before != "" && NoneBegins(before, rest)
    ensures NoneBegins(before[1..], rest)
  {
    forall i, q | 0 <= i < |before[1..]| && q in PLACEHOLDERS ensures !(q <= before[1..][i..] + rest) {
      assert before[1..][i..] == before[i + 1..];
    }
  }

  /** Placeholders are replaced from the left: the first one, and then in what follows it, never in a value. */
  lemma {:induction false} ExpandsFirst(before: string, p: string, rest: string, values: map<string, string>)
    requires p in PLACEHOLDERS && NoneBegins(before, p + rest)
    ensures Expand(before + (p + rest), values) == before + ((if p in values then values[p] else "") + Expand(rest, values))
    decreases |before|
  {
    var tail, filled := p + rest, (if p in values then values[p] else "") + Expand(rest, values);
    ExpandHere(p, rest, values);
    if before == "" {
      Text.Unit(tail);
      Text.Unit(filled);
    } else {
      assert before[0..] == before && (before + tail)[1..] == before[1..] + tail;
      NoneBeginsLater(before, tail);
      ExpandsFirst(before[1..], p, rest, values);
      ExpandChar(before + tail, values);
      Assoc([before[0]], before[1..], filled);
      assert before == [before[0]] + before[1..];
    }
  }

  // ---- Names between marks ----

  /** What may be written between two marks. */
  predicate IsName(name: string) {
    name != "" && forall i :: 0 <= i < |name| ==> 'A' <= name[i] <= 'Z' || '0' <= name[i] <= '9' || name[i] in "#+_"
  }

  lemma {:induction false} LengthOf(name: string, rest: string)
    requires (forall i :: 0 <= i < |name| ==> NameChar(name[i])) && (rest == "" || !NameChar(rest[0]))
    ensures NameLength(name + rest) == |name|
  {
    if name == "" {
      Text.Unit(rest);
    } else {
      assert (name + rest)[1..] == name[1..] + rest;
      LengthOf(name[1..], rest);
    }
  }

  lemma {:induction false} LengthTakes(text: string)
    ensures forall i :: 0 <= i < NameLength(text) ==> NameChar(text[i])
  {
    if text != "" && NameChar(text[0]) { LengthTakes(text[1..]); }
  }

  lemma {:induction false} SkipsPlain(before: string, rest: string)
    requires '%' !in before
    ensures OnlyKnown(before + rest) <==> OnlyKnown(rest)
  {
    if before == "" {
      Text.Unit(rest);
    } else {
      assert (before + rest)[1..] == before[1..] + rest;
      SkipsPlain(before[1..], rest);
    }
  }

  /** Main result, in three parts: a text without marks names nothing unknown; */
  lemma NoMarks(text: string)
    requires '%' !in text
    ensures OnlyKnown(text)
  {
    SkipsPlain(text, "");
    Text.Unit(text);
  }

  /** at the first mark, a name up to the next one must be a placeholder, and so on behind that; */
  lemma NameAtMark(before: string, name: string, rest: string)
    requires '%' !in before && IsName(name)
    ensures OnlyKnown(before + ("%" + (name + ("%" + rest)))) <==> "%" + name + "%" in PLACEHOLDERS && OnlyKnown(rest)
  {
    var text := "%" + (name + ("%" + rest));
    SkipsPlain(before, text);
    assert text[1..] == name + ("%" + rest);
    LengthOf(name, "%" + rest);
    var n := |name|;
    assert text[..n + 2] == "%" + name + "%" && text[n + 2..] == rest && text[n + 1] == '%';
  }

  /** and a mark without a name and another mark behind it stands for itself. */
  lemma LoneMark(before: string, rest: string)
    requires '%' !in before && forall k :: 0 < k < |rest| && rest[k] == '%' ==> !IsName(rest[..k])
    ensures OnlyKnown(before + ("%" + rest)) <==> OnlyKnown(rest)
  {
    var text := "%" + rest;
    SkipsPlain(before, text);
    assert text[1..] == rest;
    LengthTakes(rest);
    var n := NameLength(rest);
    if n > 0 && n + 1 < |text| && text[n + 1] == '%' { assert IsName(rest[..n]); }
  }

  // ---- Building ----

  /** What a placeholder of the token is given holds no NUL. */
  predicate CleanFor(token: string, values: map<string, string>) {
    forall p <- PLACEHOLDERS :: Occurs(p, token) && p in values ==> NUL !in values[p]
  }

  lemma CleanIs(token: string, values: map<string, string>)
    ensures CleanFor(token, values) <==> ValuesClean(token, values)
  {
    forall p ensures p in Found(token) <==> p in PLACEHOLDERS && Occurs(p, token) { FoundIs(token, p); }
    assert NUL !in "";
  }

  /** Which error a token ends with: a NUL of its own before an unknown name, that before a placeholder that does not stand
      alone in a list of arguments, and a NUL in a value last. */
  lemma TokenStopsWith(c: Configured, token: string, values: map<string, string>)
    ensures var error := TokenError(c, token, values);
      && (error == Some(NulInArgument) <==> NUL in token)
      && (error == Some(UnknownPlaceholder) <==> NUL !in token && !OnlyKnown(token))
      && (error == Some(HoleNotAlone) <==> NUL !in token && OnlyKnown(token) && c.Listed? && !Plain(token) && token !in PLACEHOLDERS)
      && (error == Some(NulInValue) <==>
            NUL !in token && OnlyKnown(token) && (c.Listed? ==> Plain(token) || token in PLACEHOLDERS) && !CleanFor(token, values))
      && (error.Some? ==> error.value in {NulInArgument, UnknownPlaceholder, HoleNotAlone, NulInValue})
  {
    PlainIs(token);
    CleanIs(token, values);
  }

  lemma {:induction false} FirstErrorIs(c: Configured, tokens: seq<string>, values: map<string, string>)
    ensures FirstError(c, tokens, values).None? <==> forall t <- tokens :: TokenError(c, t, values).None?
    ensures FirstError(c, tokens, values).Some? ==> exists i ::
      0 <= i < |tokens| && FirstError(c, tokens, values) == TokenError(c, tokens[i], values)
      && forall j :: 0 <= j < i ==> TokenError(c, tokens[j], values).None?
  {
    if tokens != [] {
      assert forall t :: t in tokens <==> t == tokens[0] || t in tokens[1..];
      if TokenError(c, tokens[0], values).None? {
        FirstErrorIs(c, tokens[1..], values);
        if FirstError(c, tokens[1..], values).Some? {
          var i :| 0 <= i < |tokens[1..]| && FirstError(c, tokens[1..], values) == TokenError(c, tokens[1..][i], values)
            && forall j :: 0 <= j < i ==> TokenError(c, tokens[1..][j], values).None?;
          forall j | 0 <= j < i + 1 ensures TokenError(c, tokens[j], values).None? { if j > 0 { assert tokens[1..][j - 1] == tokens[j]; } }
          assert tokens[i + 1] == tokens[1..][i];
        }
      }
    }
  }

  /** Main result: a command is built exactly when its line can be read, its first token is there, is not empty and holds no
      placeholder, and no token has an error; then each token gives one argument, expanded. */
  lemma BuildsExactly(c: Configured, values: map<string, string>)
    ensures Build(c, values).Some?
            <==> && (c.Line? ==> Parse(c.text).Args?)
                 && (var tokens := if c.Line? then Parse(c.text).args else c.tokens;
                     tokens != [] && tokens[0] != "" && Plain(tokens[0]) && forall t <- tokens :: TokenError(c, t, values) == None)
    ensures Build(c, values).Some? ==>
      var tokens := if c.Line? then Parse(c.text).args else c.tokens;
      |Build(c, values).value| == |tokens| && forall i :: 0 <= i < |tokens| ==> Build(c, values).value[i] == Expand(tokens[i], values)
  {
    if Tokens(c).Some? && Tokens(c).value != [] { PlainIs(Tokens(c).value[0]); }
    forall t: string ensures TokenError(c, t, values).None? <==> TokenOk(c, t) && ValuesClean(t, values) {}
  }

  /** Main result, the other half: which error is returned. */
  lemma StopsWith(c: Configured, values: map<string, string>)
    ensures BuildError(c, values).None? <==> Build(c, values).Some?
    ensures c.Line? && Parse(c.text).Failed? ==> BuildError(c, values) == Some(Parse(c.text).error)
    ensures c.Line? ==> Parse(c.text).Args? ==> StopsAt(c, Parse(c.text).args, values)
    ensures c.Listed? ==> StopsAt(c, c.tokens, values)
  {
    BuildsExactly(c, values);
    if Tokens(c).Some? {
      var tokens := Tokens(c).value;
      FirstErrorIs(c, tokens, values);
      if tokens != [] { PlainIs(tokens[0]); }
    }
  }

  /** No executable first, then a placeholder in it, then the first token with an error. */
  predicate StopsAt(c: Configured, tokens: seq<string>, values: map<string, string>) {
    var error := BuildError(c, values);
    if tokens == [] || tokens[0] == "" then error == Some(NoExecutable)
    else if !Plain(tokens[0]) then error == Some(HoleInExecutable)
    else if forall t <- tokens :: TokenError(c, t, values).None? then error == None
    else exists i :: 0 <= i < |tokens| && error == TokenError(c, tokens[i], values) && error.Some?
                     && forall j :: 0 <= j < i ==> TokenError(c, tokens[j], values).None?
  }
}
