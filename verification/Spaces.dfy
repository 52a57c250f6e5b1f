/** Trimming a text and taking it apart at its white space, for any notion of white space. */
module Spaces {

  function TrimLeft(s: string, space: char -> bool): string { if s != "" && space(s[0]) then TrimLeft(s[1..], space) else s }

  function TrimRight(s: string, space: char -> bool): string {
    if s != "" && space(s[|s| - 1]) then TrimRight(s[..|s| - 1], space) else s
  }

  /** Go's strings.TrimSpace, Python's str.strip. */
  function Trim(s: string, space: char -> bool): string { TrimRight(TrimLeft(s, space), space) }

  /** Nothing to trim. */
  predicate Trimmed(s: string, space: char -> bool) { s == "" || (!space(s[0]) && !space(s[|s| - 1])) }

  lemma {:induction false} TrimLeftMore(s: string, c: char, space: char -> bool)
    requires space(c)
    ensures TrimLeft(s + [c], space) == TrimLeft(s, space) + [c] || (TrimLeft(s, space) == "" && TrimLeft(s + [c], space) == "")
  {
    if s == "" {
      assert (s + [c])[1..] == "";
    } else if space(s[0]) {
      assert (s + [c])[1..] == s[1..] + [c];
      TrimLeftMore(s[1..], c, space);
    }
  }

  /** White space after a text does not matter. */
  lemma TrimEnd(s: string, c: char, space: char -> bool)
    requires space(c)
    ensures Trim(s + [c], space) == Trim(s, space)
  {
    TrimLeftMore(s, c, space);
    assert (TrimLeft(s, space) + [c])[..|TrimLeft(s, space)|] == TrimLeft(s, space);
  }

  lemma TrimStart(s: string, c: char, space: char -> bool)
    requires space(c)
    ensures Trim([c] + s, space) == Trim(s, space)
  {
    assert ([c] + s)[1..] == s;
  }

  lemma {:induction false} TrimLeftShape(s: string, space: char -> bool)
    ensures var t := TrimLeft(s, space);
      |t| <= |s| && t == s[|s| - |t|..] && (t == "" || !space(t[0])) && (s == "" || !space(s[0]) ==> t == s)
  {
    if s != "" && space(s[0]) { TrimLeftShape(s[1..], space); }
  }

  lemma {:induction false} TrimRightShape(s: string, space: char -> bool)
    ensures var t := TrimRight(s, space);
      t <= s && (t == "" || !space(t[|t| - 1])) && (s == "" || !space(s[|s| - 1]) ==> t == s)
  {
    if s != "" && space(s[|s| - 1]) { TrimRightShape(s[..|s| - 1], space); }
  }

  /** The trimmed texts are exactly those that trimming leaves alone. */
  lemma TrimmedIff(s: string, space: char -> bool)
    ensures Trimmed(Trim(s, space), space) && (Trimmed(s, space) <==> Trim(s, space) == s)
    ensures |Trim(s, space)| <= |s| && forall c <- Trim(s, space) :: c in s
  {
    TrimLeftShape(s, space);
    TrimRightShape(TrimLeft(s, space), space);
  }

  /** Go's strings.Fields, Python's str.split without arguments. */
  function Fields(s: string, space: char -> bool): (r: seq<string>)
    ensures forall w <- r :: w != "" && forall c <- w :: !space(c)
  {
    FieldsFrom(s, "", space)
  }

  function FieldsFrom(s: string, word: string, space: char -> bool): (r: seq<string>)
    requires forall c <- word :: !space(c)
    ensures forall w <- r :: w != "" && forall c <- w :: !space(c)
  {
    if s == "" then (if word == "" then [] else [word])
    else if space(s[0]) then (if word == "" then [] else [word]) + FieldsFrom(s[1..], "", space)
    else FieldsFrom(s[1..], word + [s[0]], space)
  }

  lemma {:induction false} FieldsOfWord(s: string, word: string, space: char -> bool)
    requires (forall c <- word :: !space(c)) && forall c <- s :: !space(c)
    ensures FieldsFrom(s, word, space) == if word + s == "" then [] else [word + s]
  {
    if s == "" {
      assert word + s == word;
    } else {
      FieldsOfWord(s[1..], word + [s[0]], space);
      assert word + [s[0]] + s[1..] == word + s;
    }
  }

  lemma {:induction false} FieldsFromText(s: string, word: string, space: char -> bool)
    requires forall c <- word :: !space(c)
    ensures forall w <- FieldsFrom(s, word, space) :: forall c <- w :: c in s || c in word
  {
    if s != "" {
      if space(s[0]) { FieldsFromText(s[1..], "", space); } else { FieldsFromText(s[1..], word + [s[0]], space); }
    }
  }

  /** White space before a word does not matter, and the first word ends at the first white space after it. */
  lemma {:induction false} FieldsMore(word: string, w: string, c: char, rest: string, space: char -> bool)
    requires (forall x <- word :: !space(x)) && (forall x <- w :: !space(x)) && space(c)
    ensures FieldsFrom(w + ([c] + rest), word, space) == (if word + w == "" then [] else [word + w]) + FieldsFrom(rest, "", space)
    decreases |w|
  {
    var s := w + ([c] + rest);
    if w == "" {
      assert s[1..] == rest && word + w == word;
    } else {
      assert s[1..] == w[1..] + ([c] + rest);
      FieldsMore(word + [w[0]], w[1..], c, rest, space);
      assert word + [w[0]] + w[1..] == word + w;
    }
  }

  lemma FirstField(w: string, c: char, rest: string, space: char -> bool)
    requires (forall x <- w :: !space(x)) && space(c)
    ensures Fields(w + ([c] + rest), space) == (if w == "" then [] else [w]) + Fields(rest, space)
  {
    FieldsMore("", w, c, rest, space);
    assert "" + w == w;
  }
}
