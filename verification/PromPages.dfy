/** promtext.py: which lines of a page are forwarded, and in what order. */
module PromPages {
  import opened Text
  import opened Spaces
  import opened PromText
  import opened PromForward

  /** The words of a HELP or TYPE line: the mark, the kind, the family, and the rest. */
  function CommentOf(line: string): Option<seq<string>> {
    var t := Trim(line, IsSpace);
    var words := SplitWords(t, 3);
    if Starts(t, '#') && |words| >= 3 && (words[1] == "HELP" || words[1] == "TYPE") then Some(words) else None
  }

  /** The line is a comment of this kind and family. */
  predicate IsAbout(line: string, kind: string, family: string) {
    var c := CommentOf(line);
    c.Some? && |c.value| >= 3 && c.value[1] == kind && c.value[2] == family
  }

  /** A comment of a family with the prefix, when none of its kind and family came before. */
  predicate KeptComment(lines: seq<string>, k: nat, prefix: string, seen: set<(string, string)>)
    requires k < |lines|
  {
    var c := CommentOf(lines[k]);
    && c.Some? && |c.value| >= 3 && prefix <= c.value[2] && (c.value[1], c.value[2]) !in seen
    && forall j :: 0 <= j < k ==> !IsAbout(lines[j], c.value[1], c.value[2])
  }

  /** A sample of a name with the prefix, without a reserved label. */
  predicate KeptSample(line: string, prefix: string, number: string -> bool) {
    var s := ParseSample(Trim(line, IsSpace), number);
    && s.Some? && prefix <= s.value.name
    && forall i :: 0 <= i < |s.value.labels| ==> s.value.labels[i].name != "module" && s.value.labels[i].name != "module_id"
                                                  && s.value.labels[i].name != "instance"
  }

  predicate Kept(lines: seq<string>, k: nat, prefix: string, number: string -> bool, seen: set<(string, string)>)
    requires k < |lines|
  {
    KeptComment(lines, k, prefix, seen) || KeptSample(lines[k], prefix, number)
  }

  /** A line as it is written: a comment's words with single spaces, a sample without its timestamp. */
  function Written(line: string, number: string -> bool): string {
    var s := ParseSample(Trim(line, IsSpace), number);
    if CommentOf(line).Some? then Join(CommentOf(line).value, " ") else if s.Some? then Print(s.value) else ""
  }

  /** What the first line adds to the keys seen. */
  function SeenAfter(line: string, prefix: string, seen: set<(string, string)>): set<(string, string)> {
    var c := CommentOf(line);
    if c.Some? && |c.value| >= 3 && prefix <= c.value[2] then seen + {(c.value[1], c.value[2])} else seen
  }

  lemma CommentIsNoSample(line: string, number: string -> bool)
    ensures Starts(Trim(line, IsSpace), '#') ==> ParseSample(Trim(line, IsSpace), number).None?
    ensures CommentOf(line).Some? ==> |CommentOf(line).value| >= 3 && !KeptSample(line, "", number)
  {
    if Starts(Trim(line, IsSpace), '#') { NoSampleAt(Trim(line, IsSpace), number); }
  }

  /** One line of the loop: a comment, or not. */
  lemma CommentForwarded(lines: seq<string>, prefix: string, number: string -> bool, seen: set<(string, string)>)
    requires lines != [] && Starts(Trim(lines[0], IsSpace), '#')
    ensures Forwarded(lines, prefix, number, seen)
      == (if Kept(lines, 0, prefix, number, seen) then [Written(lines[0], number)] else [])
         + Forwarded(lines[1..], prefix, number, SeenAfter(lines[0], prefix, seen))
  {
    var words := SplitWords(Trim(lines[0], IsSpace), 3);
    CommentIsNoSample(lines[0], number);
    Unit(Forwarded(lines[1..], prefix, number, SeenAfter(lines[0], prefix, seen)));
    if IsComment(words, prefix) && (words[1], words[2]) in seen { assert seen + {(words[1], words[2])} == seen; }
  }

  lemma SampleForwarded(lines: seq<string>, prefix: string, number: string -> bool, seen: set<(string, string)>)
    requires lines != [] && !Starts(Trim(lines[0], IsSpace), '#')
    ensures Forwarded(lines, prefix, number, seen)
      == (if Kept(lines, 0, prefix, number, seen) then [Written(lines[0], number)] else [])
         + Forwarded(lines[1..], prefix, number, SeenAfter(lines[0], prefix, seen))
  {
    Unit(Forwarded(lines[1..], prefix, number, seen));
  }

  /** A later line is kept as if the first had been read. */
  lemma LaterKept(lines: seq<string>, k: nat, prefix: string, number: string -> bool, seen: set<(string, string)>)
    requires 0 < k < |lines|
    ensures Kept(lines, k, prefix, number, seen) <==> Kept(lines[1..], k - 1, prefix, number, SeenAfter(lines[0], prefix, seen))
  {
    var rest, seen' := lines[1..], SeenAfter(lines[0], prefix, seen);
    assert rest[k - 1] == lines[k];
    var c := CommentOf(lines[k]);
    if c.Some? && |c.value| >= 3 && prefix <= c.value[2] {
      var key := (c.value[1], c.value[2]);
      assert key in seen' <==> key in seen || IsAbout(lines[0], key.0, key.1);
      if forall j :: 0 <= j < k ==> !IsAbout(lines[j], key.0, key.1) {
        forall j | 0 <= j < k - 1 ensures !IsAbout(rest[j], key.0, key.1) { assert rest[j] == lines[j + 1]; }
      } else {
        var j :| 0 <= j < k && IsAbout(lines[j], key.0, key.1);
        if j > 0 { assert rest[j - 1] == lines[j]; }
      }
    }
  }

  /** The places are those of the kept lines. */
  predicate Places(lines: seq<string>, prefix: string, number: string -> bool, seen: set<(string, string)>, at: seq<nat>) {
    forall k: nat :: k < |lines| ==> (k in at <==> Kept(lines, k, prefix, number, seen))
  }

  /** The lines as they are written. */
  function AllWritten(lines: seq<string>, number: string -> bool): seq<string> {
    seq(|lines|, i requires 0 <= i < |lines| => Written(lines[i], number))
  }

  function Front(first: bool): seq<nat> { if first then [0] else [] }

  lemma PlacesMore(lines: seq<string>, prefix: string, number: string -> bool, seen: set<(string, string)>, at: seq<nat>)
    requires lines != [] && Places(lines[1..], prefix, number, SeenAfter(lines[0], prefix, seen), at)
    ensures Places(lines, prefix, number, seen, Front(Kept(lines, 0, prefix, number, seen)) + Shifted(at))
  {
    forall k: nat | k < |lines|
      ensures k in Front(Kept(lines, 0, prefix, number, seen)) + Shifted(at) <==> Kept(lines, k, prefix, number, seen)
    {
      if k > 0 {
        ShiftedHas(at, k - 1);
        LaterKept(lines, k, prefix, number, seen);
        PlacesAt(lines[1..], prefix, number, SeenAfter(lines[0], prefix, seen), at, k - 1);
      }
    }
  }

  lemma PlacesAt(lines: seq<string>, prefix: string, number: string -> bool, seen: set<(string, string)>, at: seq<nat>, k: nat)
    requires Places(lines, prefix, number, seen, at) && k < |lines|
    ensures k in at <==> Kept(lines, k, prefix, number, seen)
  {
  }

  lemma WritesMore(lines: seq<string>, number: string -> bool, out: seq<string>, at: seq<nat>, first: bool)
    requires lines != [] && Picks(AllWritten(lines[1..], number), out, at)
    ensures Picks(AllWritten(lines, number), (if first then [Written(lines[0], number)] else []) + out, Front(first) + Shifted(at))
  {
    var all := AllWritten(lines, number);
    assert all[1..] == AllWritten(lines[1..], number);
    PicksLater(all, out, at);
    if first { PicksFirst(all, out, Shifted(at)); } else { Unit(out); Unit(Shifted(at)); }
  }

  lemma {:induction false} PicksLines(lines: seq<string>, prefix: string, number: string -> bool, seen: set<(string, string)>)
    returns (at: seq<nat>)
    ensures Increasing(at) && Places(lines, prefix, number, seen, at)
    ensures Picks(AllWritten(lines, number), Forwarded(lines, prefix, number, seen), at)
    decreases |lines|
  {
    at := [];
    if lines != [] {
      var rest := PicksLines(lines[1..], prefix, number, SeenAfter(lines[0], prefix, seen));
      var first := Kept(lines, 0, prefix, number, seen);
      if Starts(Trim(lines[0], IsSpace), '#') { CommentForwarded(lines, prefix, number, seen);
      } else { SampleForwarded(lines, prefix, number, seen); }
      PlacesMore(lines, prefix, number, seen, rest);
      WritesMore(lines, number, Forwarded(lines[1..], prefix, number, SeenAfter(lines[0], prefix, seen)), rest, first);
      ShiftedFront(rest);
      Unit(Shifted(rest));
      at := Front(first) + Shifted(rest);
    }
  }

  /** Main result: the lines of a forwarded page are, in the page's order, the first HELP and the first TYPE line of each
      family with the prefix, and the samples of such names without a reserved label; each as it is written, and no other. */
  lemma ForwardsExactly(text: string, prefix: string, number: string -> bool) returns (at: seq<nat>)
    ensures var lines := SplitLines(text);
      && |at| == |SplitLines(ForwardOf(text, prefix, number))| && Increasing(at)
      && (forall i :: 0 <= i < |at| ==>
            at[i] < |lines| && SplitLines(ForwardOf(text, prefix, number))[i] == Written(lines[at[i]], number))
      && (forall k: nat :: k < |lines| ==>
            (k in at <==> KeptComment(lines, k, prefix, {}) || KeptSample(lines[k], prefix, number)))
  {
    var lines := SplitLines(text);
    LinesArePlain(text);
    ForwardedArePlain(lines, prefix, number, {});
    PageSplits(Forwarded(lines, prefix, number, {}));
    at := PicksLines(lines, prefix, number, {});
  }
}
