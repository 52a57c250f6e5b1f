/** The fingerprint of a group sync's inputs: one string for the wanted rooms, their members and the known rooms. */
module Fingerprint {
  import opened Text

  // ---- Ordered strings ----

  /** The order of sort.Strings. */
  predicate Less(a: string, b: string) {
    b != "" && (a == "" || a[0] < b[0] || (a[0] == b[0] && Less(a[1..], b[1..])))
  }

  lemma {:induction false} LessTotal(a: string, b: string)
    ensures a == b || Less(a, b) || Less(b, a)
  {
    if a != "" && b != "" && a[0] == b[0] {
      LessTotal(a[1..], b[1..]);
      if a[1..] == b[1..] { assert a == [a[0]] + a[1..] && b == [b[0]] + b[1..]; }
    }
  }

  lemma {:induction false} LessTransitive(a: string, b: string, c: string)
    requires Less(a, b) && Less(b, c)
    ensures Less(a, c)
  {
    if a != "" && a[0] == b[0] && b[0] == c[0] { LessTransitive(a[1..], b[1..], c[1..]); }
  }

  lemma {:induction false} LessIrreflexive(a: string)
    ensures !Less(a, a)
  {
    if a != "" { LessIrreflexive(a[1..]); }
  }

  /** list is the elements of s, each once, in order. */
  ghost predicate Lists(list: seq<string>, s: set<string>) {
    && (forall x :: x in s <==> x in list)
    && (forall i, j :: 0 <= i < j < |list| ==> Less(list[i], list[j]))
  }

  lemma HeadIsLeast(list: seq<string>, s: set<string>)
    requires Lists(list, s) && list != []
    ensures list[0] in s && forall x <- s :: x == list[0] || Less(list[0], x)
    ensures Lists(list[1..], s - {list[0]})
  {
    forall x | x in s ensures x == list[0] || Less(list[0], x) {
      var i :| 0 <= i < |list| && list[i] == x;
    }
    forall x ensures x in s - {list[0]} <==> x in list[1..] {
      if x in s && x != list[0] {
        var i :| 0 <= i < |list| && list[i] == x;
        assert list[1..][i - 1] == x;
      }
      if x in list[1..] {
        var i :| 0 <= i < |list[1..]| && list[1..][i] == x;
        assert list[i + 1] == x && Less(list[0], x);
        LessIrreflexive(x);
      }
    }
  }

  /** A set has one sorted listing: the map's own order never shows. */
  lemma {:induction false} ListingUnique(a: seq<string>, b: seq<string>, s: set<string>)
    requires Lists(a, s) && Lists(b, s)
    ensures a == b
  {
    assert a != [] ==> a[0] in s;
    assert b != [] ==> b[0] in s;
    if a != [] {
      HeadIsLeast(a, s);
      HeadIsLeast(b, s);
      if a[0] != b[0] {
        LessTransitive(a[0], b[0], a[0]);
        LessIrreflexive(a[0]);
      }
      ListingUnique(a[1..], b[1..], s - {a[0]});
      assert a == [a[0]] + a[1..] && b == [b[0]] + b[1..];
    }
  }

  /** x put where it belongs: one step of a sort. */
  function Place(list: seq<string>, x: string): seq<string> {
    if list == [] || Less(x, list[0]) then [x] + list else [list[0]] + Place(list[1..], x)
  }

  lemma ConsLists(x: string, list: seq<string>, s: set<string>)
    requires Lists(list, s) && forall y <- s :: Less(x, y)
    ensures Lists([x] + list, s + {x})
  {
    var r := [x] + list;
    forall i, j | 0 <= i < j < |r| ensures Less(r[i], r[j]) {
      assert r[j] == list[j - 1] && list[j - 1] in s;
      if i > 0 { assert r[i] == list[i - 1]; }
    }
  }

  lemma {:induction false} PlaceLists(list: seq<string>, x: string, s: set<string>)
    requires Lists(list, s) && x !in s
    ensures Lists(Place(list, x), s + {x})
  {
    if list == [] {
      ConsLists(x, list, s);
    } else {
      HeadIsLeast(list, s);
      if Less(x, list[0]) {
        forall y | y in s ensures Less(x, y) {
          if y != list[0] { LessTransitive(x, list[0], y); }
        }
        ConsLists(x, list, s);
      } else {
        LessTotal(x, list[0]);
        PlaceLists(list[1..], x, s - {list[0]});
        ConsLists(list[0], Place(list[1..], x), s - {list[0]} + {x});
        assert s - {list[0]} + {x} + {list[0]} == s + {x};
      }
    }
  }

  /** keys: the elements sorted. */
  method Keys(s: set<string>) returns (out: seq<string>)
    ensures Lists(out, s)
  {
    out := [];
    var rest := s;
    while rest != {}
      invariant rest <= s && Lists(out, s - rest)
      decreases rest
    {
      var x :| x in rest;
      PlaceLists(out, x, s - rest);
      assert s - rest + {x} == s - (rest - {x});
      out, rest := Place(out, x), rest - {x};
    }
    assert s - {} == s;
  }

  lemma {:induction false} ListingExists(s: set<string>) returns (r: seq<string>)
    ensures Lists(r, s)
  {
    if s == {} {
      r := [];
    } else {
      var x :| x in s;
      r := ListingExists(s - {x});
      PlaceLists(r, x, s - {x});
      r := Place(r, x);
      assert s - {x} + {x} == s;
    }
  }

  /** The sorted listing, as a function. */
  ghost function Listing(s: set<string>): (r: seq<string>)
    ensures Lists(r, s)
  {
    SomeListing(s);
    var r :| Lists(r, s);
    r
  }

  lemma SomeListing(s: set<string>)
    ensures exists r :: Lists(r, s)
  {
    var r := ListingExists(s);
  }

  // ---- The entries ----

  const EQ: char := '='
  const COLON: char := ':'
  const COMMA: char := ','
  const SEMI: char := ';'

  /** A wanted room: "slug=name:member,member". */
  ghost function WantEntry(slug: string, name: string, members: set<string>): string {
    slug + [EQ] + (name + [COLON] + Join(Listing(members), [COMMA]))
  }

  /** A room made before: "room slug=name". */
  function KnownEntry(slug: string, name: string): string { "room " + slug + [EQ] + name }

  /** What a sync compares: the wanted rooms by slug, their members, and the rooms known. */
  datatype Inputs = Inputs(want: map<string, string>, members: map<string, set<string>>, known: map<string, string>)

  ghost function Entries(x: Inputs): set<string>
    requires x.members.Keys == x.want.Keys
  {
    (set slug | slug in x.want :: WantEntry(slug, x.want[slug], x.members[slug]))
    + (set slug | slug in x.known :: KnownEntry(slug, x.known[slug]))
  }

  ghost function Print(x: Inputs): string
    requires x.members.Keys == x.want.Keys
  {
    Join(Listing(Entries(x)), [SEMI])
  }

  predicate SlugChar(c: char) { 'a' <= c <= 'z' || '0' <= c <= '9' }

  predicate IsSlug(s: string) { s != "" && forall i :: 0 <= i < |s| ==> SlugChar(s[i]) }

  /** Rooms are keyed by slugs. */
  predicate Keyed(x: Inputs) {
    x.members.Keys == x.want.Keys && (forall slug <- x.want :: IsSlug(slug)) && (forall slug <- x.known :: IsSlug(slug))
  }

  /** Names without ';', usernames that are not empty and hold no ':', ',' or ';'. */
  predicate Plain(x: Inputs) {
    && Keyed(x)
    && (forall slug <- x.want :: SEMI !in x.want[slug])
    && (forall slug <- x.known :: SEMI !in x.known[slug])
    && (forall slug <- x.members :: forall u <- x.members[slug] :: PlainUser(u))
  }

  predicate PlainUser(u: string) { u != "" && COLON !in u && COMMA !in u && SEMI !in u }

  // ---- Taking entries apart ----

  lemma {:induction false} CutFirst(a: string, x: string, b: string, y: string, sep: char)
    requires sep !in a && sep !in b && a + [sep] + x == b + [sep] + y
    ensures a == b && x == y
  {
    SplitAt(a, x, sep);
    SplitAt(b, y, sep);
  }

  /** The first separator of s is after a. */
  function FirstOf(s: string, sep: char): nat { if s == "" || s[0] == sep then 0 else 1 + FirstOf(s[1..], sep) }

  lemma {:induction false} SplitAt(a: string, x: string, sep: char)
    requires sep !in a
    ensures FirstOf(a + [sep] + x, sep) == |a|
    ensures (a + [sep] + x)[..|a|] == a && (a + [sep] + x)[|a| + 1..] == x
  {
    if a != "" {
      assert (a + [sep] + x)[1..] == a[1..] + [sep] + x;
      SplitAt(a[1..], x, sep);
    }
  }

  lemma LastAt(a: string, x: string, sep: char)
    requires sep !in x
    ensures (a + [sep] + x)[|a|] == sep
    ensures forall i :: |a| < i < |a + [sep] + x| ==> (a + [sep] + x)[i] != sep
  {
  }

  /** Two texts around their last separators. */
  lemma CutLast(a: string, x: string, b: string, y: string, sep: char)
    requires sep !in x && sep !in y && a + [sep] + x == b + [sep] + y
    ensures a == b && x == y
  {
    var s := a + [sep] + x;
    LastAt(a, x, sep);
    LastAt(b, y, sep);
    assert a == s[..|a|] && b == s[..|b|];
    assert x == s[|a| + 1..] && y == s[|b| + 1..];
  }

  lemma {:induction false} JoinWithout(parts: seq<string>, sep: string, c: char)
    requires c !in sep && forall p <- parts :: c !in p
    ensures c !in Join(parts, sep)
  {
    if |parts| > 0 { assert parts[0] in parts; }
    if |parts| > 1 { JoinWithout(parts[1..], sep, c); }
  }

  /** Non-empty pieces without the separator come back from their join. */
  lemma JoinInjective(a: seq<string>, b: seq<string>, sep: char)
    requires (forall p <- a :: p != "" && sep !in p) && (forall p <- b :: p != "" && sep !in p)
    requires Join(a, [sep]) == Join(b, [sep])
    ensures a == b
  {
    JoinNotEmpty(a, sep);
    JoinNotEmpty(b, sep);
    if a != [] && b != [] {
      SplitJoin(a, sep);
      SplitJoin(b, sep);
    }
  }

  lemma JoinNotEmpty(a: seq<string>, sep: char)
    requires forall p <- a :: p != "" && sep !in p
    ensures Join(a, [sep]) == "" <==> a == []
  {
    if a != [] { assert a[0] in a && a[0] != ""; }
  }

  lemma MembersInjective(a: set<string>, b: set<string>)
    requires (forall u <- a :: PlainUser(u)) && (forall u <- b :: PlainUser(u))
    requires Join(Listing(a), [COMMA]) == Join(Listing(b), [COMMA])
    ensures a == b
  {
    JoinInjective(Listing(a), Listing(b), COMMA);
    forall u ensures u in a <==> u in b {
      assert u in a <==> u in Listing(a);
    }
  }

  lemma SlugHasNo(s: string, c: char)
    requires IsSlug(s) && !SlugChar(c)
    ensures c !in s
  {
  }

  lemma WantEntryInjective(s1: string, n1: string, m1: set<string>, s2: string, n2: string, m2: set<string>)
    requires IsSlug(s1) && IsSlug(s2) && (forall u <- m1 :: PlainUser(u)) && (forall u <- m2 :: PlainUser(u))
    requires WantEntry(s1, n1, m1) == WantEntry(s2, n2, m2)
    ensures s1 == s2 && n1 == n2 && m1 == m2
  {
    var j1, j2 := Join(Listing(m1), [COMMA]), Join(Listing(m2), [COMMA]);
    SlugHasNo(s1, EQ);
    SlugHasNo(s2, EQ);
    CutFirst(s1, n1 + [COLON] + j1, s2, n2 + [COLON] + j2, EQ);
    JoinWithout(Listing(m1), [COMMA], COLON);
    JoinWithout(Listing(m2), [COMMA], COLON);
    CutLast(n1, j1, n2, j2, COLON);
    MembersInjective(m1, m2);
  }

  lemma KnownEntryInjective(s1: string, n1: string, s2: string, n2: string)
    requires IsSlug(s1) && IsSlug(s2) && KnownEntry(s1, n1) == KnownEntry(s2, n2)
    ensures s1 == s2 && n1 == n2
  {
    SlugHasNo(s1, EQ);
    SlugHasNo(s2, EQ);
    CutFirst("room " + s1, n1, "room " + s2, n2, EQ);
    assert ("room " + s1)[5..] == s1 && ("room " + s2)[5..] == s2;
  }

  lemma NotRoom(s1: string, s2: string)
    requires IsSlug(s1)
    ensures s1 != "room " + s2
  {
    assert ("room " + s2)[4] == ' ';
    assert |s1| > 4 ==> SlugChar(s1[4]);
  }

  lemma EntriesApart(s1: string, n1: string, m1: set<string>, s2: string, n2: string)
    requires IsSlug(s1) && IsSlug(s2)
    ensures WantEntry(s1, n1, m1) != KnownEntry(s2, n2)
  {
    SlugHasNo(s1, EQ);
    SlugHasNo(s2, EQ);
    if WantEntry(s1, n1, m1) == KnownEntry(s2, n2) {
      CutFirst(s1, n1 + [COLON] + Join(Listing(m1), [COMMA]), "room " + s2, n2, EQ);
      NotRoom(s1, s2);
      assert false;
    }
  }

  lemma EntriesPlain(x: Inputs)
    requires Plain(x)
    ensures forall e <- Entries(x) :: e != "" && SEMI !in e
  {
    forall slug | slug in x.want ensures SEMI !in WantEntry(slug, x.want[slug], x.members[slug]) {
      assert slug in x.members;
      JoinWithout(Listing(x.members[slug]), [COMMA], SEMI);
      SlugHasNo(slug, SEMI);
    }
    forall slug | slug in x.known ensures SEMI !in KnownEntry(slug, x.known[slug]) {
      SlugHasNo(slug, SEMI);
    }
  }

  /** Every entry of a is one of b's, so a's rooms are b's with the same names and members. */
  lemma EntriesWithin(a: Inputs, b: Inputs)
    requires Plain(a) && Plain(b) && Entries(a) <= Entries(b)
    ensures forall slug <- a.want ::
      slug in b.want && a.want[slug] == b.want[slug] && a.members[slug] == b.members[slug]
    ensures forall slug <- a.known :: slug in b.known && a.known[slug] == b.known[slug]
  {
    forall slug | slug in a.want
      ensures slug in b.want && a.want[slug] == b.want[slug] && a.members[slug] == b.members[slug]
    {
      var e := WantEntry(slug, a.want[slug], a.members[slug]);
      assert e in Entries(b);
      assert slug in a.members;
      if s: string :| s in b.known && e == KnownEntry(s, b.known[s]) {
        EntriesApart(slug, a.want[slug], a.members[slug], s, b.known[s]);
      } else {
        var s :| s in b.want && e == WantEntry(s, b.want[s], b.members[s]);
        assert s in b.members;
        WantEntryInjective(slug, a.want[slug], a.members[slug], s, b.want[s], b.members[s]);
      }
    }
    forall slug | slug in a.known ensures slug in b.known && a.known[slug] == b.known[slug] {
      var e := KnownEntry(slug, a.known[slug]);
      assert e in Entries(b);
      if s: string :| s in b.want && e == WantEntry(s, b.want[s], b.members[s]) {
        EntriesApart(s, b.want[s], b.members[s], slug, a.known[slug]);
      } else {
        var s :| s in b.known && e == KnownEntry(s, b.known[s]);
        KnownEntryInjective(slug, a.known[slug], s, b.known[s]);
      }
    }
  }

  /** Main result: with plain names, equal fingerprints are equal inputs, and the other way round. */
  lemma FingerprintIsExact(a: Inputs, b: Inputs)
    requires Plain(a) && Plain(b)
    ensures Print(a) == Print(b) <==> a == b
  {
    if Print(a) == Print(b) {
      EntriesPlain(a);
      EntriesPlain(b);
      JoinInjective(Listing(Entries(a)), Listing(Entries(b)), SEMI);
      assert forall e :: e in Entries(a) <==> e in Listing(Entries(a));
      assert Entries(a) == Entries(b);
      EntriesWithin(a, b);
      EntriesWithin(b, a);
      assert a.want == b.want && a.members == b.members && a.known == b.known;
    }
  }

  /** seen, sorted and joined: the loops over the wanted and the known rooms, in any order. Slugs keep the
      entries apart, so the list has no repeats. */
  method FingerprintOf(x: Inputs) returns (fp: string)
    requires Keyed(x)
    ensures fp == Print(x)
  {
    var seen: set<string> := {};
    var slugs := x.want.Keys;
    while slugs != {}
      invariant slugs <= x.want.Keys
      invariant seen == set slug | slug in x.want.Keys - slugs :: WantEntry(slug, x.want[slug], x.members[slug])
      decreases slugs
    {
      var slug :| slug in slugs;
      var members := Keys(x.members[slug]);
      ListingUnique(members, Listing(x.members[slug]), x.members[slug]);
      seen := seen + {slug + [EQ] + (x.want[slug] + [COLON] + Join(members, [COMMA]))};
      slugs := slugs - {slug};
    }
    slugs := x.known.Keys;
    ghost var wanted := seen;
    while slugs != {}
      invariant slugs <= x.known.Keys
      invariant seen == wanted + set slug | slug in x.known.Keys - slugs :: KnownEntry(slug, x.known[slug])
      decreases slugs
    {
      var slug :| slug in slugs;
      seen := seen + {"room " + slug + [EQ] + x.known[slug]};
      slugs := slugs - {slug};
    }
    assert seen == Entries(x);
    var list := Keys(seen);
    ListingUnique(list, Listing(seen), seen);
    fp := Join(list, [SEMI]);
  }
}
