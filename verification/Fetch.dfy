/** http.go: which messages a fetch reads from the archive, and in what order. */
module Fetch {
  import opened Text
  import opened Sorting
  import Fingerprint

  // ---- Archive ids ----

  const MAX_ID := 20

  predicate Digit(c: char) { '0' <= c <= '9' }

  predicate Digits(s: string) { forall i :: 0 <= i < |s| ==> Digit(s[i]) }

  method ArchiveID(id: string) returns (ok: bool)
    ensures ok <==> id != "" && |id| <= MAX_ID && Digits(id)
  {
    if id == "" || |id| > MAX_ID { return false; }
    for i := 0 to |id|
      invariant Digits(id[..i])
    {
      if id[i] < '0' || id[i] > '9' { return false; }
    }
    ok := true;
  }

  predicate Older(a: string, b: string) {
    if |a| != |b| then |a| < |b| else Fingerprint.Less(a, b)
  }

  lemma OlderIsAnOrder(a: string, b: string, c: string)
    ensures !Older(a, a) && !(Older(a, b) && Older(b, a))
    ensures Older(a, b) && Older(b, c) ==> Older(a, c)
    ensures a == b || Older(a, b) || Older(b, a)
  {
    Fingerprint.LessIrreflexive(a);
    Fingerprint.LessTotal(a, b);
    if Fingerprint.Less(a, b) && Fingerprint.Less(b, a) { Fingerprint.LessTransitive(a, b, a); }
    if Fingerprint.Less(a, b) && Fingerprint.Less(b, c) { Fingerprint.LessTransitive(a, b, c); }
  }

  function Value(s: string): nat
    requires Digits(s)
  {
    if s == "" then 0 else 10 * Value(s[..|s| - 1]) + (s[|s| - 1] - '0') as nat
  }

  function Power(n: nat): nat { if n == 0 then 1 else 10 * Power(n - 1) }

  lemma {:induction false} PowerGrows(m: nat, n: nat)
    requires m <= n
    ensures 1 <= Power(m) <= Power(n)
  {
    if n > 0 { if m < n { PowerGrows(m, n - 1); } else { PowerGrows(m - 1, n - 1); } }
  }

  lemma {:induction false} ValueBounds(s: string)
    requires Digits(s)
    ensures Value(s) < Power(|s|)
    ensures s != "" && s[0] != '0' ==> Value(s) >= Power(|s| - 1)
  {
    if s != "" {
      assert Digit(s[|s| - 1]);
      ValueBounds(s[..|s| - 1]);
    }
  }

  lemma {:induction false} LessAtTheEnd(a: string, b: string)
    requires |a| == |b| > 0
    ensures var n := |a| - 1;
      Fingerprint.Less(a, b) <==> Fingerprint.Less(a[..n], b[..n]) || (a[..n] == b[..n] && a[n] < b[n])
  {
    var n := |a| - 1;
    if n > 0 {
      LessAtTheEnd(a[1..], b[1..]);
      assert a[1..][..n - 1] == a[..n][1..] && b[1..][..n - 1] == b[..n][1..];
      assert a[..n] == [a[0]] + a[..n][1..] && b[..n] == [b[0]] + b[..n][1..];
    }
  }

  lemma {:induction false} SameLengthIsNumeric(a: string, b: string)
    requires Digits(a) && Digits(b) && |a| == |b|
    ensures Fingerprint.Less(a, b) <==> Value(a) < Value(b)
    ensures Value(a) == Value(b) ==> a == b
  {
    if a != "" {
      var n := |a| - 1;
      LessAtTheEnd(a, b);
      SameLengthIsNumeric(a[..n], b[..n]);
      Fingerprint.LessTotal(a[..n], b[..n]);
      assert Digit(a[n]) && Digit(b[n]);
      assert a == a[..n] + [a[n]] && b == b[..n] + [b[n]];
    }
  }

  /** Main result: on ids of one length, or without leading zeros, the comparison is the numbers' own. */
  lemma OlderIsNumeric(a: string, b: string)
    requires Digits(a) && Digits(b) && a != "" && b != ""
    requires |a| == |b| || (a[0] != '0' && b[0] != '0')
    ensures Older(a, b) <==> Value(a) < Value(b)
  {
    if |a| == |b| {
      SameLengthIsNumeric(a, b);
    } else {
      ValueBounds(a);
      ValueBounds(b);
      if |a| < |b| { PowerGrows(|a|, |b| - 1); } else { PowerGrows(|b|, |a| - 1); }
    }
  }

  /** The number without its leading zeros. */
  function Stripped(s: string): string { if s != "" && s[0] == '0' then Stripped(s[1..]) else s }

  lemma {:induction false} LeadingZero(s: string)
    requires Digits(s)
    ensures Digits("0" + s) && Value("0" + s) == Value(s)
  {
    if s == "" {
      assert "0"[..0] == "" && "0" + s == "0";
    } else {
      var n := |s| - 1;
      LeadingZero(s[..n]);
      assert ("0" + s)[..n + 1] == "0" + s[..n];
    }
  }

  lemma {:induction false} StrippedValue(s: string)
    requires Digits(s)
    ensures var t := Stripped(s); Digits(t) && Value(t) == Value(s) && (t == "" || t[0] != '0')
  {
    if s != "" && s[0] == '0' {
      StrippedValue(s[1..]);
      LeadingZero(s[1..]);
      assert s == "0" + s[1..];
    }
  }

  /** Main result: the numbers compare as the ids do without their leading zeros; so the comparison is the numbers' own
      exactly when dropping these zeros does not turn it round. */
  lemma OlderIsNumericExactly(a: string, b: string)
    requires Digits(a) && Digits(b)
    ensures Value(a) < Value(b) <==> Older(Stripped(a), Stripped(b))
    ensures (Older(a, b) <==> Value(a) < Value(b)) <==> (Older(a, b) <==> Older(Stripped(a), Stripped(b)))
  {
    StrippedValue(a);
    StrippedValue(b);
    var s, t := Stripped(a), Stripped(b);
    if s != "" && t != "" {
      OlderIsNumeric(s, t);
    } else {
      ValueBounds(s);
      ValueBounds(t);
      if t != "" { PowerGrows(0, |t| - 1); }
    }
  }

  /** As with these two. */
  lemma LeadingZeroIsNotNumeric()
    ensures Digits("007") && Digits("10") && !Older("007", "10") && Value("007") < Value("10")
  {
    assert "007"[..2] == "00" && "00"[..1] == "0" && "0"[..0] == "" && "10"[..1] == "1" && "1"[..0] == "";
    assert Value("0") == 0 && Value("00") == 0 && Value("1") == 1;
  }

  // ---- Archives and pages ----

  datatype Message = Message(
    id: string, msgId: string, from: string, to: string, room: string, nick: string, body: string, files: seq<string>,
    at: int, originId: string, roomSID: string, retract: string, displayed: string)

  predicate Ascending(s: seq<Message>) { forall i, j :: 0 <= i < j < |s| ==> Older(s[i].id, s[j].id) }

  /** What the archive holds after an id, and before one. */
  function Newer(s: seq<Message>, id: string): seq<Message> {
    if s == [] then []
    else Newer(s[..|s| - 1], id) + if Older(id, s[|s| - 1].id) then [s[|s| - 1]] else []
  }

  function Olders(s: seq<Message>, id: string): seq<Message> {
    if s == [] then []
    else Olders(s[..|s| - 1], id) + if Older(s[|s| - 1].id, id) then [s[|s| - 1]] else []
  }

  lemma {:induction false} NewerAppend(s: seq<Message>, t: seq<Message>, id: string)
    ensures Newer(s + t, id) == Newer(s, id) + Newer(t, id)
  {
    if t == [] {
      Unit(s);
      Unit(Newer(s, id));
    } else {
      var n := |t| - 1;
      NewerAppend(s, t[..n], id);
      assert (s + t)[..|s| + n] == s + t[..n];
      Assoc(Newer(s, id), Newer(t[..n], id), if Older(id, t[n].id) then [t[n]] else []);
    }
  }

  lemma {:induction false} OldersAppend(s: seq<Message>, t: seq<Message>, id: string)
    ensures Olders(s + t, id) == Olders(s, id) + Olders(t, id)
  {
    if t == [] {
      Unit(s);
      Unit(Olders(s, id));
    } else {
      var n := |t| - 1;
      OldersAppend(s, t[..n], id);
      assert (s + t)[..|s| + n] == s + t[..n];
      Assoc(Olders(s, id), Olders(t[..n], id), if Older(t[n].id, id) then [t[n]] else []);
    }
  }

  lemma {:induction false} AllNewer(s: seq<Message>, id: string)
    requires forall m <- s :: Older(id, m.id)
    ensures Newer(s, id) == s
  {
    if s != [] {
      var n := |s| - 1;
      AllNewerLast(s, id);
      AllNewer(s[..n], id);
      assert s == s[..n] + [s[n]];
    }
  }

  lemma AllNewerLast(s: seq<Message>, id: string)
    requires s != [] && forall m <- s :: Older(id, m.id)
    ensures forall m <- s[..|s| - 1] :: Older(id, m.id)
    ensures Newer(s, id) == Newer(s[..|s| - 1], id) + [s[|s| - 1]]
  {
    assert s[|s| - 1] in s;
  }

  lemma {:induction false} NoneNewer(s: seq<Message>, id: string)
    requires forall m <- s :: !Older(id, m.id)
    ensures Newer(s, id) == []
  {
    if s != [] { NoneNewer(s[..|s| - 1], id); assert s[|s| - 1] in s; }
  }

  lemma {:induction false} AllOlder(s: seq<Message>, id: string)
    requires forall m <- s :: Older(m.id, id)
    ensures Olders(s, id) == s
  {
    if s != [] {
      var n := |s| - 1;
      AllOlderLast(s, id);
      AllOlder(s[..n], id);
      assert s == s[..n] + [s[n]];
    }
  }

  lemma AllOlderLast(s: seq<Message>, id: string)
    requires s != [] && forall m <- s :: Older(m.id, id)
    ensures forall m <- s[..|s| - 1] :: Older(m.id, id)
    ensures Olders(s, id) == Olders(s[..|s| - 1], id) + [s[|s| - 1]]
  {
    assert s[|s| - 1] in s;
  }

  lemma {:induction false} NoneOlder(s: seq<Message>, id: string)
    requires forall m <- s :: !Older(m.id, id)
    ensures Olders(s, id) == []
  {
    if s != [] { NoneOlder(s[..|s| - 1], id); assert s[|s| - 1] in s; }
  }

  /** A sorted archive cut after one of its messages. */
  lemma {:induction false} CutAt(s: seq<Message>, k: nat)
    requires Ascending(s) && k < |s|
    ensures Newer(s, s[k].id) == s[k + 1..] && Olders(s, s[k].id) == s[..k]
  {
    var id := s[k].id;
    assert s == s[..k] + s[k..] && s == s[..k + 1] + s[k + 1..];
    forall m | m in s[..k + 1] ensures !Older(id, m.id) {
      var i :| 0 <= i <= k && s[i] == m;
      OlderIsAnOrder(id, m.id, id);
    }
    forall m | m in s[k..] ensures !Older(m.id, id) {
      var i :| 0 <= i < |s[k..]| && s[k..][i] == m;
      OlderIsAnOrder(id, m.id, id);
    }
    forall m | m in s[k + 1..] ensures Older(id, m.id) {
      var i :| 0 <= i < |s[k + 1..]| && s[k + 1..][i] == m;
    }
    NewerAppend(s[..k + 1], s[k + 1..], id);
    NoneNewer(s[..k + 1], id);
    AllNewer(s[k + 1..], id);
    OldersAppend(s[..k], s[k..], id);
    AllOlder(s[..k], id);
    NoneOlder(s[k..], id);
    Unit(s[..k]);
    Unit(s[k + 1..]);
  }

  lemma {:induction false} NewerTwice(s: seq<Message>, a: string, b: string)
    requires Older(a, b)
    ensures Newer(Newer(s, a), b) == Newer(s, b)
  {
    if s != [] {
      var n := |s| - 1;
      NewerTwice(s[..n], a, b);
      OlderIsAnOrder(a, b, s[n].id);
      var last := if Older(a, s[n].id) then [s[n]] else [];
      NewerAppend(Newer(s[..n], a), last, b);
      if Older(a, s[n].id) { assert [s[n]][..0] == []; Unit(if Older(b, s[n].id) then [s[n]] else []); }
    }
  }

  lemma AllBeforeLast(s: seq<Message>, part: seq<Message>)
    requires s != [] && Ascending(s) && forall m <- part :: m in s[..|s| - 1]
    ensures forall m <- part :: Older(m.id, s[|s| - 1].id)
  {
    forall m | m in part ensures Older(m.id, s[|s| - 1].id) {
      var i :| 0 <= i < |s| - 1 && s[..|s| - 1][i] == m;
    }
  }

  lemma {:induction false} NewerSorted(s: seq<Message>, id: string)
    requires Ascending(s)
    ensures Ascending(Newer(s, id)) && forall m <- Newer(s, id) :: m in s && Older(id, m.id)
  {
    if s != [] {
      var n := |s| - 1;
      NewerSorted(s[..n], id);
      AllBeforeLast(s, Newer(s[..n], id));
      assert s[n] in s && forall m <- s[..n] :: m in s;
    }
  }

  /** What comes after the last message of a first part is the rest. */
  lemma NewerContinues(s: seq<Message>, start: string, part: seq<Message>)
    requires Ascending(s) && part != [] && part <= Newer(s, start)
    ensures Newer(s, start) == part + Newer(s, part[|part| - 1].id)
  {
    var all, k := Newer(s, start), |part| - 1;
    NewerSorted(s, start);
    PrefixAt(part, all);
    assert all[k] in all;
    NewerTwice(s, start, part[k].id);
    CutAt(all, k);
  }

  lemma PrefixAt(part: seq<Message>, all: seq<Message>)
    requires part != [] && part <= all
    ensures all[|part| - 1] == part[|part| - 1] && all == part + all[|part|..]
  {
  }

  // ---- Paging forward ----

  const PAGE := 100
  const PAGES := 5

  datatype Page = Page(batch: seq<Message>, complete: bool)

  /** XEP-0059, section 2.2: the messages right after the id, as many as the server likes up to the most asked for; all
      that there are when it says so. */
  predicate IsPage(archive: seq<Message>, after: string, page: Page) {
    && |page.batch| <= PAGE && page.batch <= Newer(archive, after)
    && (page.complete ==> page.batch == Newer(archive, after))
  }

  /** The archive as each page sees it: in order, and only ever longer. */
  ghost predicate Grows(archives: seq<seq<Message>>) {
    && (forall s <- archives :: Ascending(s))
    && forall i :: 0 < i < |archives| ==> archives[i - 1] <= archives[i]
  }

  lemma NewerPrefix(s: seq<Message>, t: seq<Message>, id: string)
    requires s <= t
    ensures Newer(s, id) <= Newer(t, id)
  {
    assert t == s + t[|s|..];
    NewerAppend(s, t[|s|..], id);
  }

  lemma {:induction false} FirstIsLeast(archives: seq<seq<Message>>, p: nat, id: string)
    requires Grows(archives) && p < |archives|
    ensures Newer(archives[0], id) <= Newer(archives[p], id)
  {
    if p > 0 {
      FirstIsLeast(archives, p - 1, id);
      NewerPrefix(archives[p - 1], archives[p], id);
    }
  }

  /** The id a fetch starts after: the older of those the app knows that are archive ids, "" without any. */
  method StartAfter(ids: seq<string>) returns (after: string)
    ensures after == "" <==> forall id <- ids :: !IsArchiveID(id)
    ensures after != "" ==> after in ids && IsArchiveID(after) && forall id <- ids :: IsArchiveID(id) ==> !Older(id, after)
  {
    after := "";
    for i := 0 to |ids|
      invariant after == "" <==> forall id <- ids[..i] :: !IsArchiveID(id)
      invariant after != "" ==> after in ids[..i] && IsArchiveID(after)
      invariant after != "" ==> forall id <- ids[..i] :: IsArchiveID(id) ==> !Older(id, after)
    {
      assert ids[..i + 1] == ids[..i] + [ids[i]];
      assert ids[i] in ids[..i + 1];
      var ok := ArchiveID(ids[i]);
      if ok && (after == "" || Older(ids[i], after)) {
        forall id | id in ids[..i + 1] && IsArchiveID(id) ensures !Older(id, ids[i]) {
          OlderIsAnOrder(id, ids[i], after);
        }
        after := ids[i];
      }
    }
    assert ids[..|ids|] == ids;
  }

  predicate IsArchiveID(id: string) { id != "" && |id| <= MAX_ID && Digits(id) }

  /** Each answer is a page of the archive as it is then. */
  ghost predicate PagesOf(answers: (nat, string) -> Option<Page>, archives: seq<seq<Message>>)
    requires |archives| == PAGES
  {
    forall p: nat, after :: p < PAGES && answers(p, after).Some? ==> IsPage(archives[p], after, answers(p, after).value)
  }

  lemma PageAt(answers: (nat, string) -> Option<Page>, archives: seq<seq<Message>>, p: nat, after: string)
    requires |archives| == PAGES && PagesOf(answers, archives) && p < PAGES && answers(p, after).Some?
    ensures IsPage(archives[p], after, answers(p, after).value)
  {
  }

  /** The messages of the pages from this one on: up to one that is the last or empty, or the fifth; none when one fails. */
  function PagesFrom(answers: (nat, string) -> Option<Page>, page: nat, after: string): Option<seq<Message>>
    decreases PAGES - page
  {
    if page >= PAGES || after == "" then Some([])
    else
      match answers(page, after)
      case None => None
      case Some(p) =>
        if p.complete || p.batch == [] then Some(p.batch)
        else
          var more := PagesFrom(answers, page + 1, p.batch[|p.batch| - 1].id);
          if more.None? then None else Some(p.batch + more.value)
  }

  lemma PagesEnd(answers: (nat, string) -> Option<Page>, page: nat, after: string, all: seq<Message>)
    requires page < PAGES && after != ""
    ensures var r := Prepend(all, PagesFrom(answers, page, after));
      match answers(page, after)
      case None => r == None
      case Some(p) => p.complete || p.batch == [] ==> r == Some(all + p.batch)
  {
  }

  lemma PagesGoOn(answers: (nat, string) -> Option<Page>, page: nat, after: string, all: seq<Message>, batch: seq<Message>)
    requires page < PAGES && after != "" && answers(page, after) == Some(Page(batch, false)) && batch != []
    ensures Prepend(all, PagesFrom(answers, page, after)) == Prepend(all + batch, PagesFrom(answers, page + 1, batch[|batch| - 1].id))
  {
    PrependTwice(all, batch, PagesFrom(answers, page + 1, batch[|batch| - 1].id));
  }

  /** The loop over the pages. */
  method ReadPages(start: string, answers: (nat, string) -> Option<Page>) returns (msgs: Option<seq<Message>>)
    ensures msgs == PagesFrom(answers, 0, start)
  {
    var all: seq<Message>, after, page := [], start, 0;
    PrependTwice([], [], PagesFrom(answers, 0, start));
    while page < PAGES && after != ""
      invariant page <= PAGES && PagesFrom(answers, 0, start) == Prepend(all, PagesFrom(answers, page, after))
      decreases PAGES - page
    {
      var answer := answers(page, after);
      PagesEnd(answers, page, after, all);
      if answer.None? { return None; }
      var batch := answer.value.batch;
      if answer.value.complete || |batch| == 0 { return Some(all + batch); }
      PagesGoOn(answers, page, after, all, batch);
      all, after := all + batch, batch[|batch| - 1].id;
      page := page + 1;
    }
    Unit(all);
    msgs := Some(all);
  }

  function Prepend(all: seq<Message>, r: Option<seq<Message>>): Option<seq<Message>> { if r.None? then None else Some(all + r.value) }

  lemma PrependTwice(all: seq<Message>, batch: seq<Message>, r: Option<seq<Message>>)
    ensures Prepend(all, Prepend(batch, r)) == Prepend(all + batch, r) && Prepend([], r) == r
  {
    if r.Some? {
      Assoc(all, batch, r.value);
      Unit(r.value);
    }
  }

  /** The server had an empty page that it did not call the last. */
  ghost predicate EmptyPage(answers: (nat, string) -> Option<Page>) {
    exists p: nat, after :: p < PAGES && answers(p, after).Some? && answers(p, after).value == Page([], false)
  }

  /** A run right after the start; with `least` messages or more, when it is not all that was there. */
  ghost predicate RunOf(msgs: seq<Message>, archives: seq<seq<Message>>, start: string, least: int, answers: (nat, string) -> Option<Page>)
    requires |archives| == PAGES
  {
    && msgs <= Newer(archives[PAGES - 1], start) && Ascending(msgs)
    && (Newer(archives[0], start) <= msgs || |msgs| >= least || EmptyPage(answers))
  }

  lemma RunStill(msgs: seq<Message>, archives: seq<seq<Message>>, start: string, n: int, least: int, answers: (nat, string) -> Option<Page>)
    requires |archives| == PAGES && RunOf(msgs, archives, start, n, answers) && least <= n
    ensures RunOf(msgs, archives, start, least, answers)
  {
  }

  /** The last page read. */
  lemma LastPage(answers: (nat, string) -> Option<Page>, archives: seq<seq<Message>>, page: nat, start: string, all: seq<Message>,
                 answer: Page)
    requires |archives| == PAGES && Grows(archives) && PagesOf(answers, archives) && start != "" && page < PAGES
    requires all <= Newer(archives[if page == 0 then 0 else page - 1], start)
    requires answers(page, AfterOf(all, start)) == Some(answer)
    ensures all + answer.batch <= Newer(archives[page], start) && |answer.batch| <= PAGE
    ensures answer.batch != [] ==> answer.batch[|answer.batch| - 1].id != ""
    ensures answer.complete || answer.batch == [] ==> RunOf(all + answer.batch, archives, start, |all| + PAGES - page, answers)
  {
    PageAt(answers, archives, page, AfterOf(all, start));
    OnePage(archives, page, start, all, answer);
    AtTheEnd(archives, page, start, all + answer.batch);
    if !answer.complete && answer.batch == [] { assert answers(page, AfterOf(all, start)).value == Page([], false); }
  }

  /** One page, and then the others. */
  lemma PagesStep(answers: (nat, string) -> Option<Page>, page: nat, start: string, all: seq<Message>, answer: Page) returns (more: seq<Message>)
    requires page < PAGES && AfterOf(all, start) != "" && answers(page, AfterOf(all, start)) == Some(answer)
    requires !answer.complete && answer.batch != [] && PagesFrom(answers, page, AfterOf(all, start)).Some?
    ensures PagesFrom(answers, page + 1, AfterOf(all + answer.batch, start)) == Some(more)
    ensures all + PagesFrom(answers, page, AfterOf(all, start)).value == (all + answer.batch) + more
  {
    assert AfterOf(all + answer.batch, start) == answer.batch[|answer.batch| - 1].id;
    more := PagesFrom(answers, page + 1, AfterOf(all + answer.batch, start)).value;
    Assoc(all, answer.batch, more);
  }

  /** The pages from one on, after those read before. */
  lemma {:induction false} PagesContinue(answers: (nat, string) -> Option<Page>, archives: seq<seq<Message>>, page: nat, start: string,
                                         all: seq<Message>)
    requires |archives| == PAGES && Grows(archives) && PagesOf(answers, archives) && start != "" && page <= PAGES
    requires all <= Newer(archives[if page == 0 then 0 else page - 1], start) && |all| <= page * PAGE
    requires PagesFrom(answers, page, AfterOf(all, start)).Some? && AfterOf(all, start) != ""
    ensures RunOf(all + PagesFrom(answers, page, AfterOf(all, start)).value, archives, start, |all| + PAGES - page, answers)
    ensures |all + PagesFrom(answers, page, AfterOf(all, start)).value| <= PAGES * PAGE
    decreases PAGES - page
  {
    if page == PAGES {
      Unit(all);
      AtTheEnd(archives, PAGES - 1, start, all);
    } else {
      var answer := answers(page, AfterOf(all, start)).value;
      LastPage(answers, archives, page, start, all, answer);
      if !answer.complete && answer.batch != [] {
        var longer := all + answer.batch;
        assert AfterOf(longer, start) == answer.batch[|answer.batch| - 1].id;
        var more := PagesStep(answers, page, start, all, answer);
        PagesContinue(answers, archives, page + 1, start, longer);
        RunStill(longer + more, archives, start, |longer| + PAGES - (page + 1), |all| + PAGES - page, answers);
      }
    }
  }

  /** Main result: what the pages give is one contiguous, ordered run of the archive right after the start, without
      gaps or copies; and it ends before the end of the archive as it was only when five pages, none empty, were not
      enough, or the server had an empty page. */
  lemma PagesAreARun(start: string, answers: (nat, string) -> Option<Page>, archives: seq<seq<Message>>)
    requires start != "" && |archives| == PAGES && Grows(archives) && PagesOf(answers, archives)
    requires PagesFrom(answers, 0, start).Some?
    ensures var msgs := PagesFrom(answers, 0, start).value;
      && msgs <= Newer(archives[PAGES - 1], start) && Ascending(msgs) && |msgs| <= 500
      && (Newer(archives[0], start) <= msgs || |msgs| >= 5 || EmptyPage(answers))
  {
    Unit(PagesFrom(answers, 0, start).value);
    PagesContinue(answers, archives, 0, start, []);
  }

  /** Where the next page starts. */
  function AfterOf(all: seq<Message>, start: string): string { if all == [] then start else all[|all| - 1].id }

  /** One page goes on where the ones before it stopped. */
  lemma OnePage(archives: seq<seq<Message>>, page: nat, start: string, all: seq<Message>, answer: Page)
    requires page < |archives| && Grows(archives) && start != ""
    requires all <= Newer(archives[if page == 0 then 0 else page - 1], start)
    requires IsPage(archives[page], AfterOf(all, start), answer)
    ensures all + answer.batch <= Newer(archives[page], start)
    ensures answer.complete ==> Newer(archives[0], start) <= all + answer.batch
    ensures |answer.batch| <= PAGE
    ensures answer.batch != [] ==> answer.batch[|answer.batch| - 1].id != ""
  {
    if page > 0 { NewerPrefix(archives[page - 1], archives[page], start); }
    var newer := Newer(archives[page], start);
    var rest := Newer(archives[page], AfterOf(all, start));
    FirstIsLeast(archives, page, start);
    if all != [] { NewerContinues(archives[page], start, all); } else { Unit(newer); }
    NextPart(newer, all, rest, answer.batch);
    PageHasIds(archives[page], AfterOf(all, start), answer);
  }

  lemma PageHasIds(archive: seq<Message>, after: string, answer: Page)
    requires IsPage(archive, after, answer) && Ascending(archive)
    ensures answer.batch != [] ==> answer.batch[|answer.batch| - 1].id != ""
  {
    var rest := Newer(archive, after);
    if answer.batch != [] {
      NewerSorted(archive, after);
      var last := rest[|answer.batch| - 1];
      assert answer.batch[|answer.batch| - 1] == last && last in rest;
    }
  }

  lemma NextPart(whole: seq<Message>, all: seq<Message>, rest: seq<Message>, batch: seq<Message>)
    requires whole == all + rest && batch <= rest
    ensures all + batch <= whole && (batch == rest ==> all + batch == whole)
  {
  }

  lemma AtTheEnd(archives: seq<seq<Message>>, page: nat, start: string, all: seq<Message>)
    requires page < |archives| && Grows(archives) && all <= Newer(archives[page], start)
    ensures all <= Newer(archives[|archives| - 1], start) && Ascending(all)
  {
    StillPrefix(archives, page, start, all);
    NewerSorted(archives[page], start);
  }

  lemma {:induction false} StillPrefix(archives: seq<seq<Message>>, p: nat, start: string, all: seq<Message>)
    requires Grows(archives) && p < |archives| && all <= Newer(archives[p], start)
    ensures all <= Newer(archives[|archives| - 1], start)
    decreases |archives| - p
  {
    if p < |archives| - 1 {
      NewerPrefix(archives[p], archives[p + 1], start);
      StillPrefix(archives, p + 1, start, all);
    }
  }

  // ---- The first fetch ----

  const BACK_PAGE := 50
  const BACK_PAGES := 4
  const FIRST_CHATS := 100
  const PER_CHAT := 30

  predicate IsSuffix(t: seq<Message>, s: seq<Message>) { |t| <= |s| && t == s[|s| - |t|..] }

  /** The messages right before the id, or the last ones without any. */
  predicate IsPageBefore(archive: seq<Message>, before: string, page: Page) {
    var older := if before == "" then archive else Olders(archive, before);
    |page.batch| <= BACK_PAGE && IsSuffix(page.batch, older) && (page.complete ==> page.batch == older)
  }

  /** There is something to show: a text or a file. */
  predicate Shows(m: Message, blank: string -> bool) { !blank(m.body) || m.files != [] }

  function Shown(s: seq<Message>, blank: string -> bool): nat {
    if s == [] then 0 else (if Shows(s[0], blank) then 1 else 0) + Shown(s[1..], blank)
  }

  lemma {:induction false} ShownAppend(s: seq<Message>, t: seq<Message>, blank: string -> bool)
    ensures Shown(s + t, blank) == Shown(s, blank) + Shown(t, blank)
  {
    if s == [] {
      assert s + t == t;
    } else {
      assert (s + t)[1..] == s[1..] + t;
      ShownAppend(s[1..], t, blank);
    }
  }

  /** Where the messages with a text or a file are. */
  function ShownPlaces(s: seq<Message>, blank: string -> bool): set<nat> {
    set i: nat | i < |s| && (!blank(s[i].body) || s[i].files != [])
  }

  lemma ShownOne(m: Message, blank: string -> bool)
    ensures Shown([m], blank) == if !blank(m.body) || m.files != [] then 1 else 0
  {
    assert [m][1..] == [];
  }

  lemma PlacesMore(s: seq<Message>, m: Message, blank: string -> bool)
    ensures |ShownPlaces(s + [m], blank)| == |ShownPlaces(s, blank)| + if !blank(m.body) || m.files != [] then 1 else 0
  {
    assert ShownPlaces(s + [m], blank) == ShownPlaces(s, blank) + if !blank(m.body) || m.files != [] then {|s|} else {};
  }

  lemma {:induction false} ShownAre(s: seq<Message>, blank: string -> bool)
    ensures Shown(s, blank) == |ShownPlaces(s, blank)|
  {
    if s != [] {
      var n := |s| - 1;
      ShownAre(s[..n], blank);
      ShownAppend(s[..n], [s[n]], blank);
      ShownOne(s[n], blank);
      PlacesMore(s[..n], s[n], blank);
      assert s == s[..n] + [s[n]];
    }
  }

  method CountShown(batch: seq<Message>, blank: string -> bool) returns (n: nat)
    ensures n == Shown(batch, blank)
  {
    n := 0;
    for i := 0 to |batch|
      invariant n + Shown(batch[i..], blank) == Shown(batch, blank)
    {
      assert batch[i..][1..] == batch[i + 1..];
      if Shows(batch[i], blank) { n := n + 1; }
    }
  }

  lemma {:induction false} StartsWithFirst(archives: seq<seq<Message>>, p: nat)
    requires Grows(archives) && p < |archives|
    ensures archives[0] <= archives[p]
  {
    if p > 0 { StartsWithFirst(archives, p - 1); }
  }

  /** One page further back joins what was read before. */
  lemma OnePageBack(archives: seq<seq<Message>>, page: nat, chat: seq<Message>, answer: Page)
    requires page < |archives| && Grows(archives) && IsSuffix(chat, archives[0]) && (chat == [] ==> page == 0)
    requires chat != [] ==> chat[0].id != ""
    requires IsPageBefore(archives[page], if chat == [] then "" else chat[0].id, answer)
    ensures IsSuffix(answer.batch + chat, archives[0])
    ensures answer.complete ==> answer.batch + chat == archives[0]
  {
    if chat == [] {
      Unit(answer.batch);
    } else {
      var k := |archives[0]| - |chat|;
      BeforeChat(archives, page, chat, k);
      JoinSuffix(archives[0], k, answer.batch);
    }
  }

  /** What is older than the first message of a newest part is the rest of the archive. */
  lemma BeforeChat(archives: seq<seq<Message>>, page: nat, chat: seq<Message>, k: nat)
    requires page < |archives| && Grows(archives) && IsSuffix(chat, archives[0]) && chat != []
    requires k == |archives[0]| - |chat|
    ensures Olders(archives[page], chat[0].id) == archives[0][..k] && archives[0][k..] == chat
    ensures archives[0] == archives[0][..k] + chat
  {
    StartsWithFirst(archives, page);
    assert chat[0] == archives[0][k] == archives[page][k];
    CutAt(archives[page], k);
    assert archives[page][..k] == archives[0][..k];
  }

  lemma JoinSuffix(s: seq<Message>, k: nat, t: seq<Message>)
    requires k <= |s| && IsSuffix(t, s[..k])
    ensures IsSuffix(t + s[k..], s)
  {
    assert s[|s| - (|t| + |s| - k)..] == t + s[k..];
  }

  /** The messages of the pages back from this one on, in order: up to one that is the last or empty, the fourth, or the one
      with which there is enough to show. */
  function ChatFrom(answers: (nat, string) -> Option<Page>, blank: string -> bool, page: nat, before: string, shown: nat): Option<seq<Message>>
    decreases BACK_PAGES - page
  {
    if page >= BACK_PAGES || shown >= PER_CHAT then Some([])
    else
      match answers(page, before)
      case None => None
      case Some(p) =>
        if p.complete || p.batch == [] then Some(p.batch)
        else
          var more := ChatFrom(answers, blank, page + 1, p.batch[0].id, shown + Shown(p.batch, blank));
          if more.None? then None else Some(more.value + p.batch)
  }

  function Append(r: Option<seq<Message>>, all: seq<Message>): Option<seq<Message>> { if r.None? then None else Some(r.value + all) }

  lemma AppendTwice(r: Option<seq<Message>>, batch: seq<Message>, all: seq<Message>)
    ensures Append(Append(r, batch), all) == Append(r, batch + all) && Append(r, []) == r
  {
    if r.Some? {
      Assoc(r.value, batch, all);
      Unit(r.value);
    }
  }

  lemma BackEnds(answers: (nat, string) -> Option<Page>, blank: string -> bool, page: nat, before: string, shown: nat, all: seq<Message>)
    requires page < BACK_PAGES && shown < PER_CHAT
    ensures var r := Append(ChatFrom(answers, blank, page, before, shown), all);
      match answers(page, before)
      case None => r == None
      case Some(p) => p.complete || p.batch == [] ==> r == Some(p.batch + all)
  {
  }

  lemma BackGoesOn(answers: (nat, string) -> Option<Page>, blank: string -> bool, page: nat, before: string, shown: nat, all: seq<Message>,
                   batch: seq<Message>)
    requires page < BACK_PAGES && shown < PER_CHAT && answers(page, before) == Some(Page(batch, false)) && batch != []
    ensures Append(ChatFrom(answers, blank, page, before, shown), all)
            == Append(ChatFrom(answers, blank, page + 1, batch[0].id, shown + Shown(batch, blank)), batch + all)
  {
    AppendTwice(ChatFrom(answers, blank, page + 1, batch[0].id, shown + Shown(batch, blank)), batch, all);
  }

  /** One page back: the whole result when it was the last, else what is read so far. */
  method ReadBack(answers: (nat, string) -> Option<Page>, blank: string -> bool, page: nat, before: string, shown: nat, all: seq<Message>)
    returns (last: bool, chat: Option<seq<Message>>, before': string, shown': nat, all': seq<Message>)
    requires page < BACK_PAGES && shown < PER_CHAT
    ensures last ==> chat == Append(ChatFrom(answers, blank, page, before, shown), all)
    ensures !last ==>
              Append(ChatFrom(answers, blank, page, before, shown), all) == Append(ChatFrom(answers, blank, page + 1, before', shown'), all')
  {
    var answer := answers(page, before);
    BackEnds(answers, blank, page, before, shown, all);
    last, chat, before', shown', all' := true, None, before, shown, all;
    if answer.None? { return; }
    var batch := answer.value.batch;
    var n := CountShown(batch, blank);
    if answer.value.complete || |batch| == 0 {
      chat := Some(batch + all);
    } else {
      BackGoesOn(answers, blank, page, before, shown, all, batch);
      last, before', shown', all' := false, batch[0].id, shown + n, batch + all;
    }
  }

  /** One chat, page after page back. */
  method ReadChat(answers: (nat, string) -> Option<Page>, blank: string -> bool) returns (chat: Option<seq<Message>>)
    ensures chat == ChatFrom(answers, blank, 0, "", 0)
  {
    var all: seq<Message>, before, shown: nat, page := [], "", 0, 0;
    ghost var whole := ChatFrom(answers, blank, 0, "", 0);
    AppendTwice(whole, [], []);
    while page < BACK_PAGES && shown < PER_CHAT
      invariant page <= BACK_PAGES && whole == Append(ChatFrom(answers, blank, page, before, shown), all)
      decreases BACK_PAGES - page
    {
      var last;
      last, chat, before, shown, all := ReadBack(answers, blank, page, before, shown, all);
      if last { return; }
      page := page + 1;
    }
    Unit(all);
    chat := Some(all);
  }

  ghost predicate EmptyBack(answers: (nat, string) -> Option<Page>) {
    exists p: nat, before :: p < BACK_PAGES && answers(p, before).Some? && answers(p, before).value == Page([], false)
  }

  /** Where the next page back ends. */
  function BeforeOf(all: seq<Message>): string { if all == [] then "" else all[0].id }

  /** The answers are pages of the archive as it is then. */
  ghost predicate PagesBack(answers: (nat, string) -> Option<Page>, archives: seq<seq<Message>>) {
    && |archives| == BACK_PAGES && Grows(archives) && (forall m <- archives[0] :: m.id != "")
    && forall p: nat, before :: p < BACK_PAGES && answers(p, before).Some? ==> IsPageBefore(archives[p], before, answers(p, before).value)
  }

  /** It is a newest part of the archive; with `least` messages or more, when it is not all nor enough to show. */
  ghost predicate PartOf(chat: seq<Message>, archive: seq<Message>, blank: string -> bool, least: int, answers: (nat, string) -> Option<Page>) {
    IsSuffix(chat, archive) && (chat == archive || Shown(chat, blank) >= PER_CHAT || |chat| >= least || EmptyBack(answers))
  }

  /** The last page read. */
  lemma LastBack(answers: (nat, string) -> Option<Page>, blank: string -> bool, archives: seq<seq<Message>>, page: nat, all: seq<Message>,
                 answer: Page)
    requires PagesBack(answers, archives) && page < BACK_PAGES && IsSuffix(all, archives[0]) && (all == [] ==> page == 0)
    requires answers(page, BeforeOf(all)) == Some(answer)
    ensures IsSuffix(answer.batch + all, archives[0])
    ensures answer.complete || answer.batch == [] ==> PartOf(answer.batch + all, archives[0], blank, |all| + BACK_PAGES - page, answers)
  {
    SuffixIds(all, archives[0]);
    OnePageBack(archives, page, all, answer);
    if !answer.complete && answer.batch == [] { assert answers(page, BeforeOf(all)).value == Page([], false); }
  }

  lemma {:induction false} ChatContinues(answers: (nat, string) -> Option<Page>, blank: string -> bool, archives: seq<seq<Message>>, page: nat,
                                         all: seq<Message>)
    requires PagesBack(answers, archives) && page <= BACK_PAGES
    requires IsSuffix(all, archives[0]) && (all == [] ==> page == 0)
    requires ChatFrom(answers, blank, page, BeforeOf(all), Shown(all, blank)).Some?
    ensures PartOf(ChatFrom(answers, blank, page, BeforeOf(all), Shown(all, blank)).value + all, archives[0], blank,
                   |all| + BACK_PAGES - page, answers)
    decreases BACK_PAGES - page
  {
    if page == BACK_PAGES || Shown(all, blank) >= PER_CHAT {
      Unit(all);
    } else {
      var answer := answers(page, BeforeOf(all)).value;
      LastBack(answers, blank, archives, page, all, answer);
      if !answer.complete && answer.batch != [] {
        var more := ChatStep(answers, blank, page, all, answer);
        ChatContinues(answers, blank, archives, page + 1, answer.batch + all);
        PartStill(more + (answer.batch + all), archives[0], blank, |answer.batch + all| + BACK_PAGES - (page + 1),
                  |all| + BACK_PAGES - page, answers);
      }
    }
  }

  /** One page, and then the others. */
  lemma ChatStep(answers: (nat, string) -> Option<Page>, blank: string -> bool, page: nat, all: seq<Message>, answer: Page)
    returns (more: seq<Message>)
    requires page < BACK_PAGES && Shown(all, blank) < PER_CHAT && answers(page, BeforeOf(all)) == Some(answer)
    requires !answer.complete && answer.batch != []
    requires ChatFrom(answers, blank, page, BeforeOf(all), Shown(all, blank)).Some?
    ensures ChatFrom(answers, blank, page + 1, BeforeOf(answer.batch + all), Shown(answer.batch + all, blank)) == Some(more)
    ensures ChatFrom(answers, blank, page, BeforeOf(all), Shown(all, blank)).value + all == more + (answer.batch + all)
  {
    ShownAppend(answer.batch, all, blank);
    assert BeforeOf(answer.batch + all) == answer.batch[0].id;
    more := ChatFrom(answers, blank, page + 1, BeforeOf(answer.batch + all), Shown(answer.batch + all, blank)).value;
    Assoc(more, answer.batch, all);
  }

  lemma PartStill(chat: seq<Message>, archive: seq<Message>, blank: string -> bool, n: int, least: int, answers: (nat, string) -> Option<Page>)
    requires PartOf(chat, archive, blank, n, answers) && least <= n
    ensures PartOf(chat, archive, blank, least, answers)
  {
  }

  /** Main result: a chat is read as one contiguous newest part of its archive, as that was when the first page was read;
      and this is all of it, unless it has thirty messages to show, or took four pages, none empty, or the server had an
      empty page. */
  lemma ChatIsANewestPart(answers: (nat, string) -> Option<Page>, blank: string -> bool, archives: seq<seq<Message>>)
    requires PagesBack(answers, archives) && ChatFrom(answers, blank, 0, "", 0).Some?
    ensures NewestPart(ChatFrom(answers, blank, 0, "", 0).value, archives, blank, answers)
  {
    Unit(ChatFrom(answers, blank, 0, "", 0).value);
    ShownAre(ChatFrom(answers, blank, 0, "", 0).value, blank);
    ChatContinues(answers, blank, archives, 0, []);
  }

  lemma SuffixIds(t: seq<Message>, s: seq<Message>)
    requires IsSuffix(t, s) && forall m <- s :: m.id != ""
    ensures t != [] ==> t[0].id != ""
  {
    if t != [] { assert t[0] in s; }
  }

  function Flat(chats: seq<seq<Message>>): seq<Message> {
    if chats == [] then [] else Flat(chats[..|chats| - 1]) + chats[|chats| - 1]
  }

  function OlderMessage(a: Message, b: Message): bool { Older(a.id, b.id) }

  predicate InOrder(s: seq<Message>) { forall i, j :: 0 <= i < j < |s| ==> !Older(s[j].id, s[i].id) }

  lemma {:induction false} InsertInOrder(s: seq<Message>, x: Message)
    requires InOrder(s)
    ensures InOrder(Insert(OlderMessage, s, x))
    decreases |s|
  {
    if s != [] {
      var n := |s| - 1;
      if !OlderMessage(x, s[n]) {
        forall i | 0 <= i < |s| ensures !Older(x.id, s[i].id) {
          assert i < n ==> !Older(s[n].id, s[i].id);
          OlderIsAnOrder(x.id, s[i].id, s[n].id);
          OlderIsAnOrder(s[i].id, s[n].id, x.id);
        }
      } else {
        InsertInOrder(s[..n], x);
        var r := Insert(OlderMessage, s[..n], x);
        forall i | 0 <= i < |r| ensures !Older(s[n].id, r[i].id) {
          assert r[i] in multiset(r);
          OlderIsAnOrder(x.id, s[n].id, x.id);
          assert r[i] == x || r[i] in s[..n];
        }
      }
    }
  }

  lemma {:induction false} SortedInOrder(s: seq<Message>)
    ensures InOrder(Sorted(OlderMessage, s))
    decreases |s|
  {
    if s != [] {
      SortedInOrder(s[..|s| - 1]);
      InsertInOrder(Sorted(OlderMessage, s[..|s| - 1]), s[|s| - 1]);
    }
  }

  /** As in a person's archive, where every id is one message's. */
  predicate DistinctIds(s: seq<Message>) { forall i, j :: 0 <= i < j < |s| ==> s[i].id != s[j].id }

  lemma {:induction false} AtMostOnce(s: seq<Message>, m: Message)
    requires DistinctIds(s)
    ensures multiset(s)[m] <= 1
  {
    if s != [] {
      var n := |s| - 1;
      assert s == s[..n] + [s[n]];
      AtMostOnce(s[..n], m);
      assert s[n] !in s[..n];
    }
  }

  lemma TwiceIsTwo(s: seq<Message>, i: nat, j: nat)
    requires i < j < |s| && s[i] == s[j]
    ensures multiset(s)[s[i]] >= 2
  {
    assert s == s[..j] + s[j..];
    assert s[i] in multiset(s[..j]) && s[j] in multiset(s[j..]);
  }

  /** Sorted messages of distinct ids are strictly in order. */
  lemma DistinctAscends(s: seq<Message>, all: seq<Message>)
    requires InOrder(s) && multiset(s) == multiset(all) && DistinctIds(all)
    ensures Ascending(s)
  {
    SameElements(s, all);
    forall i, j | 0 <= i < j < |s| ensures Older(s[i].id, s[j].id) {
      if s[i].id == s[j].id {
        assert s[i] in s && s[j] in s;
        var k :| 0 <= k < |all| && all[k] == s[i];
        var l :| 0 <= l < |all| && all[l] == s[j];
        TwiceIsTwo(s, i, j);
        AtMostOnce(all, s[i]);
      }
      OlderIsAnOrder(s[i].id, s[j].id, s[i].id);
    }
  }

  /** One contiguous newest part of the archive, with enough to show unless the pages or the archive ended. */
  ghost predicate NewestPart(chat: seq<Message>, archives: seq<seq<Message>>, blank: string -> bool, answers: (nat, string) -> Option<Page>) {
    && archives != [] && IsSuffix(chat, archives[0])
    && (chat == archives[0] || |ShownPlaces(chat, blank)| >= 30 || |chat| >= 4 || EmptyBack(answers))
  }

  /** The first n chats, each as it is read; none when one fails. */
  function FirstChats(peers: seq<string>, answers: string -> (nat, string) -> Option<Page>, blank: string -> bool, n: nat)
    : Option<seq<seq<Message>>>
    requires n <= |peers|
  {
    if n == 0 then Some([])
    else
      var before := FirstChats(peers, answers, blank, n - 1);
      var chat := ChatFrom(answers(peers[n - 1]), blank, 0, "", 0);
      if before.None? || chat.None? then None else Some(before.value + [chat.value])
  }

  function ChatCount(peers: seq<string>): (n: nat)
    ensures n <= |peers|
  {
    if |peers| < FIRST_CHATS then |peers| else FIRST_CHATS
  }

  /** The first fetch: the chats one after the other, then sorted. */
  method EveryChat(peers: seq<string>, answers: string -> (nat, string) -> Option<Page>, blank: string -> bool)
    returns (msgs: Option<seq<Message>>)
    ensures var chats := FirstChats(peers, answers, blank, ChatCount(peers));
      msgs == if chats.None? then None else Some(Sorted(OlderMessage, Flat(chats.value)))
  {
    var all: seq<Message>, i := [], 0;
    ghost var chats: seq<seq<Message>> := [];
    while i < |peers| && i != FIRST_CHATS
      invariant i <= ChatCount(peers) && FirstChats(peers, answers, blank, i) == Some(chats) && all == Flat(chats)
    {
      var chat := ReadChat(answers(peers[i]), blank);
      if chat.None? {
        NoChats(peers, answers, blank, i + 1, ChatCount(peers));
        return None;
      }
      FlatMore(chats, chat.value);
      all, chats := all + chat.value, chats + [chat.value];
      i := i + 1;
    }
    var a := new Message[|all|](k requires 0 <= k < |all| => all[k]);
    assert a[..] == all;
    Sort(OlderMessage, a);
    msgs := Some(a[..]);
  }

  lemma FlatMore(chats: seq<seq<Message>>, chat: seq<Message>)
    ensures Flat(chats + [chat]) == Flat(chats) + chat
  {
    assert (chats + [chat])[..|chats|] == chats;
  }

  lemma {:induction false} NoChats(peers: seq<string>, answers: string -> (nat, string) -> Option<Page>, blank: string -> bool, i: nat, n: nat)
    requires i <= n <= |peers| && FirstChats(peers, answers, blank, i).None?
    ensures FirstChats(peers, answers, blank, n).None?
    decreases n
  {
    if i < n { NoChats(peers, answers, blank, i, n - 1); }
  }

  /** Every chat's answers are pages of its archive. */
  ghost predicate AllBack(peers: seq<string>, answers: string -> (nat, string) -> Option<Page>, archives: string -> seq<seq<Message>>) {
    forall i :: 0 <= i < |peers| ==> PagesBack(answers(peers[i]), archives(peers[i]))
  }

  ghost predicate PartAt(chats: seq<seq<Message>>, i: nat, peers: seq<string>, answers: string -> (nat, string) -> Option<Page>,
                         blank: string -> bool, archives: string -> seq<seq<Message>>)
    requires i < |chats| && i < |peers|
  {
    NewestPart(chats[i], archives(peers[i]), blank, answers(peers[i]))
  }

  lemma {:induction false} ChatsCount(peers: seq<string>, answers: string -> (nat, string) -> Option<Page>, blank: string -> bool, n: nat)
    requires n <= |peers| && FirstChats(peers, answers, blank, n).Some?
    ensures |FirstChats(peers, answers, blank, n).value| == n
  {
    if n > 0 { ChatsCount(peers, answers, blank, n - 1); }
  }

  lemma {:induction false} ChatIs(peers: seq<string>, answers: string -> (nat, string) -> Option<Page>, blank: string -> bool, n: nat, i: nat)
    requires i < n <= |peers| && FirstChats(peers, answers, blank, n).Some?
    ensures |FirstChats(peers, answers, blank, n).value| == n
    ensures Some(FirstChats(peers, answers, blank, n).value[i]) == ChatFrom(answers(peers[i]), blank, 0, "", 0)
    decreases n
  {
    ChatsCount(peers, answers, blank, n);
    ChatsCount(peers, answers, blank, n - 1);
    if i < n - 1 { ChatIs(peers, answers, blank, n - 1, i); }
  }

  lemma FirstChatsAre(peers: seq<string>, answers: string -> (nat, string) -> Option<Page>, blank: string -> bool,
                      archives: string -> seq<seq<Message>>, n: nat, i: nat)
    requires i < n <= |peers| && FirstChats(peers, answers, blank, n).Some? && AllBack(peers, answers, archives)
    ensures |FirstChats(peers, answers, blank, n).value| == n
    ensures PartAt(FirstChats(peers, answers, blank, n).value, i, peers, answers, blank, archives)
  {
    ChatIs(peers, answers, blank, n, i);
    ChatIsANewestPart(answers(peers[i]), blank, archives(peers[i]));
  }

  /** Main result: the first fetch is, in the archive's order, exactly the messages of one contiguous newest part of
      each of the first hundred chats; strictly ascending when no id is there twice. */
  lemma FirstFetchIs(peers: seq<string>, answers: string -> (nat, string) -> Option<Page>, blank: string -> bool,
                     archives: string -> seq<seq<Message>>)
    requires FirstChats(peers, answers, blank, ChatCount(peers)).Some?
    requires AllBack(peers, answers, archives)
    ensures var chats := FirstChats(peers, answers, blank, ChatCount(peers)).value;
      var msgs := Sorted(OlderMessage, Flat(chats));
      && |chats| == (if |peers| < 100 then |peers| else 100)
      && (forall i :: 0 <= i < |chats| ==> PartAt(chats, i, peers, answers, blank, archives))
      && InOrder(msgs) && multiset(msgs) == multiset(Flat(chats)) && (DistinctIds(Flat(chats)) ==> Ascending(msgs))
  {
    var chats := FirstChats(peers, answers, blank, ChatCount(peers)).value;
    ChatsCount(peers, answers, blank, ChatCount(peers));
    forall i | 0 <= i < |chats| ensures PartAt(chats, i, peers, answers, blank, archives) {
      FirstChatsAre(peers, answers, blank, archives, ChatCount(peers), i);
    }
    SortedInOrder(Flat(chats));
    if DistinctIds(Flat(chats)) { DistinctAscends(Sorted(OlderMessage, Flat(chats)), Flat(chats)); }
  }
}
