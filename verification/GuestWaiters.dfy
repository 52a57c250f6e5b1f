/** guest.go's waiters and guest_page.go's long polls: a page waiting for a message is never left asleep. */
module GuestWaiters {
  import opened Text

  const GUEST_POLLS := 3
  const NODE_PREFIX := "guest:"

  /** A channel that is only ever closed, by the order it was made in. */
  type Chan = nat

  type Waiters = map<string, seq<Chan>>

  function List(m: Waiters, id: string): seq<Chan> { if id in m then m[id] else [] }

  /** strings.TrimPrefix */
  function IdOf(node: string): string { if NODE_PREFIX <= node then node[|NODE_PREFIX|..] else node }

  function Without(list: seq<Chan>, c: Chan): (r: seq<Chan>)
    ensures forall x <- r :: x in list
    ensures |r| <= |list|
  {
    if list == [] then []
    else if list[0] == c then list[1..]
    else [list[0]] + Without(list[1..], c)
  }

  predicate Distinct(list: seq<Chan>) {
    list == [] || (list[0] !in list[1..] && Distinct(list[1..]))
  }

  lemma {:induction false} WithoutIsGone(list: seq<Chan>, c: Chan)
    requires Distinct(list)
    ensures Distinct(Without(list, c)) && c !in Without(list, c)
    ensures forall x <- list :: x != c ==> x in Without(list, c)
  {
    if list != [] && list[0] != c {
      WithoutIsGone(list[1..], c);
      var r := Without(list[1..], c);
      assert ([list[0]] + r)[1..] == r;
    }
  }

  lemma {:induction false} DistinctMore(list: seq<Chan>, c: Chan)
    requires Distinct(list) && c !in list
    ensures Distinct(list + [c])
  {
    if list != [] {
      DistinctMore(list[1..], c);
      assert (list + [c])[1..] == list[1..] + [c];
    }
  }

  // ---- The three operations ----

  function Waited(m: Waiters, id: string, c: Chan): Waiters { m[id := List(m, id) + [c]] }

  function Dropped(m: Waiters, id: string, c: Chan): Waiters {
    if Without(List(m, id), c) == [] then m - {id} else m[id := Without(List(m, id), c)]
  }

  function Elements(list: seq<Chan>): set<Chan> { set c | c in list }

  /** At most three waiters a guest, no empty list, every channel once, made before and not closed yet. */
  ghost predicate Ok(m: Waiters, closed: set<Chan>, next: Chan) {
    && (forall id <- m :: 0 < |m[id]| <= GUEST_POLLS && Distinct(m[id]))
    && (forall id <- m :: forall c <- m[id] :: c < next && c !in closed)
    && (forall id, other, c :: id in m && other in m && c in m[id] && c in m[other] ==> id == other)
    && (forall c <- closed :: c < next)
  }

  lemma WaitedOk(m: Waiters, closed: set<Chan>, next: Chan, id: string)
    requires Ok(m, closed, next) && |List(m, id)| < GUEST_POLLS
    ensures Ok(Waited(m, id, next), closed, next + 1)
  {
    assert next !in List(m, id) && next !in closed;
    DistinctMore(List(m, id), next);
  }

  lemma DroppedOk(m: Waiters, closed: set<Chan>, next: Chan, id: string, c: Chan)
    requires Ok(m, closed, next)
    ensures Ok(Dropped(m, id, c), closed, next)
  {
    WithoutIsGone(List(m, id), c);
  }

  lemma WokenOk(m: Waiters, closed: set<Chan>, next: Chan, id: string)
    requires Ok(m, closed, next)
    ensures Ok(m - {id}, closed + Elements(List(m, id)), next)
    ensures List(m, id) != [] ==> Elements(List(m, id)) !! closed
  {
  }

  class Registry {
    var m: Waiters
    var closed: set<Chan>
    var next: Chan

    ghost predicate Valid()
      reads this
    {
      Ok(m, closed, next)
    }

    constructor ()
      ensures Valid() && m == map[] && closed == {} && next == 0
    {
      m, closed, next := map[], {}, 0;
    }

    /** A waiter, or none when the guest has three of them. */
    method Wait(id: string) returns (c: Option<Chan>)
      requires Valid()
      modifies this`m, this`next
      ensures Valid()
      ensures c == if |List(old(m), id)| < GUEST_POLLS then Some(old(next)) else None
      ensures m == if c.Some? then Waited(old(m), id, old(next)) else old(m)
      ensures next == if c.Some? then old(next) + 1 else old(next)
    {
      if id in m && |m[id]| >= GUEST_POLLS { return None; }
      WaitedOk(m, closed, next, id);
      c := Some(next);
      m := m[id := (if id in m then m[id] else []) + [next]];
      next := next + 1;
    }

    /** The first c of the list, by a loop over it. */
    method Cut(list: seq<Chan>, c: Chan) returns (r: seq<Chan>)
      ensures r == Without(list, c)
    {
      for i := 0 to |list|
        invariant Without(list, c) == list[..i] + Without(list[i..], c)
      {
        assert list[i..][1..] == list[i + 1..];
        if list[i] == c { return list[..i] + list[i + 1..]; }
        assert list[..i] + ([list[i]] + Without(list[i + 1..], c)) == list[..i + 1] + Without(list[i + 1..], c);
      }
      r := list;
    }

    method Drop(id: string, c: Chan)
      requires Valid()
      modifies this`m
      ensures Valid() && m == Dropped(old(m), id, c)
    {
      DroppedOk(m, closed, next, id, c);
      var list := Cut(List(m, id), c);
      if |list| == 0 { m := m - {id}; } else { m := m[id := list]; }
    }

    /** Closing a channel twice would stop the gateway. */
    method Close(c: Chan)
      requires c !in closed
      modifies this`closed
      ensures closed == old(closed) + {c}
    {
      closed := closed + {c};
    }

    method WakeGuest(node: string)
      requires Valid()
      modifies this`m, this`closed
      ensures Valid()
      ensures m == old(m) - {IdOf(node)} && closed == old(closed) + Elements(List(old(m), IdOf(node)))
    {
      var id := IdOf(node);
      var list := List(m, id);
      WokenOk(m, closed, next, id);
      for i := 0 to |list|
        invariant m == old(m) && next == old(next) && closed == old(closed) + Elements(list[..i])
      {
        DistinctAt(list, i);
        assert list[i] in list && list[i] !in old(closed);
        Close(list[i]);
        assert Elements(list[..i + 1]) == Elements(list[..i]) + {list[i]};
      }
      assert list[..|list|] == list;
      m := m - {id};
    }
  }

  lemma {:induction false} DistinctAt(list: seq<Chan>, i: nat)
    requires Distinct(list) && i < |list|
    ensures list[i] !in list[..i]
  {
    if i > 0 {
      DistinctAt(list[1..], i - 1);
      assert list[..i] == [list[0]] + list[1..][..i - 1];
      assert list[i] in list[1..];
    }
  }

  // ---- Pages ----

  const PAGE := 50

  /** What a request asks for: what came after the first n entries of the archive, or the newest page. */
  datatype Start = After(n: nat) | Newest

  /** The archive of a guest's room: of each entry, whether it is a message, a reaction or a retraction to show. */
  type Archive = seq<bool>

  /** The page read from an archive of len entries: from Low up to High. */
  function Low(start: Start, len: nat): nat {
    match start
    case After(n) => if n < len then n else len
    case Newest => if PAGE < len then len - PAGE else 0
  }

  function High(start: Start, len: nat): nat {
    if Low(start, len) + PAGE < len then Low(start, len) + PAGE else len
  }

  predicate NoneShows(a: Archive, from: nat, to: nat) { forall i :: from <= i < to && i < |a| ==> !a[i] }

  /** The loop over the page: whether it is empty. */
  method PageEmpty(a: Archive, start: Start) returns (empty: bool)
    ensures empty <==> NoneShows(a, Low(start, |a|), High(start, |a|))
  {
    empty := true;
    for i := Low(start, |a|) to High(start, |a|)
      invariant empty <==> NoneShows(a, Low(start, |a|), i)
    {
      if a[i] { empty := false; }
    }
  }

  /** Fifty entries at most: the first ones after those the request has, or the newest ones. */
  lemma PageIs(start: Start, len: nat, i: nat)
    ensures var inside := Low(start, len) <= i < High(start, len);
      match start
      case After(n) => inside <==> n <= i < len && i - n < 50
      case Newest => inside <==> i < len && len - i <= 50
  {
  }

  // ---- Polls ----

  /** A request of a page: registered; waiting, its page of `seen` entries read and empty; or woken and about to read
      once more. */
  datatype Poll = Registered(id: string, start: Start) | Waiting(id: string, start: Start, seen: nat)

  /** archive: the archive of each guest's room; told: how many of its entries a wake-up was delivered for. */
  datatype State = State(m: Waiters, closed: set<Chan>, next: Chan, polls: map<Chan, Poll>,
                         archive: map<string, Archive>, told: map<string, nat>)

  function Of(archive: map<string, Archive>, id: string): Archive { if id in archive then archive[id] else [] }

  function Count(counts: map<string, nat>, id: string): nat { if id in counts then counts[id] else 0 }

  datatype Event =
    | Register(id: string, start: Start)
    | Read(c: Chan)                  // the first reading: an answer unless the page is empty, else the wait
    | Arrive(id: string, shows: bool) // an entry reaches the archive
    | Wake(node: string)             // the push for all that arrived so far
    | Finish(c: Chan)                // answered: woken and read again, timed out, not to wait; or the page went away

  predicate CanHappen(s: State, e: Event) {
    match e
    case Register(id, _) => |List(s.m, id)| < GUEST_POLLS
    case Read(c) => c in s.polls && s.polls[c].Registered?
    case Finish(c) => c in s.polls
    case _ => true
  }

  function Ended(s: State, c: Chan): State
    requires c in s.polls
  {
    s.(m := Dropped(s.m, s.polls[c].id, c), polls := s.polls - {c})
  }

  function Apply(s: State, e: Event): State
    requires CanHappen(s, e)
  {
    match e
    case Register(id, start) =>
      s.(m := Waited(s.m, id, s.next), next := s.next + 1, polls := s.polls[s.next := Registered(id, start)])
    case Read(c) =>
      var p := s.polls[c];
      var a := Of(s.archive, p.id);
      if NoneShows(a, Low(p.start, |a|), High(p.start, |a|)) then s.(polls := s.polls[c := Waiting(p.id, p.start, |a|)])
      else Ended(s, c)
    case Arrive(id, shows) => s.(archive := s.archive[id := Of(s.archive, id) + [shows]])
    case Wake(node) =>
      var id := IdOf(node);
      s.(m := s.m - {id}, closed := s.closed + Elements(List(s.m, id)), told := s.told[id := |Of(s.archive, id)|])
    case Finish(c) => Ended(s, c)
  }

  /** A poll that waits has read all it was told of, as far as its page goes, and found nothing to show. */
  predicate ReadUp(a: Archive, told: nat, start: Start, seen: nat) {
    told <= seen <= |a| && NoneShows(a, Low(start, seen), High(start, seen))
  }

  /** A poll whose channel is open is registered, and up to date when it waits. */
  predicate Awake(s: State, c: Chan)
    requires c in s.polls
  {
    var p := s.polls[c];
    c < s.next && (c in s.closed || (
      && c in List(s.m, p.id)
      && (p.Waiting? ==> ReadUp(Of(s.archive, p.id), Count(s.told, p.id), p.start, p.seen))))
  }

  ghost predicate Inv(s: State) {
    && Ok(s.m, s.closed, s.next)
    && (forall c <- s.polls :: Awake(s, c))
    && (forall id <- s.m :: forall c <- s.m[id] :: c in s.polls && s.polls[c].id == id)
    && (forall id :: Count(s.told, id) <= |Of(s.archive, id)|)
  }

  lemma EndedKeepsInv(s: State, c: Chan)
    requires Inv(s) && c in s.polls
    ensures Inv(Ended(s, c))
  {
    var id := s.polls[c].id;
    DroppedOk(s.m, s.closed, s.next, id, c);
    WithoutIsGone(List(s.m, id), c);
    var s' := Ended(s, c);
    forall d | d in s'.polls ensures Awake(s', d) {
      assert Awake(s, d);
    }
    forall other, d | other in s'.m && d in s'.m[other] ensures d in s'.polls && s'.polls[d].id == other {
      assert d in s.m[other] && d != c;
    }
  }

  lemma RegisterKeepsInv(s: State, id: string, start: Start)
    requires Inv(s) && CanHappen(s, Register(id, start))
    ensures Inv(Apply(s, Register(id, start)))
  {
    WaitedOk(s.m, s.closed, s.next, id);
    var s' := Apply(s, Register(id, start));
    forall c | c in s'.polls ensures Awake(s', c) {
      if c != s.next { assert Awake(s, c); }
    }
  }

  lemma {:induction false} ReadKeepsInv(s: State, c: Chan)
    requires Inv(s) && CanHappen(s, Read(c))
    ensures Inv(Apply(s, Read(c)))
  {
    var s', p := Apply(s, Read(c)), s.polls[c];
    var a := Of(s.archive, p.id);
    if NoneShows(a, Low(p.start, |a|), High(p.start, |a|)) {
      assert Count(s.told, p.id) <= |a|;
      forall d | d in s'.polls ensures Awake(s', d) { assert Awake(s, d); }
    } else {
      EndedKeepsInv(s, c);
    }
  }

  lemma WakeKeepsInv(s: State, node: string)
    requires Inv(s)
    ensures Inv(Apply(s, Wake(node)))
  {
    var id := IdOf(node);
    WokenOk(s.m, s.closed, s.next, id);
    var s' := Apply(s, Wake(node));
    forall c | c in s'.polls ensures Awake(s', c) {
      assert Awake(s, c);
      assert s.polls[c].id == id && c !in s.closed ==> c in Elements(List(s.m, id));
    }
  }

  lemma ReadUpStays(a: Archive, more: bool, told: nat, start: Start, seen: nat)
    requires ReadUp(a, told, start, seen)
    ensures ReadUp(a + [more], told, start, seen)
  {
  }

  lemma ArriveKeepsInv(s: State, id: string, shows: bool)
    requires Inv(s)
    ensures Inv(Apply(s, Arrive(id, shows)))
  {
    var s' := Apply(s, Arrive(id, shows));
    forall c | c in s'.polls ensures Awake(s', c) {
      assert Awake(s, c);
      var p := s.polls[c];
      if p.Waiting? && p.id == id && c !in s.closed {
        ReadUpStays(Of(s.archive, id), shows, Count(s.told, id), p.start, p.seen);
      }
    }
    forall other ensures Count(s'.told, other) <= |Of(s'.archive, other)| {
      assert Count(s.told, other) <= |Of(s.archive, other)|;
    }
  }

  lemma StepKeepsInv(s: State, e: Event)
    requires Inv(s) && CanHappen(s, e)
    ensures Inv(Apply(s, e))
  {
    match e
    case Register(id, start) => RegisterKeepsInv(s, id, start);
    case Read(c) => ReadKeepsInv(s, c);
    case Arrive(id, shows) => ArriveKeepsInv(s, id, shows);
    case Wake(node) => WakeKeepsInv(s, node);
    case Finish(c) => EndedKeepsInv(s, c);
  }

  /** A request goes to sleep exactly when nothing of its page shows and no wake-up came since it was registered; else
      it is answered, and registered no more. */
  lemma SleepsExactly(s: State, c: Chan)
    requires Inv(s) && CanHappen(s, Read(c))
    ensures var p, s' := s.polls[c], Apply(s, Read(c));
      var a := Of(s.archive, p.id);
      && (c in s'.polls <==> forall i: nat :: i < |a| && Low(p.start, |a|) <= i < High(p.start, |a|) ==> !a[i])
      && (c in s'.polls ==> s'.polls[c].Waiting? && (Asleep(s', c) <==> c in List(s'.m, p.id)))
      && (c !in s'.polls ==> c !in List(s'.m, p.id))
  {
    var p := s.polls[c];
    assert Awake(s, c);
    WithoutIsGone(List(s.m, p.id), c);
  }

  function Run(s: State, es: seq<Event>): Option<State>
    decreases |es|
  {
    if es == [] then Some(s) else if !CanHappen(s, es[0]) then None else Run(Apply(s, es[0]), es[1..])
  }

  const START := State(map[], {}, 0, map[], map[], map[])

  lemma {:induction false} RunKeepsInv(s: State, es: seq<Event>)
    requires Inv(s) && Run(s, es).Some?
    ensures Inv(Run(s, es).value)
    decreases |es|
  {
    if es != [] {
      StepKeepsInv(s, es[0]);
      RunKeepsInv(Apply(s, es[0]), es[1..]);
    }
  }

  /** The poll sleeps on an open channel. */
  predicate Asleep(s: State, c: Chan) { c in s.polls && s.polls[c].Waiting? && c !in s.closed }

  /** Where what the request asks for starts. */
  function From(start: Start): nat { match start case After(n) => n case Newest => 0 }

  /** Some entry it asked for has something to show, and the wake-up for it was delivered. */
  predicate Missed(s: State, c: Chan)
    requires Asleep(s, c)
  {
    var p := s.polls[c];
    !NoneShows(Of(s.archive, p.id), From(p.start), Count(s.told, p.id))
  }

  /** The page it read was full. */
  predicate FullPage(s: State, c: Chan)
    requires Asleep(s, c)
  {
    var p := s.polls[c];
    High(p.start, p.seen) == Low(p.start, p.seen) + PAGE
  }

  /** Something told of shows outside the page it read. */
  predicate ShowsOutside(s: State, c: Chan)
    requires Asleep(s, c)
  {
    var p := s.polls[c];
    var a, told := Of(s.archive, p.id), Count(s.told, p.id);
    || !NoneShows(a, From(p.start), if Low(p.start, p.seen) < told then Low(p.start, p.seen) else told)
    || !NoneShows(a, High(p.start, p.seen), told)
  }

  /** Main result: over every interleaving, a poll asleep on an open channel has read every entry with something to
      show that it was told of, unless its page was fifty entries without any and such an entry lies outside; then it
      has not. Besides, at most three polls are registered for a guest, no list is empty, and no channel that is still
      listed was closed, so none is closed twice. */
  lemma NoLostWakeUp(es: seq<Event>, c: Chan)
    requires Run(START, es).Some?
    ensures var s := Run(START, es).value;
      && Ok(s.m, s.closed, s.next)
      && (Asleep(s, c) ==> (Missed(s, c) <==> FullPage(s, c) && ShowsOutside(s, c)))
  {
    assert Inv(START);
    RunKeepsInv(START, es);
    var s := Run(START, es).value;
    if Asleep(s, c) {
      assert Awake(s, c);
      var p := s.polls[c];
      OutsideThePage(Of(s.archive, p.id), Count(s.told, p.id), p.start, p.seen);
    }
  }

  lemma OutsideThePage(a: Archive, told: nat, start: Start, seen: nat)
    requires ReadUp(a, told, start, seen)
    ensures var low, high := Low(start, seen), High(start, seen);
      !NoneShows(a, From(start), told)
      <==> high == low + PAGE
           && (!NoneShows(a, From(start), if low < told then low else told) || !NoneShows(a, high, told))
  {
    var low, high := Low(start, seen), High(start, seen);
    if i :| From(start) <= i < told && a[i] {
      assert i < low || i >= high;
    }
  }

  // ---- The full page ----

  lemma {:induction false} SilentRun(s: State, id: string, n: nat, rest: seq<Event>)
    ensures Run(s, seq(n, _ => Arrive(id, false)) + rest)
            == Run(s.(archive := if n == 0 then s.archive else s.archive[id := Of(s.archive, id) + seq(n, _ => false)]), rest)
    decreases n
  {
    var es := seq(n, _ => Arrive(id, false)) + rest;
    if n == 0 {
      assert es == rest && s.(archive := s.archive) == s;
    } else {
      var s' := Apply(s, Arrive(id, false));
      assert es[0] == Arrive(id, false) && es[1..] == seq(n - 1, _ => Arrive(id, false)) + rest;
      SilentRun(s', id, n - 1, rest);
      var a := Of(s.archive, id);
      assert seq(n, _ => false) == [false] + seq(n - 1, _ => false);
      assert a + [false] + seq(n - 1, _ => false) == a + seq(n, _ => false);
      assert s'.archive[id := a + seq(n, _ => false)] == s.archive[id := a + seq(n, _ => false)];
      if n == 1 { assert a + seq(n, _ => false) == a + [false]; }
    }
  }

  /** Such a run: fifty entries that show nothing, a message, its push, and then a page that asks for all of it. */
  lemma FullPageHidesAMessage(id: string, es: seq<Event>)
    requires es == seq(PAGE, _ => Arrive(id, false))
                   + [Arrive(id, true), Wake(NODE_PREFIX + id), Register(id, After(0)), Read(0)]
    ensures Run(START, es).Some? && Asleep(Run(START, es).value, 0) && Missed(Run(START, es).value, 0)
  {
    var rest := [Arrive(id, true), Wake(NODE_PREFIX + id), Register(id, After(0)), Read(0)];
    SilentRun(START, id, PAGE, rest);
    var silent := seq(PAGE, _ => false);
    assert [] + silent == silent;
    var a := silent + [true];
    var s1 := START.(archive := map[id := silent]);
    var s2 := START.(archive := map[id := a]);
    assert Apply(s1, rest[0]) == s2;
    assert (NODE_PREFIX + id)[|NODE_PREFIX|..] == id;
    var s3 := s2.(told := map[id := PAGE + 1]);
    assert Elements([]) == {};
    assert Apply(s2, rest[1]) == s3;
    var s4 := s3.(m := map[id := [0]], next := 1, polls := map[0 := Registered(id, After(0))]);
    assert [] + [0] == [0];
    assert Apply(s3, rest[2]) == s4;
    assert NoneShows(a, 0, PAGE) && a[PAGE];
    var s5 := s4.(polls := map[0 := Waiting(id, After(0), PAGE + 1)]);
    assert Apply(s4, rest[3]) == s5;
    FourSteps(s1, rest, s2, s3, s4, s5);
  }

  lemma FourSteps(s: State, es: seq<Event>, s1: State, s2: State, s3: State, s4: State)
    requires |es| == 4 && CanHappen(s, es[0]) && s1 == Apply(s, es[0]) && CanHappen(s1, es[1]) && s2 == Apply(s1, es[1])
    requires CanHappen(s2, es[2]) && s3 == Apply(s2, es[2]) && CanHappen(s3, es[3]) && s4 == Apply(s3, es[3])
    ensures Run(s, es) == Some(s4)
  {
    assert es[1..][1..] == es[2..] && es[2..][1..] == es[3..] && es[3..][1..] == [];
    assert Run(s3, es[3..]) == Some(s4);
    assert Run(s2, es[2..]) == Some(s4);
    assert Run(s1, es[1..]) == Some(s4);
  }
}
