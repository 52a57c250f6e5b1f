/** leaveRoom in reconcile.go: an account leaves a room, and hands it over when it was the only owner. */
module LeaveRoom {
  import opened Text
  import opened Sorting
  import Fingerprint

  const GUEST_PREFIX := "g~"

  datatype Role = Owner | Admin | Member | Outcast
  datatype Jid = Jid(user: string, host: string)
  datatype Entry = Entry(jid: Jid, role: Role, reason: string)

  /** A room that exists: who has which role. */
  type Room = map<Jid, Role>

  predicate HasOwner(room: Room) { exists j :: j in room && room[j] == Owner }

  /** What get_room_affiliations answers: each affiliation of the room once, in any order. */
  ghost predicate Faithful(list: seq<Entry>, room: Room) {
    && (forall e <- list :: e.jid in room && room[e.jid] == e.role)
    && (forall j <- room :: exists e :: e in list && e.jid == j)
  }

  // ---- Numbers as strconv.ParseFloat gives them ----

  datatype Float = NaN | NegInf | Num(x: real) | PosInf

  predicate FloatLess(a: Float, b: Float) {
    match (a, b)
    case (NaN, _) => false
    case (_, NaN) => false
    case (Num(x), Num(y)) => x < y
    case (NegInf, _) => !b.NegInf?
    case (_, PosInf) => !a.PosInf?
    case _ => false
  }

  /** Go's !=: a NaN differs from itself. */
  predicate FloatDiffers(a: Float, b: Float) { a.NaN? || a != b }

  predicate Positive(a: Float) { FloatLess(Num(0.0), a) }

  // ---- The heir ----

  /** A member who can inherit, and when it was added; zero when that is not known. */
  datatype Cand = Cand(user: string, added: Float)

  predicate Before(a: Cand, b: Cand) {
    if Positive(a.added) != Positive(b.added) then Positive(a.added)
    else if FloatDiffers(a.added, b.added) then FloatLess(a.added, b.added)
    else Fingerprint.Less(a.user, b.user)
  }

  /** Whether the comparison can tell the two apart: no, when one's time is NaN and neither's is after zero. */
  predicate Comparable(a: Cand, b: Cand) {
    a == b || Positive(a.added) || Positive(b.added) || (!a.added.NaN? && !b.added.NaN?)
  }

  /** Before never contradicts itself, and decides between any two different candidates exactly when comparable. */
  lemma BeforeIsAnOrder(a: Cand, b: Cand, c: Cand)
    ensures !Before(a, a) && !(Before(a, b) && Before(b, a))
    ensures Before(a, b) && Before(b, c) ==> Before(a, c)
    ensures a != b ==> (Before(a, b) || Before(b, a) <==> Comparable(a, b))
  {
    Fingerprint.LessIrreflexive(a.user);
    Fingerprint.LessTotal(a.user, b.user);
    if Fingerprint.Less(a.user, b.user) && Fingerprint.Less(b.user, a.user) {
      Fingerprint.LessTransitive(a.user, b.user, a.user);
    }
    if Fingerprint.Less(a.user, b.user) && Fingerprint.Less(b.user, c.user) {
      Fingerprint.LessTransitive(a.user, b.user, c.user);
    }
  }

  ghost predicate AllComparable(s: seq<Cand>) { forall a, b :: a in s && b in s ==> Comparable(a, b) }

  /** No other candidate comes before h. */
  ghost predicate First(s: seq<Cand>, h: Cand) { h in s && forall c <- s :: c == h || Before(h, c) }

  /** x goes to the front exactly when it comes before the one that is there. */
  lemma {:induction false} InsertHead(s: seq<Cand>, x: Cand)
    requires s != [] && forall k :: 0 < k < |s| ==> s[k] == s[0] || Before(s[0], s[k])
    ensures Insert(Before, s, x)[0] == if Before(x, s[0]) then x else s[0]
  {
    var n := |s| - 1;
    BeforeIsAnOrder(x, s[0], s[n]);
    if n > 0 && Before(x, s[n]) {
      InsertHead(s[..n], x);
    }
  }

  lemma InsertFirst(s: seq<Cand>, x: Cand)
    requires s != [] && First(s, s[0]) && Comparable(x, s[0])
    ensures First(Insert(Before, s, x), Insert(Before, s, x)[0])
  {
    InsertHead(s, x);
    var h := Insert(Before, s, x)[0];
    BeforeIsAnOrder(x, s[0], x);
    forall c | c in Insert(Before, s, x) ensures c == h || Before(h, c) {
      assert c in multiset(Insert(Before, s, x));
      BeforeIsAnOrder(x, s[0], c);
    }
  }

  /** The comparisons settle who is first: some time is after zero, or all can be compared. */
  ghost predicate Settled(s: seq<Cand>) { HasPositive(s) || AllComparable(s) }

  ghost predicate HasPositive(s: seq<Cand>) { exists c :: c in s && Positive(c.added) }

  predicate NonePositive(s: seq<Cand>) { s == [] || (!Positive(s[0].added) && NonePositive(s[1..])) }

  lemma {:induction false} NonePositiveAt(s: seq<Cand>, k: nat)
    requires NonePositive(s) && k < |s|
    ensures !Positive(s[k].added)
  {
    if k > 0 { NonePositiveAt(s[1..], k - 1); }
  }

  lemma {:induction false} NonePositiveIff(s: seq<Cand>)
    ensures NonePositive(s) <==> !HasPositive(s)
  {
    if s != [] {
      assert s == [s[0]] + s[1..];
      NonePositiveIff(s[1..]);
    }
  }

  lemma {:induction false} NonePositivePrefix(s: seq<Cand>, n: nat)
    requires NonePositive(s) && n <= |s|
    ensures NonePositive(s[..n])
  {
    if n > 0 {
      NonePositivePrefix(s[1..], n - 1);
      assert s[..n][1..] == s[1..][..n - 1];
    }
  }

  /** One with a time after zero goes before all without. */
  lemma {:induction false} InsertPositive(s: seq<Cand>, x: Cand)
    requires Positive(x.added) && NonePositive(s)
    ensures Insert(Before, s, x) == [x] + s
  {
    if s != [] {
      var n := |s| - 1;
      NonePositiveAt(s, n);
      NonePositivePrefix(s, n);
      InsertPositive(s[..n], x);
      assert s == s[..n] + [s[n]];
      Assoc([x], s[..n], [s[n]]);
    }
  }

  lemma FirstIsPositive(s: seq<Cand>, h: Cand)
    requires First(s, h) && HasPositive(s)
    ensures Positive(h.added)
  {
    var c :| c in s && Positive(c.added);
  }

  lemma SamePositive(s: seq<Cand>, t: seq<Cand>)
    requires !HasPositive(s) && forall c :: c in s <==> c in t
    ensures NonePositive(t)
  {
    NonePositiveIff(t);
  }

  lemma {:induction false} SortedFirst(s: seq<Cand>)
    requires s != [] && Settled(s)
    ensures First(s, Sorted(Before, s)[0])
  {
    var t, x := s[..|s| - 1], s[|s| - 1];
    assert x in s && forall c <- t :: c in s;
    assert forall c <- s :: c in t || c == x;
    if t != [] {
      SameElements(Sorted(Before, t), t);
      if Settled(t) {
        SortedFirst(t);
        if HasPositive(t) { FirstIsPositive(t, Sorted(Before, t)[0]); }
        InsertFirst(Sorted(Before, t), x);
      } else {
        SamePositive(t, Sorted(Before, t));
        InsertPositive(Sorted(Before, t), x);
      }
    }
    SameElements(Sorted(Before, s), s);
  }

  /** When the comparisons settle it, the heir is the one candidate before all others, whatever the order they are
      listed in and however often. */
  lemma HeirIsTheFirst(s: seq<Cand>, t: seq<Cand>)
    requires s != [] && Settled(s) && forall c :: c in s <==> c in t
    ensures First(s, Sorted(Before, s)[0]) && t != [] && Sorted(Before, t)[0] == Sorted(Before, s)[0]
    ensures forall h :: First(s, h) ==> h == Sorted(Before, s)[0]
  {
    assert s[0] in t;
    SettledSame(s, t);
    SortedFirst(s);
    SortedFirst(t);
    var h := Sorted(Before, s)[0];
    forall g | First(s, g) ensures g == h { BeforeIsAnOrder(g, h, g); }
    assert First(s, Sorted(Before, t)[0]);
  }

  /** Whatever the algorithm: a listing rearranged so that nobody comes before the one in front has the same heir there. */
  lemma AnySortAgrees(s: seq<Cand>, r: seq<Cand>)
    requires s != [] && Settled(s) && multiset(r) == multiset(s) && forall j :: 0 < j < |r| ==> !Before(r[j], r[0])
    ensures r != [] && r[0] == Sorted(Before, s)[0]
  {
    SameElements(r, s);
    assert s[0] in r;
    HeirIsTheFirst(s, r);
    var h := Sorted(Before, s)[0];
    assert r[0] in s && First(s, h) && h in r;
  }

  lemma SettledSame(s: seq<Cand>, t: seq<Cand>)
    requires Settled(s) && forall c :: c in s <==> c in t
    ensures Settled(t)
  {
    if HasPositive(s) {
      var c :| c in s && Positive(c.added);
      assert c in t;
    }
  }

  lemma {:induction false} InsertHeadIs(s: seq<Cand>, x: Cand)
    requires s != []
    ensures Insert(Before, s, x)[0] in {x, s[0]}
    ensures !Before(x, s[|s| - 1]) || !Before(x, s[0]) ==> Insert(Before, s, x)[0] == s[0]
  {
    if Before(x, s[|s| - 1]) && |s| > 1 { InsertHeadIs(s[..|s| - 1], x); }
  }

  lemma NaNStep(r: seq<Cand>, x: Cand, a: Cand)
    requires r != [] && NonePositive(r) && !Positive(x.added) && a.added.NaN?
    ensures Insert(Before, r, x)[0] == a <==> r[0] == a
  {
    NonePositiveAt(r, 0);
    NonePositiveAt(r, |r| - 1);
    InsertHeadIs(r, x);
  }

  /** A NaN among times not after zero stays in front when it is listed first, and never gets there otherwise. */
  lemma {:induction false} NaNKeepsItsPlace(s: seq<Cand>, a: Cand)
    requires s != [] && NonePositive(s) && a.added.NaN?
    ensures Sorted(Before, s)[0] == a <==> s[0] == a
  {
    var n := |s| - 1;
    if n > 0 {
      NonePositivePrefix(s, n);
      NaNKeepsItsPlace(s[..n], a);
      SortedNonePositive(s[..n]);
      NonePositiveAt(s, n);
      NaNStep(Sorted(Before, s[..n]), s[n], a);
    } else {
      assert s[..0] == [] && Sorted(Before, s) == [s[0]];
    }
  }

  lemma SortedNonePositive(s: seq<Cand>)
    requires NonePositive(s)
    ensures NonePositive(Sorted(Before, s))
  {
    NonePositiveIff(s);
    SameElements(s, Sorted(Before, s));
    SamePositive(s, Sorted(Before, s));
  }

  /** The listing with the candidate at i first. */
  function Fronted(s: seq<Cand>, i: nat): (r: seq<Cand>)
    requires i < |s|
    ensures multiset(r) == multiset(s) && r != [] && r[0] == s[i]
  {
    assert s == s[..i] + [s[i]] + s[i + 1..];
    [s[i]] + (s[..i] + s[i + 1..])
  }

  /** Main result: the heir is the same for every listing of the candidates if and only if some time is after zero, or
      any two of them can be compared. */
  lemma HeirIsSettled(s: seq<Cand>)
    requires s != []
    ensures (forall t :: multiset(t) == multiset(s) ==> |t| == |s| && Sorted(Before, t)[0] == Sorted(Before, s)[0])
            <==> Settled(s)
  {
    if Settled(s) {
      forall t | multiset(t) == multiset(s) ensures |t| == |s| && Sorted(Before, t)[0] == Sorted(Before, s)[0] {
        SameElements(s, t);
        HeirIsTheFirst(s, t);
        assert |multiset(t)| == |t| && |multiset(s)| == |s|;
      }
    } else {
      var t1, t2 := TwoHeirs(s);
      assert Sorted(Before, t1)[0] != Sorted(Before, t2)[0];
    }
  }

  lemma TwoHeirs(s: seq<Cand>) returns (t1: seq<Cand>, t2: seq<Cand>)
    requires !Settled(s)
    ensures multiset(t1) == multiset(s) == multiset(t2) && t1 != [] && t2 != []
    ensures Sorted(Before, t1)[0] != Sorted(Before, t2)[0]
  {
    var a, b :| a in s && b in s && !Comparable(a, b);
    if !a.added.NaN? { a, b := b, a; }
    var i :| 0 <= i < |s| && s[i] == a;
    var j :| 0 <= j < |s| && s[j] == b;
    t1, t2 := Fronted(s, i), Fronted(s, j);
    SameElements(s, t1);
    SameElements(s, t2);
    SamePositive(s, t1);
    SamePositive(s, t2);
    NaNKeepsItsPlace(t1, a);
    NaNKeepsItsPlace(t2, a);
  }

  /** With a NaN among times that are not after zero, the order of the listing decides. */
  lemma NaNHeirDependsOnTheOrder()
    ensures var a, b := Cand("a", NaN), Cand("b", Num(0.0));
      !Comparable(a, b) && Sorted(Before, [a, b])[0] == a && Sorted(Before, [b, a])[0] == b
  {
    var a, b := Cand("a", NaN), Cand("b", Num(0.0));
    SortedPair(a, b);
    SortedPair(b, a);
  }

  lemma SortedPair(a: Cand, b: Cand)
    requires !Before(b, a)
    ensures Sorted(Before, [a, b]) == [a, b]
  {
    assert [a, b][..1] == [a] && [a][..0] == [];
    assert Sorted(Before, [a]) == [a];
  }

  // ---- Reading the affiliations ----

  /** owner: what the last entry with this username says. */
  function OwnerFlag(list: seq<Entry>, user: string): bool {
    if list == [] then false
    else if list[|list| - 1].jid.user == user then list[|list| - 1].role == Owner
    else OwnerFlag(list[..|list| - 1], user)
  }

  predicate OtherOwner(list: seq<Entry>, user: string) { exists e <- list :: e.jid.user != user && e.role == Owner }

  /** The accounts that are missing or inactive, and for which entries the query for that fails. */
  datatype Store = Store(away: set<string>, unread: set<Jid>) {
    /** Store.Away: a query that fails answers no. */
    predicate Away(j: Jid) { j.user in away && j !in unread }
  }

  predicate Inherits(e: Entry, user: string, store: Store) {
    e.jid.user != user && e.role in {Member, Admin} && !store.Away(e.jid) && !(GUEST_PREFIX <= e.jid.user)
  }

  function Cands(list: seq<Entry>, user: string, store: Store, parse: string -> Float): seq<Cand> {
    if list == [] then []
    else
      var e := list[|list| - 1];
      var rest := Cands(list[..|list| - 1], user, store, parse);
      if Inherits(e, user, store) then rest + [Cand(e.jid.user, parse(e.reason))] else rest
  }

  lemma {:induction false} CandIsAMember(list: seq<Entry>, user: string, store: Store, parse: string -> Float, c: Cand)
    requires c in Cands(list, user, store, parse)
    ensures exists e <- list :: Inherits(e, user, store) && c == Cand(e.jid.user, parse(e.reason))
  {
    var e, rest := list[|list| - 1], list[..|list| - 1];
    assert e in list && forall x <- rest :: x in list;
    if c in Cands(rest, user, store, parse) {
      CandIsAMember(rest, user, store, parse, c);
    } else {
      assert Inherits(e, user, store) && c == Cand(e.jid.user, parse(e.reason));
    }
  }

  /** One entry more. */
  lemma ReadStep(list: seq<Entry>, i: nat, user: string, store: Store, parse: string -> Float)
    requires i < |list|
    ensures OwnerFlag(list[..i + 1], user) == if list[i].jid.user == user then list[i].role == Owner else OwnerFlag(list[..i], user)
    ensures OtherOwner(list[..i + 1], user) == (OtherOwner(list[..i], user) || (list[i].jid.user != user && list[i].role == Owner))
    ensures Cands(list[..i + 1], user, store, parse)
      == Cands(list[..i], user, store, parse) + if Inherits(list[i], user, store) then [Cand(list[i].jid.user, parse(list[i].reason))] else []
  {
    assert list[..i + 1][..i] == list[..i];
    assert list[..i + 1] == list[..i] + [list[i]];
  }

  datatype Plan = Destroy | HandOver(heir: string) | Leave

  function PlanOf(list: seq<Entry>, user: string, store: Store, parse: string -> Float): Plan {
    var cands := Cands(list, user, store, parse);
    if !OwnerFlag(list, user) || OtherOwner(list, user) then Leave
    else if cands == [] then Destroy
    else HandOver(Sorted(Before, cands)[0].user)
  }

  // ---- The calls ----

  /** A call works, fails without effect, or works and is taken for failed. */
  datatype Outcome = Works | Fails | WorksUnseen

  datatype Outcomes = Outcomes(destroy: Outcome, give: Outcome, unsubscribe: Outcome, leave: Outcome)

  datatype Call = DestroyCall | GiveCall(heir: string) | UnsubscribeCall | LeaveCall

  function OutcomeOf(o: Outcomes, call: Call): Outcome {
    match call
    case DestroyCall => o.destroy
    case GiveCall(_) => o.give
    case UnsubscribeCall => o.unsubscribe
    case LeaveCall => o.leave
  }

  /** The calls made. */
  function CallsOf(plan: Plan, o: Outcomes): seq<Call> {
    match plan
    case Destroy => [DestroyCall]
    case HandOver(heir) => if o.give.Works? then [GiveCall(heir), UnsubscribeCall, LeaveCall] else [GiveCall(heir)]
    case Leave => [UnsubscribeCall, LeaveCall]
  }

  function Given(room: Room, heir: string, host: string, o: Outcome): Room {
    if o.Fails? then room else room[Jid(heir, host) := Owner]
  }

  function Left(room: Room, user: string, host: string, o: Outcome): Room {
    if o.Fails? then room else room - {Jid(user, host)}
  }

  /** The room after each call: where a crash may leave it. */
  function Trace(room: Room, plan: Plan, user: string, host: string, o: Outcomes): seq<Option<Room>> {
    match plan
    case Destroy => [if o.destroy.Fails? then Some(room) else None]
    case HandOver(heir) =>
      var given := Given(room, heir, host, o.give);
      if o.give.Works? then [Some(given), Some(given), Some(Left(given, user, host, o.leave))] else [Some(given)]
    case Leave => [Some(room), Some(Left(room, user, host, o.leave))]
  }

  function Error(plan: Plan, o: Outcomes): bool {
    match plan
    case Destroy => !o.destroy.Works?
    case HandOver(_) => !o.give.Works? || !o.unsubscribe.Works? || !o.leave.Works?
    case Leave => !o.unsubscribe.Works? || !o.leave.Works?
  }

  class Gateway {
    const host: string
    const parse: string -> Float
    var room: Option<Room>
    ghost var trace: seq<Option<Room>>
    ghost var calls: seq<Call>

    constructor (host: string, parse: string -> Float, room: Room)
      ensures this.host == host && this.parse == parse && this.room == Some(room) && trace == [] && calls == []
    {
      this.host, this.parse, this.room, trace, calls := host, parse, Some(room), [], [];
    }

    method DestroyRoom(o: Outcome) returns (err: bool)
      modifies this
      ensures room == (if o.Fails? then old(room) else None) && trace == old(trace) + [room] && err == !o.Works?
      ensures calls == old(calls) + [DestroyCall]
    {
      if !o.Fails? { room := None; }
      trace, calls := trace + [room], calls + [DestroyCall];
      err := !o.Works?;
    }

    method SetOwner(user: string, o: Outcome) returns (err: bool)
      requires room.Some?
      modifies this
      ensures room == Some(Given(old(room).value, user, host, o)) && trace == old(trace) + [room] && err == !o.Works?
      ensures calls == old(calls) + [GiveCall(user)]
    {
      if !o.Fails? { room := Some(room.value[Jid(user, host) := Owner]); }
      trace, calls := trace + [room], calls + [GiveCall(user)];
      err := !o.Works?;
    }

    /** A subscription is not an affiliation: the room's roles stay. */
    method Unsubscribe(o: Outcome) returns (err: bool)
      modifies this`trace, this`calls
      ensures trace == old(trace) + [room] && calls == old(calls) + [UnsubscribeCall] && err == !o.Works?
    {
      trace, calls := trace + [room], calls + [UnsubscribeCall];
      err := !o.Works?;
    }

    method SetNone(user: string, o: Outcome) returns (err: bool)
      requires room.Some?
      modifies this
      ensures room == Some(Left(old(room).value, user, host, o)) && trace == old(trace) + [room] && err == !o.Works?
      ensures calls == old(calls) + [LeaveCall]
    {
      if !o.Fails? { room := Some(room.value - {Jid(user, host)}); }
      trace, calls := trace + [room], calls + [LeaveCall];
      err := !o.Works?;
    }

    /** The loop over the affiliations. */
    method Read(list: seq<Entry>, user: string, store: Store) returns (owner: bool, otherOwner: bool, members: seq<Cand>)
      ensures owner == OwnerFlag(list, user) && otherOwner == OtherOwner(list, user)
      ensures members == Cands(list, user, store, parse)
    {
      owner, otherOwner, members := false, false, [];
      for i := 0 to |list|
        invariant owner == OwnerFlag(list[..i], user) && otherOwner == OtherOwner(list[..i], user)
        invariant members == Cands(list[..i], user, store, parse)
      {
        ReadStep(list, i, user, store, parse);
        var u := list[i].jid.user;
        if u == user {
          owner := list[i].role == Owner;
        } else if list[i].role == Owner {
          otherOwner := true;
        } else if list[i].role in {Member, Admin} && !store.Away(list[i].jid) && !(GUEST_PREFIX <= u) {
          members := members + [Cand(u, parse(list[i].reason))];
        }
      }
      assert list[..|list|] == list;
    }

    method PickHeir(members: seq<Cand>) returns (heir: string)
      requires members != []
      ensures heir == Sorted(Before, members)[0].user
    {
      var a := new Cand[|members|](i requires 0 <= i < |members| => members[i]);
      assert a[..] == members;
      Sort(Before, a);
      assert a[0] == a[..][0];
      heir := a[0].user;
    }

    /** leaveRoom; the affiliations may be unreadable. */
    method LeaveRoom(user: string, listing: Option<seq<Entry>>, store: Store, o: Outcomes) returns (err: bool)
      requires room.Some? && trace == [] && calls == []
      modifies this
      ensures listing.None? ==> err && room == old(room) && trace == [] && calls == []
      ensures listing.Some? ==>
                var plan := PlanOf(listing.value, user, store, parse);
                && err == Error(plan, o) && calls == CallsOf(plan, o)
                && trace == Trace(old(room).value, plan, user, host, o) && room == trace[|trace| - 1]
    {
      if listing.None? { return true; }
      var owner, otherOwner, members := Read(listing.value, user, store);
      if !owner || otherOwner {
        err := Part(user, o);
      } else if |members| == 0 {
        err := DestroyRoom(o.destroy);
      } else {
        var heir := PickHeir(members);
        err := GiveAndPart(heir, user, o);
      }
    }

    /** The calls when there is an heir. */
    method GiveAndPart(heir: string, user: string, o: Outcomes) returns (err: bool)
      requires room.Some? && trace == [] && calls == []
      modifies this
      ensures err == Error(HandOver(heir), o) && calls == CallsOf(HandOver(heir), o)
      ensures trace == Trace(old(room).value, HandOver(heir), user, host, o)
      ensures room == trace[|trace| - 1]
    {
      err := SetOwner(heir, o.give);
      if !err { err := Part(user, o); }
    }

    /** The last two calls. */
    method Part(user: string, o: Outcomes) returns (err: bool)
      requires room.Some?
      modifies this
      ensures room == Some(Left(old(room).value, user, host, o.leave)) && trace == old(trace) + [old(room), room]
      ensures calls == old(calls) + [UnsubscribeCall, LeaveCall]
      ensures err == (!o.unsubscribe.Works? || !o.leave.Works?)
    {
      var e1 := Unsubscribe(o.unsubscribe);
      var e2 := SetNone(user, o.leave);
      err := e1 || e2;
    }
  }

  // ---- Leaving ----

  /** The source's order: the room is destroyed and that is all; or the heir is made owner, and only once that worked, or
      when there is nothing to hand over, the account's subscription goes, and then, whatever came of it, its role. */
  predicate InOrder(plan: Plan, o: Outcomes, calls: seq<Call>) {
    && (forall c <- calls :: c.DestroyCall? <==> plan == Destroy)
    && (forall c <- calls :: c.GiveCall? ==> plan == HandOver(c.heir))
    && (plan == Destroy ==> DestroyCall in calls)
    && (plan.HandOver? ==> calls != [] && calls[0] == GiveCall(plan.heir))
    && (UnsubscribeCall in calls <==> plan == Leave || (plan.HandOver? && o.give == Works))
    && (LeaveCall in calls <==> UnsubscribeCall in calls)
    && (forall i, j :: 0 <= i < j < |calls| ==> calls[i] != calls[j] && calls[i] != LeaveCall)
  }

  /** Main result: the calls are those of the source, in its order; an error is returned exactly when one of them did not
      work; and without an error the account has no role in a room that is still there, whatever the plan. */
  lemma LeavesWithoutError(room: Room, plan: Plan, user: string, host: string, o: Outcomes)
    ensures InOrder(plan, o, CallsOf(plan, o))
    ensures Error(plan, o) <==> exists c :: c in CallsOf(plan, o) && OutcomeOf(o, c) != Works
    ensures var trace := Trace(room, plan, user, host, o);
      && |trace| == |CallsOf(plan, o)|
      && (!Error(plan, o) && trace[|trace| - 1].Some? ==> Jid(user, host) !in trace[|trace| - 1].value)
  {
    var calls := CallsOf(plan, o);
    match plan
    case Destroy => assert calls[0] in calls;
    case HandOver(heir) =>
      assert calls[0] in calls;
      if o.give.Works? { assert calls[1] in calls && calls[2] in calls; }
    case Leave => assert calls[0] in calls && calls[1] in calls;
  }

  /** What one call does to the room, and to nobody else in it: only the last makes the account leave, only a hand-over
      makes an owner, and only destroying ends the room. */
  lemma OthersStay(room: Room, plan: Plan, user: string, host: string, o: Outcomes)
    ensures var trace := Trace(room, plan, user, host, o);
      && (trace[|trace| - 1].None? <==> plan == Destroy && o.destroy != Fails)
      && (trace[|trace| - 1].Some? ==> forall j :: j != Jid(user, host) && !(plan.HandOver? && j == Jid(plan.heir, host)) ==>
           (j in trace[|trace| - 1].value <==> j in room) && (j in room ==> trace[|trace| - 1].value[j] == room[j]))
      && (plan.HandOver? && plan.heir != user && o.give != Fails ==>
           trace[|trace| - 1].Some? && Jid(plan.heir, host) in trace[|trace| - 1].value
           && trace[|trace| - 1].value[Jid(plan.heir, host)] == Owner)
      && (plan.HandOver? && o.give == Fails ==> trace == [Some(room)])
      && (plan == Leave && o.leave == Fails ==> trace[|trace| - 1] == Some(room))
  {
  }

  // ---- No room without an owner ----

  predicate Kept(state: Option<Room>) { state.Some? ==> HasOwner(state.value) }

  predicate AllKept(trace: seq<Option<Room>>) { forall state <- trace :: Kept(state) }

  /** The only owner is the account, and another entry with its username, further down the list, hides that. */
  ghost predicate Overlooked(room: Room, list: seq<Entry>, user: string, host: string) {
    && Jid(user, host) in room && (forall j <- room :: room[j] == Owner <==> j == Jid(user, host))
    && !OwnerFlag(list, user)
  }

  lemma OwnerElsewhere(room: Room, user: string, host: string, j: Jid, o: Outcome)
    requires j in room && room[j] == Owner && j != Jid(user, host)
    ensures HasOwner(Left(room, user, host, o))
  {
    assert j in Left(room, user, host, o);
  }

  lemma LeavingKeeps(room: Room, list: seq<Entry>, user: string, host: string, o: Outcome)
    requires Faithful(list, room) && HasOwner(room) && !Overlooked(room, list, user, host)
    requires !OwnerFlag(list, user) || OtherOwner(list, user)
    ensures HasOwner(Left(room, user, host, o))
  {
    if OwnerFlag(list, user) {
      var e :| e in list && e.jid.user != user && e.role == Owner;
      OwnerElsewhere(room, user, host, e.jid, o);
    } else {
      var j :| j in room && room[j] == Owner;
      if j == Jid(user, host) {
        j :| j in room && room[j] == Owner && j != Jid(user, host);
      }
      OwnerElsewhere(room, user, host, j, o);
    }
  }

  lemma NotOverlookedIsKept(room: Room, list: seq<Entry>, user: string, host: string, store: Store,
                            parse: string -> Float, o: Outcomes)
    requires Faithful(list, room) && HasOwner(room) && !Overlooked(room, list, user, host)
    ensures AllKept(Trace(room, PlanOf(list, user, store, parse), user, host, o))
  {
    match PlanOf(list, user, store, parse)
    case Destroy =>
    case HandOver(heir) =>
      HeirMayInherit(room, list, user, store, parse);
      var given := room[Jid(heir, host) := Owner];
      assert Jid(heir, host) in given;
      OwnerElsewhere(given, user, host, Jid(heir, host), o.leave);
    case Leave =>
      LeavingKeeps(room, list, user, host, o.leave);
  }

  /** Main result: whichever calls fail or are taken for failed, and wherever the run stops, a room that had an owner
      has one or is gone, exactly when the account's ownership was not overlooked. */
  lemma NeverOwnerless(room: Room, list: seq<Entry>, user: string, host: string, store: Store, parse: string -> Float)
    requires Faithful(list, room) && HasOwner(room)
    ensures (forall o: Outcomes :: AllKept(Trace(room, PlanOf(list, user, store, parse), user, host, o)))
            <==> !Overlooked(room, list, user, host)
  {
    if Overlooked(room, list, user, host) {
      var o := Outcomes(Works, Works, Works, Works);
      var trace := Trace(room, PlanOf(list, user, store, parse), user, host, o);
      assert trace[1] in trace && trace[1] == Some(room - {Jid(user, host)});
      assert !HasOwner(room - {Jid(user, host)});
      assert !AllKept(trace);
    } else {
      forall o: Outcomes ensures AllKept(Trace(room, PlanOf(list, user, store, parse), user, host, o)) {
        NotOverlookedIsKept(room, list, user, host, store, parse, o);
      }
    }
  }

  lemma {:induction false} FlagOfOne(list: seq<Entry>, user: string, e: Entry)
    requires e in list && e.jid.user == user && forall x <- list :: x.jid.user == user ==> x == e
    ensures OwnerFlag(list, user) <==> e.role == Owner
  {
    var n := |list| - 1;
    assert list[n] in list;
    if list[n].jid.user != user {
      assert e in list[..n];
      FlagOfOne(list[..n], user, e);
    }
  }

  /** An account with one affiliation in the room is never overlooked. */
  lemma OneAffiliationIsEnough(room: Room, list: seq<Entry>, user: string, host: string)
    requires Faithful(list, room)
    requires forall e, f :: e in list && f in list && e.jid.user == user == f.jid.user ==> e == f
    ensures !Overlooked(room, list, user, host)
  {
    if Jid(user, host) in room && room[Jid(user, host)] == Owner {
      var e :| e in list && e.jid == Jid(user, host);
      FlagOfOne(list, user, e);
    }
  }

  /** Two affiliations of one username are not enough: the second hides that the first owns the room. */
  lemma SecondAffiliationHidesTheOwner(store: Store, parse: string -> Float)
    ensures var room: Room := map[Jid("a", "here") := Owner, Jid("a", "else") := Member];
      var list := [Entry(Jid("a", "here"), Owner, ""), Entry(Jid("a", "else"), Member, "")];
      && Faithful(list, room) && PlanOf(list, "a", store, parse) == Leave
      && Overlooked(room, list, "a", "here")
      && !Kept(Some(Left(room, "a", "here", Works)))
  {
    var room: Room := map[Jid("a", "here") := Owner, Jid("a", "else") := Member];
    var list := [Entry(Jid("a", "here"), Owner, ""), Entry(Jid("a", "else"), Member, "")];
    assert list[0] in list && list[1] in list;
    assert !HasOwner(Left(room, "a", "here", Works));
  }

  /** An heir is a member or admin of the room, not the one who leaves and not a guest; and not away, unless the query for
      that failed. */
  lemma HeirMayInherit(room: Room, list: seq<Entry>, user: string, store: Store, parse: string -> Float)
    requires Faithful(list, room) && PlanOf(list, user, store, parse).HandOver?
    ensures var heir := PlanOf(list, user, store, parse).heir;
      && heir != user && !(GUEST_PREFIX <= heir)
      && exists j <- room :: j.user == heir && room[j] in {Member, Admin} && (heir in store.away ==> j in store.unread)
  {
    var cands := Cands(list, user, store, parse);
    SameElements(Sorted(Before, cands), cands);
    CandIsAMember(list, user, store, parse, Sorted(Before, cands)[0]);
    var e :| e in list && Inherits(e, user, store) && Sorted(Before, cands)[0] == Cand(e.jid.user, parse(e.reason));
    assert e.jid in room;
  }

  /** As in a room of the owner and one away member: it goes to that member exactly when the query fails, and is
      destroyed when it works. */
  lemma UnreadAwayInherits(user: string, other: string, host: string, store: Store, parse: string -> Float)
    requires other != user && other in store.away && !(GUEST_PREFIX <= other)
    ensures var list := [Entry(Jid(user, host), Owner, ""), Entry(Jid(other, host), Member, "")];
      PlanOf(list, user, store, parse) == if Jid(other, host) in store.unread then HandOver(other) else Destroy
  {
    var list := [Entry(Jid(user, host), Owner, ""), Entry(Jid(other, host), Member, "")];
    var one := [list[0]];
    assert list[..1] == one && one[..0] == [];
    assert OwnerFlag(one, user) && Cands(one, user, store, parse) == [];
    assert list[|list| - 1] == list[1] && list[..|list| - 1] == one;
    assert OwnerFlag(list, user) && !OtherOwner(list, user);
    var c := Cand(other, parse(""));
    assert Cands(list, user, store, parse) == if Inherits(list[1], user, store) then [] + [c] else [];
    assert [c][..0] == [] && Sorted(Before, [c]) == [c];
  }

  // ---- The plan, from the room ----

  predicate Owns(room: Room, user: string, host: string) { Jid(user, host) in room && room[Jid(user, host)] == Owner }

  predicate OwnedByOther(room: Room, user: string) { exists j :: j in room && j.user != user && room[j] == Owner }

  /** Somebody in the room who may inherit: a member or admin, no guest, and not found to be away. */
  predicate HasHeir(room: Room, user: string, store: Store) {
    exists j :: j in room && MayInherit(room, j, user, store)
  }

  predicate MayInherit(room: Room, j: Jid, user: string, store: Store)
    requires j in room
  {
    j.user != user && (room[j] == Member || room[j] == Admin) && !(GUEST_PREFIX <= j.user) && !(j.user in store.away && j !in store.unread)
  }

  lemma {:induction false} CandsFind(list: seq<Entry>, user: string, store: Store, parse: string -> Float, e: Entry)
    requires e in list && Inherits(e, user, store)
    ensures Cand(e.jid.user, parse(e.reason)) in Cands(list, user, store, parse)
  {
    var n := |list| - 1;
    assert list == list[..n] + [list[n]];
    if e != list[n] { CandsFind(list[..n], user, store, parse, e); }
  }

  /** Main result: for an account with one affiliation the plan follows the room, however it is listed: nothing is handed
      over unless the account is the only owner, and then the room is destroyed exactly when nobody may inherit. */
  lemma PlanFollowsTheRoom(room: Room, list: seq<Entry>, user: string, host: string, store: Store, parse: string -> Float)
    requires Faithful(list, room) && forall j <- room :: j.user == user ==> j.host == host
    requires forall e, f :: e in list && f in list && e.jid == f.jid ==> e == f
    ensures var plan := PlanOf(list, user, store, parse);
      && (plan == Leave <==> !Owns(room, user, host) || OwnedByOther(room, user))
      && (plan == Destroy <==> Owns(room, user, host) && !OwnedByOther(room, user) && !HasHeir(room, user, store))
  {
    FlagsFollow(room, list, user, host);
    HeirsFollow(room, list, user, store, parse);
  }

  lemma HeirsFollow(room: Room, list: seq<Entry>, user: string, store: Store, parse: string -> Float)
    requires Faithful(list, room)
    ensures Cands(list, user, store, parse) != [] <==> HasHeir(room, user, store)
  {
    var cands := Cands(list, user, store, parse);
    if cands != [] {
      CandIsAMember(list, user, store, parse, cands[0]);
      var e :| e in list && Inherits(e, user, store) && cands[0] == Cand(e.jid.user, parse(e.reason));
      assert MayInherit(room, e.jid, user, store);
    }
    if j :| j in room && MayInherit(room, j, user, store) {
      var e :| e in list && e.jid == j;
      CandsFind(list, user, store, parse, e);
    }
  }

  lemma FlagsFollow(room: Room, list: seq<Entry>, user: string, host: string)
    requires Faithful(list, room) && forall j <- room :: j.user == user ==> j.host == host
    requires forall e, f :: e in list && f in list && e.jid == f.jid ==> e == f
    ensures OwnerFlag(list, user) <==> Owns(room, user, host)
    ensures OtherOwner(list, user) <==> OwnedByOther(room, user)
  {
    if j :| j in room && j.user != user && room[j] == Owner {
      var e :| e in list && e.jid == j;
    }
    if e :| e in list && e.jid.user == user {
      FlagOfOne(list, user, e);
    } else {
      NoFlag(list, user);
      assert Jid(user, host) in room ==> exists e :: e in list && e.jid == Jid(user, host);
    }
  }

  lemma {:induction false} NoFlag(list: seq<Entry>, user: string)
    requires forall e <- list :: e.jid.user != user
    ensures !OwnerFlag(list, user)
  {
    if list != [] {
      assert list[|list| - 1] in list && forall e <- list[..|list| - 1] :: e in list;
      NoFlag(list[..|list| - 1], user);
    }
  }
}
