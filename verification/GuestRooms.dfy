/** guest.go and store/ext.go: who is in a room open to people outside, whatever joins, leaves and deletions interleave. */
module GuestRooms {
  import opened Text

  const MAX_GUESTS := 10

  /** A row of ext_guests. */
  datatype Guest = Guest(id: string, room: string, name: string, nick: string, removed: bool)

  // ---- Nicks ----

  predicate FirstChar(c: char) { 'a' <= c <= 'z' || '0' <= c <= '9' }

  /** ^[a-z0-9][a-z0-9._-]*$ */
  predicate UsernameForm(s: string) {
    s != "" && FirstChar(s[0]) && forall c <- s :: FirstChar(c) || c in "._-"
  }

  const MARK := " ·"

  function Digits(n: nat): (r: string)
    ensures r != "" && forall c <- r :: '0' <= c <= '9'
  {
    var d := ['0' + (n % 10) as char];
    if n < 10 then d else Digits(n / 10) + d
  }

  lemma TwoDigits(n: nat)
    ensures |Digits(n)| >= 2 <==> n >= 10
  {
    if n >= 10 { assert |Digits(n)| == |Digits(n / 10)| + 1; }
  }

  lemma {:induction false} DigitsInjective(m: nat, n: nat)
    requires Digits(m) == Digits(n)
    ensures m == n
  {
    var r := Digits(m);
    assert r[|r| - 1] == '0' + (m % 10) as char == '0' + (n % 10) as char;
    assert m % 10 == n % 10;
    if m >= 10 && n >= 10 {
      assert r[..|r| - 1] == Digits(m / 10) == Digits(n / 10);
      DigitsInjective(m / 10, n / 10);
    } else {
      TwoDigits(m);
      TwoDigits(n);
    }
  }

  function Marked(name: string): string { if UsernameForm(name) then name + MARK else name }

  function Numbered(name: string, i: nat): string { name + (" " + Digits(i)) }

  lemma NumberedInjective(name: string, i: nat, k: nat)
    requires Numbered(name, i) == Numbered(name, k)
    ensures i == k
  {
    assert Numbered(name, i)[|name| + 1..] == Digits(i);
    assert Numbered(name, k)[|name| + 1..] == Digits(k);
    DigitsInjective(i, k);
  }

  /** The marked name, or the name with the least number from 2 on, whichever is free first. */
  ghost predicate IsNick(name: string, taken: set<string>, nick: string) {
    && nick !in taken
    && (nick == Marked(name)
        || (Marked(name) in taken
            && exists i: nat :: i >= 2 && nick == Numbered(name, i) && forall k: nat :: 2 <= k < i ==> Numbered(name, k) in taken))
  }

  /** guestNick; the loop ends, as each round takes another nick from those taken. */
  method GuestNick(name: string, taken: set<string>) returns (nick: string)
    ensures IsNick(name, taken, nick)
  {
    nick := Marked(name);
    var i: nat := 2;
    ghost var tried: set<string> := {};
    while nick in taken
      invariant i >= 2 && tried <= taken
      invariant tried == set k: nat | 2 <= k < i - 1 :: Numbered(name, k)
      invariant i == 2 ==> nick == Marked(name)
      invariant i > 2 ==> nick == Numbered(name, i - 1) && Marked(name) in taken
      invariant forall k: nat :: 2 <= k < i - 1 ==> Numbered(name, k) in taken
      decreases i == 2, taken - tried
    {
      if i > 2 {
        if k: nat :| 2 <= k < i - 1 && Numbered(name, k) == nick { NumberedInjective(name, k, i - 1); }
        assert nick !in tried;
        tried := tried + {nick};
      }
      nick := Numbered(name, i);
      i := i + 1;
    }
  }

  /** There is one such nick only. */
  lemma NickIsUnique(name: string, taken: set<string>, a: string, b: string)
    requires IsNick(name, taken, a) && IsNick(name, taken, b)
    ensures a == b
  {
    if Marked(name) in taken {
      var i: nat :| i >= 2 && a == Numbered(name, i) && forall k: nat :: 2 <= k < i ==> Numbered(name, k) in taken;
      var j: nat :| j >= 2 && b == Numbered(name, j) && forall k: nat :: 2 <= k < j ==> Numbered(name, k) in taken;
    }
  }

  /** Nobody reads it as an operator's username. */
  lemma NickIsNoUsername(name: string, taken: set<string>, nick: string)
    requires IsNick(name, taken, nick)
    ensures !UsernameForm(nick)
  {
    if nick == name + MARK {
      assert nick[|name|] == ' ' && ' ' in nick;
    } else if nick != name {
      var i: nat :| nick == Numbered(name, i);
      assert nick[|name|] == ' ' && ' ' in nick;
    }
  }

  // ---- The check of a join ----

  /** What EqualFold compares: equal folds are names equal up to case. */
  type Fold = string -> string

  predicate ClashesWith(g: Guest, name: string, fold: Fold) { fold(g.name) == fold(name) || fold(g.nick) == fold(name) }

  predicate Clashes(list: seq<Guest>, name: string, fold: Fold) { exists g <- list :: ClashesWith(g, name, fold) }

  function ActiveCount(list: seq<Guest>): nat {
    if list == [] then 0 else ActiveCount(list[..|list| - 1]) + if list[|list| - 1].removed then 0 else 1
  }

  function Nicks(list: seq<Guest>): set<string> { set g | g in list :: g.nick }

  datatype Verdict = Free | NameTaken | Full

  function VerdictOf(list: seq<Guest>, name: string, fold: Fold): Verdict {
    if Clashes(list, name, fold) then NameTaken else if ActiveCount(list) >= MAX_GUESTS then Full else Free
  }

  /** The loop of joinGuest over the guests of the room. */
  method CheckJoin(list: seq<Guest>, name: string, fold: Fold) returns (verdict: Verdict, taken: set<string>)
    ensures verdict == VerdictOf(list, name, fold) && (verdict == Free ==> taken == Nicks(list))
  {
    taken := {};
    var active := 0;
    for i := 0 to |list|
      invariant taken == Nicks(list[..i]) && active == ActiveCount(list[..i]) && !Clashes(list[..i], name, fold)
    {
      assert list[..i + 1][..i] == list[..i] && list[..i + 1] == list[..i] + [list[i]];
      taken := taken + {list[i].nick};
      if !list[i].removed { active := active + 1; }
      if ClashesWith(list[i], name, fold) { return NameTaken, taken; }
    }
    assert list[..|list|] == list;
    verdict := if active >= MAX_GUESTS then Full else Free;
  }

  // ---- The tables ----

  function InRoom(guests: seq<Guest>, room: string): seq<Guest> {
    if guests == [] then []
    else
      var g := guests[|guests| - 1];
      InRoom(guests[..|guests| - 1], room) + if g.room == room then [g] else []
  }

  function WithRemoved(guests: seq<Guest>, id: string): (r: seq<Guest>)
    ensures |r| == |guests|
    ensures forall i :: 0 <= i < |guests| ==> r[i] == if guests[i].id == id then guests[i].(removed := true) else guests[i]
  {
    seq(|guests|, i requires 0 <= i < |guests| => if guests[i].id == id then guests[i].(removed := true) else guests[i])
  }

  function OutsideRoom(guests: seq<Guest>, room: string): seq<Guest> {
    if guests == [] then []
    else
      var g := guests[|guests| - 1];
      OutsideRoom(guests[..|guests| - 1], room) + if g.room == room then [] else [g]
  }

  lemma InRoomMore(guests: seq<Guest>, g: Guest, room: string)
    ensures InRoom(guests + [g], room) == InRoom(guests, room) + if g.room == room then [g] else []
  {
    assert (guests + [g])[..|guests|] == guests;
  }

  lemma {:induction false} InRoomHas(guests: seq<Guest>, room: string, g: Guest)
    ensures g in InRoom(guests, room) <==> g in guests && g.room == room
  {
    if guests != [] {
      InRoomHas(guests[..|guests| - 1], room, g);
      assert guests == guests[..|guests| - 1] + [guests[|guests| - 1]];
    }
  }

  lemma {:induction false} InRoomRemoved(guests: seq<Guest>, id: string, room: string)
    ensures InRoom(WithRemoved(guests, id), room) == WithRemoved(InRoom(guests, room), id)
  {
    if guests != [] {
      var n := |guests| - 1;
      InRoomRemoved(guests[..n], id, room);
      assert WithRemoved(guests, id)[..n] == WithRemoved(guests[..n], id);
    }
  }

  lemma {:induction false} InRoomOutside(guests: seq<Guest>, gone: string, room: string)
    ensures InRoom(OutsideRoom(guests, gone), room) == if room == gone then [] else InRoom(guests, room)
  {
    if guests != [] {
      var n := |guests| - 1;
      var front := OutsideRoom(guests[..n], gone);
      InRoomOutside(guests[..n], gone, room);
      InRoomMore(front, guests[n], room);
      Unit(front);
      Unit(InRoom(guests[..n], room));
    }
  }

  lemma {:induction false} OutsideHas(guests: seq<Guest>, room: string, g: Guest)
    ensures g in OutsideRoom(guests, room) <==> g in guests && g.room != room
  {
    if guests != [] {
      OutsideHas(guests[..|guests| - 1], room, g);
      assert guests == guests[..|guests| - 1] + [guests[|guests| - 1]];
    }
  }

  lemma {:induction false} ActiveRemoved(list: seq<Guest>, id: string)
    ensures ActiveCount(WithRemoved(list, id)) <= ActiveCount(list)
  {
    if list != [] {
      var n := |list| - 1;
      ActiveRemoved(list[..n], id);
      assert WithRemoved(list, id)[..n] == WithRemoved(list[..n], id);
    }
  }

  // ---- The protocol ----

  datatype ExtRoom = ExtRoom(expires: int, revoked: bool)

  /** A join that holds the room's lock: it checked the names, and will put its row. */
  datatype Pending = Pending(id: string, name: string, nick: string)

  /** The two tables, the joins in progress by room, the requests a link let in; and, of the past, the ids given out
      and the rooms whose link was found open. */
  datatype State = State(guests: seq<Guest>, rooms: map<string, ExtRoom>, pending: map<string, Pending>,
                         letIn: map<nat, string>, used: set<string>, wasOpen: set<string>)

  datatype Event =
    | PutRoom(room: string, expires: int)
    | NewLink(room: string, expires: int)
    | Revoke(room: string)
    | Open(request: nat, room: string, now: int)
    | Begin(request: nat, name: string, id: string, nick: string)
    | Commit(room: string)
    | Abandon(room: string)
    | Remove(id: string)
    | DropGuests(room: string)
    | DropRoom(room: string)
    | Restart

  predicate IsOpen(s: State, room: string, now: int) {
    room in s.rooms && !s.rooms[room].revoked && now <= s.rooms[room].expires
  }

  /** When an event can happen. Ids are fresh; a join begins with the room's lock, which nobody holds. */
  ghost predicate CanHappen(s: State, e: Event, fold: Fold) {
    match e
    case PutRoom(room, _) => room !in s.rooms
    case Open(_, room, now) => IsOpen(s, room, now)
    case Begin(request, name, id, nick) =>
      && request in s.letIn && s.letIn[request] !in s.pending && id !in s.used
      && VerdictOf(InRoom(s.guests, s.letIn[request]), name, fold) == Free
      && IsNick(name, Nicks(InRoom(s.guests, s.letIn[request])), nick)
    case Commit(room) => room in s.pending
    case Abandon(room) => room in s.pending
    case _ => true
  }

  function Apply(s: State, e: Event): State {
    match e
    case PutRoom(room, expires) => s.(rooms := s.rooms[room := ExtRoom(expires, false)])
    case NewLink(room, expires) => if room in s.rooms then s.(rooms := s.rooms[room := ExtRoom(expires, false)]) else s
    case Revoke(room) => if room in s.rooms then s.(rooms := s.rooms[room := s.rooms[room].(revoked := true)]) else s
    case Open(request, room, _) => s.(letIn := s.letIn[request := room], wasOpen := s.wasOpen + {room})
    case Begin(request, name, id, nick) =>
      if request !in s.letIn then s
      else s.(pending := s.pending[s.letIn[request] := Pending(id, name, nick)], used := s.used + {id},
              letIn := s.letIn - {request})
    case Commit(room) =>
      if room !in s.pending then s
      else
        var p := s.pending[room];
        s.(guests := s.guests + [Guest(p.id, room, p.name, p.nick, false)], pending := s.pending - {room})
    case Abandon(room) => s.(pending := s.pending - {room})
    case Remove(id) => s.(guests := WithRemoved(s.guests, id))
    case DropGuests(room) => s.(guests := OutsideRoom(s.guests, room))
    case DropRoom(room) => s.(rooms := s.rooms - {room})
    case Restart => s.(pending := map[], letIn := map[])
  }

  // ---- What every run keeps ----

  predicate Different(a: Guest, b: Guest, fold: Fold) {
    && a.id != b.id && a.nick != b.nick && fold(a.name) != fold(b.name)
    && a.nick != b.name && b.nick != a.name
  }

  /** A nick is the name itself, unless that could be a username. */
  predicate Fits(name: string, nick: string) { !UsernameForm(nick) && (UsernameForm(name) || nick == name) }

  /** A room: the cap; ids, nicks and names all different, removed guests included, and no nick another's name;
      no nick like a username. */
  ghost predicate RoomOk(list: seq<Guest>, fold: Fold) {
    && ActiveCount(list) <= MAX_GUESTS
    && (forall i, j :: 0 <= i < j < |list| ==> Different(list[i], list[j], fold))
    && (forall g <- list :: Fits(g.name, g.nick))
  }

  predicate Apart(g: Guest, p: Pending, fold: Fold) { Different(g, Guest(p.id, g.room, p.name, p.nick, false), fold) }

  /** A join in progress: still fit to be put. */
  ghost predicate PendingOk(list: seq<Guest>, p: Pending, fold: Fold) {
    && ActiveCount(list) < MAX_GUESTS && Fits(p.name, p.nick)
    && (forall g <- list :: Apart(g, p, fold))
  }

  ghost predicate RoomInv(s: State, room: string, fold: Fold) {
    && RoomOk(InRoom(s.guests, room), fold)
    && (room in s.pending ==> PendingOk(InRoom(s.guests, room), s.pending[room], fold))
  }

  ghost predicate Inv(s: State, fold: Fold) { IdsOk(s) && forall room :: RoomInv(s, room, fold) }

  /** Ids were given out, and those of joins in progress to nobody else; nobody joins a room whose link was never open. */
  ghost predicate IdsOk(s: State) {
    && (forall g <- s.guests :: g.id in s.used && g.room in s.wasOpen)
    && (forall room <- s.pending :: s.pending[room].id in s.used && room in s.wasOpen)
    && (forall request <- s.letIn :: s.letIn[request] in s.wasOpen)
    && (forall room <- s.pending :: forall g <- s.guests :: g.id != s.pending[room].id)
    && (forall room, other :: room in s.pending && other in s.pending && room != other ==> s.pending[room].id != s.pending[other].id)
  }

  lemma RoomOkMore(list: seq<Guest>, g: Guest, fold: Fold)
    requires RoomOk(list, fold) && PendingOk(list, Pending(g.id, g.name, g.nick), fold) && !g.removed
    ensures RoomOk(list + [g], fold)
  {
    var more := list + [g];
    assert more[..|list|] == list;
    forall i, j | 0 <= i < j < |more| ensures Different(more[i], more[j], fold) {
      if j == |list| { assert list[i] in list; }
    }
  }

  lemma RoomOkRemoved(list: seq<Guest>, id: string, fold: Fold)
    requires RoomOk(list, fold)
    ensures RoomOk(WithRemoved(list, id), fold)
  {
    ActiveRemoved(list, id);
    var after := WithRemoved(list, id);
    forall i, j | 0 <= i < j < |after| ensures Different(after[i], after[j], fold) {
      assert Different(list[i], list[j], fold);
    }
    forall g | g in after ensures Fits(g.name, g.nick) {
      var i :| 0 <= i < |after| && after[i] == g;
      assert list[i] in list;
    }
  }

  lemma PendingOkRemoved(list: seq<Guest>, id: string, p: Pending, fold: Fold)
    requires PendingOk(list, p, fold)
    ensures PendingOk(WithRemoved(list, id), p, fold)
  {
    ActiveRemoved(list, id);
    var after := WithRemoved(list, id);
    forall g | g in after ensures Apart(g, p, fold) {
      var i :| 0 <= i < |after| && after[i] == g;
      assert list[i] in list && Apart(list[i], p, fold);
    }
  }

  /** A name that is no username is free as a nick, else it had clashed. */
  lemma NickFits(list: seq<Guest>, name: string, nick: string, fold: Fold)
    requires !Clashes(list, name, fold) && IsNick(name, Nicks(list), nick)
    ensures Fits(name, nick)
  {
    NickIsNoUsername(name, Nicks(list), nick);
    forall g | g in list ensures g.nick != name { assert !ClashesWith(g, name, fold); }
  }

  lemma NickIsApart(list: seq<Guest>, g: Guest, name: string, nick: string, fold: Fold)
    requires g in list && Fits(g.name, g.nick) && !Clashes(list, name, fold) && IsNick(name, Nicks(list), nick)
    ensures g.nick != nick && fold(g.name) != fold(name) && g.nick != name && g.name != nick
  {
    assert !ClashesWith(g, name, fold);
    assert g.nick in Nicks(list);
    NickIsNoUsername(name, Nicks(list), nick);
  }

  lemma {:induction false} BeginKeepsRoom(s: State, e: Event, fold: Fold)
    requires Inv(s, fold) && e.Begin? && CanHappen(s, e, fold)
    ensures RoomInv(Apply(s, e), s.letIn[e.request], fold)
  {
    var room := s.letIn[e.request];
    var list := InRoom(s.guests, room);
    assert RoomInv(s, room, fold);
    NickFits(list, e.name, e.nick, fold);
    forall g | g in list ensures Apart(g, Pending(e.id, e.name, e.nick), fold) {
      InRoomHas(s.guests, room, g);
      NickIsApart(list, g, e.name, e.nick, fold);
    }
    assert PendingOk(list, Pending(e.id, e.name, e.nick), fold);
  }

  lemma {:induction false} CommitKeepsRoom(s: State, e: Event, fold: Fold, room: string)
    requires RoomInv(s, room, fold) && e.Commit? && CanHappen(s, e, fold)
    ensures RoomInv(Apply(s, e), room, fold)
  {
    var p := s.pending[e.room];
    var g := Guest(p.id, e.room, p.name, p.nick, false);
    InRoomMore(s.guests, g, room);
    if room == e.room {
      RoomOkMore(InRoom(s.guests, room), g, fold);
    } else {
      Unit(InRoom(s.guests, room));
    }
  }

  lemma {:induction false} RemoveKeepsRoom(s: State, e: Event, fold: Fold, room: string)
    requires RoomInv(s, room, fold) && e.Remove?
    ensures RoomInv(Apply(s, e), room, fold)
  {
    InRoomRemoved(s.guests, e.id, room);
    RoomOkRemoved(InRoom(s.guests, room), e.id, fold);
    if room in s.pending { PendingOkRemoved(InRoom(s.guests, room), e.id, s.pending[room], fold); }
  }

  lemma {:induction false} DropKeepsRoom(s: State, e: Event, fold: Fold, room: string)
    requires RoomInv(s, room, fold) && e.DropGuests?
    ensures RoomInv(Apply(s, e), room, fold)
  {
    InRoomOutside(s.guests, e.room, room);
    if room == e.room {
      assert InRoom(Apply(s, e).guests, room) == [];
    } else {
      assert InRoom(Apply(s, e).guests, room) == InRoom(s.guests, room);
    }
  }

  lemma {:induction false} StepKeepsRoom(s: State, e: Event, fold: Fold, room: string)
    requires Inv(s, fold) && CanHappen(s, e, fold)
    ensures RoomInv(Apply(s, e), room, fold)
  {
    assert RoomInv(s, room, fold);
    match e
    case Begin(request, _, _, _) => if room == s.letIn[request] { BeginKeepsRoom(s, e, fold); }
    case Commit(_) => CommitKeepsRoom(s, e, fold, room);
    case Remove(_) => RemoveKeepsRoom(s, e, fold, room);
    case DropGuests(_) => DropKeepsRoom(s, e, fold, room);
    case _ =>
  }

  lemma RowsKeepIds(s: State, guests: seq<Guest>)
    requires IdsOk(s) && forall g <- guests :: exists h <- s.guests :: h.id == g.id && h.room == g.room
    ensures IdsOk(s.(guests := guests))
  {
  }

  lemma {:induction false} StepKeepsIds(s: State, e: Event, fold: Fold)
    requires IdsOk(s) && CanHappen(s, e, fold)
    ensures IdsOk(Apply(s, e))
  {
    match e
    case DropGuests(room) =>
      forall g | g in OutsideRoom(s.guests, room) ensures exists h <- s.guests :: h.id == g.id && h.room == g.room {
        OutsideHas(s.guests, room, g);
      }
      RowsKeepIds(s, OutsideRoom(s.guests, room));
    case Remove(id) =>
      var after := WithRemoved(s.guests, id);
      forall g | g in after ensures exists h <- s.guests :: h.id == g.id && h.room == g.room {
        var i :| 0 <= i < |after| && after[i] == g;
        assert s.guests[i] in s.guests;
      }
      RowsKeepIds(s, after);
    case Commit(room) => CommitKeepsIds(s, room);
    case _ =>
  }

  lemma CommitKeepsIds(s: State, room: string)
    requires IdsOk(s) && room in s.pending
    ensures IdsOk(Apply(s, Commit(room)))
  {
  }

  lemma {:induction false} StepKeepsInv(s: State, e: Event, fold: Fold)
    requires Inv(s, fold) && CanHappen(s, e, fold)
    ensures Inv(Apply(s, e), fold)
  {
    StepKeepsIds(s, e, fold);
    forall room ensures RoomInv(Apply(s, e), room, fold) { StepKeepsRoom(s, e, fold, room); }
  }

  function Run(s: State, es: seq<Event>): State
    decreases |es|
  {
    if es == [] then s else Run(Apply(s, es[0]), es[1..])
  }

  ghost predicate CanRun(s: State, es: seq<Event>, fold: Fold)
    decreases |es|
  {
    es == [] || (CanHappen(s, es[0], fold) && CanRun(Apply(s, es[0]), es[1..], fold))
  }

  const EMPTY := State([], map[], map[], map[], {}, {})

  lemma {:induction false} RunKeepsInv(s: State, es: seq<Event>, fold: Fold)
    requires Inv(s, fold) && CanRun(s, es, fold)
    ensures Inv(Run(s, es), fold)
    decreases |es|
  {
    if es != [] {
      StepKeepsInv(s, es[0], fold);
      RunKeepsInv(Apply(s, es[0]), es[1..], fold);
    }
  }

  lemma EmptyIsOk(fold: Fold)
    ensures Inv(EMPTY, fold)
  {
    assert forall room :: InRoom([], room) == [];
  }

  /** The places of a room's active guests in the table. */
  function ActivePlaces(guests: seq<Guest>, room: string): set<nat> {
    set i: nat | i < |guests| && guests[i].room == room && !guests[i].removed
  }

  lemma {:induction false} ActiveAre(guests: seq<Guest>, room: string)
    ensures ActiveCount(InRoom(guests, room)) == |ActivePlaces(guests, room)|
  {
    if guests != [] {
      var n := |guests| - 1;
      var before, g := InRoom(guests[..n], room), guests[n];
      ActiveAre(guests[..n], room);
      assert ActivePlaces(guests, room) == ActivePlaces(guests[..n], room) + if g.room == room && !g.removed then {n} else {};
      if g.room == room {
        assert (before + [g])[..|before|] == before;
      } else {
        Unit(before);
      }
    }
  }

  /** Two guests of a room are two of its listing. */
  lemma {:induction false} TwoInRoom(guests: seq<Guest>, room: string, i: nat, j: nat) returns (a: nat, b: nat)
    requires i < j < |guests| && guests[i].room == room && guests[j].room == room
    ensures var list := InRoom(guests, room); a < b < |list| && list[a] == guests[i] && list[b] == guests[j]
  {
    var n := |guests| - 1;
    var before := InRoom(guests[..n], room);
    if j < n {
      a, b := TwoInRoom(guests[..n], room, i, j);
    } else {
      InRoomHas(guests[..n], room, guests[i]);
      assert guests[..n][i] == guests[i];
      a :| 0 <= a < |before| && before[a] == guests[i];
      b := |before|;
    }
  }

  /** A join is refused exactly for a name that is, up to case, the name or nick of a guest of the room, and when ten are
      active in it. */
  lemma RefusedExactly(guests: seq<Guest>, room: string, name: string, fold: Fold)
    ensures VerdictOf(InRoom(guests, room), name, fold) == NameTaken
            <==> exists g <- guests :: g.room == room && (fold(g.name) == fold(name) || fold(g.nick) == fold(name))
    ensures VerdictOf(InRoom(guests, room), name, fold) == Full
            <==> && |ActivePlaces(guests, room)| >= 10
                 && forall g <- guests :: g.room == room ==> fold(g.name) != fold(name) && fold(g.nick) != fold(name)
  {
    ActiveAre(guests, room);
    forall g ensures g in InRoom(guests, room) <==> g in guests && g.room == room { InRoomHas(guests, room, g); }
  }

  /** Main result: over every run, whatever happens between the two halves of a join, no room has more than ten active
      guests, two guests with one nick or one name up to case, or a nick that could be an operator's username. */
  lemma RulesHold(es: seq<Event>, fold: Fold, room: string)
    requires CanRun(EMPTY, es, fold)
    ensures var guests := Run(EMPTY, es).guests;
      && |ActivePlaces(guests, room)| <= 10
      && (forall i, j :: 0 <= i < j < |guests| && guests[i].room == room && guests[j].room == room ==>
            && guests[i].id != guests[j].id && guests[i].nick != guests[j].nick && fold(guests[i].name) != fold(guests[j].name)
            && guests[i].nick != guests[j].name && guests[j].nick != guests[i].name)
      && (forall g <- guests :: g.room == room ==> !UsernameForm(g.nick))
    ensures forall g <- Run(EMPTY, es).guests :: g.room in Run(EMPTY, es).wasOpen
  {
    var guests := Run(EMPTY, es).guests;
    EmptyIsOk(fold);
    RunKeepsInv(EMPTY, es, fold);
    assert RoomInv(Run(EMPTY, es), room, fold);
    ActiveAre(guests, room);
    forall i, j | 0 <= i < j < |guests| && guests[i].room == room && guests[j].room == room
      ensures Different(guests[i], guests[j], fold)
    {
      var a, b := TwoInRoom(guests, room, i, j);
      assert Different(InRoom(guests, room)[a], InRoom(guests, room)[b], fold);
    }
    forall g | g in guests && g.room == room ensures Fits(g.name, g.nick) { InRoomHas(guests, room, g); }
  }

  /** What an event does to the table: a join's end puts its row or none, and frees the room; a removal marks the rows of
      that id, and a room that goes takes its guests; every other row stays as it is. */
  lemma RowsChange(s: State, e: Event, g: Guest)
    ensures var s' := Apply(s, e);
      && (e.Commit? && e.room in s.pending ==>
            var p := s.pending[e.room];
            e.room !in s'.pending && s'.guests == s.guests + [Guest(p.id, e.room, p.name, p.nick, false)])
      && (e.Abandon? ==> e.room !in s'.pending && s'.guests == s.guests)
      && (e.Remove? ==>
            (g in s'.guests <==> if g.id == e.id then exists h <- s.guests :: h.(removed := true) == g else g in s.guests))
      && (e.DropGuests? ==> (g in s'.guests <==> g in s.guests && g.room != e.room))
      && (!e.Commit? && !e.Remove? && !e.DropGuests? ==> s'.guests == s.guests)
  {
    if e.Remove? {
      var rows := WithRemoved(s.guests, e.id);
      if g in rows {
        var i :| 0 <= i < |rows| && rows[i] == g;
        assert s.guests[i] in s.guests;
      }
      if g.id == e.id {
        if h :| h in s.guests && h.(removed := true) == g {
          var i :| 0 <= i < |s.guests| && s.guests[i] == h;
          assert rows[i] == g;
        }
      } else if g in s.guests {
        var i :| 0 <= i < |s.guests| && s.guests[i] == g;
        assert rows[i] == g;
      }
    } else if e.DropGuests? {
      OutsideHas(s.guests, e.room, g);
    }
  }

  /** Joins of one room come one after the other: as long as one is in progress no other begins, and it stays what it was
      checked to be until it ends or the gateway restarts. */
  lemma OneJoinAtATime(s: State, e: Event, room: string, fold: Fold)
    requires room in s.pending && CanHappen(s, e, fold)
    ensures e.Begin? ==> e.request in s.letIn && s.letIn[e.request] != room
    ensures e != Commit(room) && e != Abandon(room) && !e.Restart? ==>
              room in Apply(s, e).pending && Apply(s, e).pending[room] == s.pending[room]
  {
  }

  /** The nick of a join differs from every nick of the room, removed guests' too, and not in case only. */
  predicate ApartUpToCase(list: seq<Guest>, nick: string, fold: Fold) { forall g <- list :: fold(g.nick) != fold(nick) }

  ghost predicate AlwaysApart(name: string, fold: Fold) {
    forall list, nick :: VerdictOf(list, name, fold) == Free && IsNick(name, Nicks(list), nick) ==> ApartUpToCase(list, nick, fold)
  }

  lemma OneGuest(g: Guest, name: string, fold: Fold)
    requires !ClashesWith(g, name, fold)
    ensures VerdictOf([g], name, fold) == Free && Nicks([g]) == {g.nick}
  {
    assert [g][..0] == [] && ActiveCount([g]) <= 1;
  }

  /** A nick that some room may make of the name. */
  ghost predicate Possible(name: string, nick: string) {
    nick == Marked(name) || (UsernameForm(name) && exists i: nat :: i >= 2 && nick == Numbered(name, i))
  }

  /** Some other text differs from the nick in case only. */
  ghost predicate HasVariant(nick: string, fold: Fold) { exists x: string :: x != nick && fold(x) == fold(nick) }

  /** EqualFold compares rune by rune: only texts of one length are equal. */
  ghost predicate KeepsLength(fold: Fold) { forall a: string, b: string :: fold(a) == fold(b) ==> |a| == |b| }

  function GoneGuest(nick: string): Guest { Guest("", "", nick, nick, true) }

  /** Guests gone, whose nicks take the marked form, the numbers up to i, and x. */
  function Takers(name: string, i: nat, x: string): (list: seq<Guest>)
    ensures list != [] && list[|list| - 1] == GoneGuest(x)
  {
    if i < 2 then [GoneGuest(Marked(name)), GoneGuest(x)] else [GoneGuest(Numbered(name, i))] + Takers(name, i - 1, x)
  }

  function TakenBy(name: string, i: nat, x: string): set<string> {
    if i < 2 then {Marked(name), x} else {Numbered(name, i)} + TakenBy(name, i - 1, x)
  }

  lemma {:induction false} TakersAre(name: string, i: nat, x: string)
    ensures Nicks(Takers(name, i, x)) == TakenBy(name, i, x)
    ensures forall g <- Takers(name, i, x) :: g == GoneGuest(g.nick) && g.nick in TakenBy(name, i, x)
  {
    var list := Takers(name, i, x);
    if i < 2 {
      assert list[0] in list && list[1] in list;
    } else {
      TakersAre(name, i - 1, x);
      var rest := Takers(name, i - 1, x);
      assert list[0] in list && forall g <- rest :: g in list;
      assert forall u :: u in Nicks(list) <==> u == Numbered(name, i) || u in Nicks(rest);
    }
  }

  lemma {:induction false} TakenIs(name: string, i: nat, x: string)
    ensures Marked(name) in TakenBy(name, i, x) && x in TakenBy(name, i, x)
    ensures forall k: nat :: 2 <= k <= i ==> Numbered(name, k) in TakenBy(name, i, x)
    ensures forall u <- TakenBy(name, i, x) :: u == Marked(name) || u == x || exists k: nat :: 2 <= k <= i && u == Numbered(name, k)
  {
    if i >= 2 { TakenIs(name, i - 1, x); }
  }

  lemma MarkedIsNotNumbered(name: string, i: nat)
    requires UsernameForm(name)
    ensures Marked(name) != Numbered(name, i) && |Marked(name)| > |name| && |Numbered(name, i)| > |name|
  {
    assert Marked(name)[|name| + 1] == '·';
    assert Numbered(name, i)[|name| + 1] == Digits(i)[0] && Digits(i)[0] in Digits(i);
  }

  /** A room in which the name gets this nick, although a guest has it up to case. */
  lemma NotAlwaysApart(list: seq<Guest>, name: string, nick: string, k: nat, fold: Fold)
    requires VerdictOf(list, name, fold) == Free && IsNick(name, Nicks(list), nick)
    requires k < |list| && fold(list[k].nick) == fold(nick)
    ensures !AlwaysApart(name, fold)
  {
    NotApart(list, k, nick, fold);
  }

  lemma MarkedClashes(name: string, x: string, fold: Fold)
    requires UsernameForm(name) && x != Marked(name) && fold(x) == fold(Marked(name)) && KeepsLength(fold)
    ensures !AlwaysApart(name, fold)
  {
    var g := GoneGuest(x);
    MarkedIsNotNumbered(name, 2);
    assert |x| == |Marked(name)|;
    OneGuest(g, name, fold);
    NotAlwaysApart([g], name, Marked(name), 0, fold);
  }

  lemma {:induction false} NumberedClashes(name: string, i: nat, x: string, fold: Fold)
    requires UsernameForm(name) && i >= 2 && x != Numbered(name, i) && fold(x) == fold(Numbered(name, i)) && KeepsLength(fold)
    ensures !AlwaysApart(name, fold)
  {
    var list := Takers(name, i - 1, x);
    LongerVariant(name, i, x, fold);
    TakersFree(name, i - 1, x, fold);
    TakersTake(name, i, x);
    NotAlwaysApart(list, name, Numbered(name, i), |list| - 1, fold);
  }

  lemma LongerVariant(name: string, i: nat, x: string, fold: Fold)
    requires UsernameForm(name) && fold(x) == fold(Numbered(name, i)) && KeepsLength(fold)
    ensures |x| > |name|
  {
    MarkedIsNotNumbered(name, i);
    assert |x| == |Numbered(name, i)|;
  }

  lemma NotApart(list: seq<Guest>, k: nat, nick: string, fold: Fold)
    requires k < |list| && fold(list[k].nick) == fold(nick)
    ensures !ApartUpToCase(list, nick, fold)
  {
    assert list[k] in list;
  }

  lemma {:induction false} GoneAreFree(list: seq<Guest>, name: string, fold: Fold)
    requires forall g <- list :: g.removed && !ClashesWith(g, name, fold)
    ensures VerdictOf(list, name, fold) == Free
  {
    NoneActive(list);
  }

  lemma {:induction false} NoneActive(list: seq<Guest>)
    requires forall g <- list :: g.removed
    ensures ActiveCount(list) == 0
  {
    if list != [] {
      assert list[|list| - 1] in list && forall g <- list[..|list| - 1] :: g in list;
      NoneActive(list[..|list| - 1]);
    }
  }

  lemma {:induction false} TakersFree(name: string, i: nat, x: string, fold: Fold)
    requires UsernameForm(name) && KeepsLength(fold) && |x| > |name|
    ensures VerdictOf(Takers(name, i, x), name, fold) == Free
  {
    TakersAre(name, i, x);
    forall g | g in Takers(name, i, x) ensures g.removed && !ClashesWith(g, name, fold) {
      LongerNick(name, i, x, g.nick);
    }
    GoneAreFree(Takers(name, i, x), name, fold);
  }

  lemma {:induction false} LongerNick(name: string, i: nat, x: string, nick: string)
    requires UsernameForm(name) && |x| > |name| && nick in TakenBy(name, i, x)
    ensures |nick| > |name|
  {
    MarkedIsNotNumbered(name, i);
    if i >= 2 && nick != Numbered(name, i) { LongerNick(name, i - 1, x, nick); }
  }

  lemma {:induction false} TakersTake(name: string, i: nat, x: string)
    requires UsernameForm(name) && i >= 2 && x != Numbered(name, i)
    ensures IsNick(name, Nicks(Takers(name, i - 1, x)), Numbered(name, i))
  {
    TakersAre(name, i - 1, x);
    TakenIs(name, i - 1, x);
    MarkedIsNotNumbered(name, i);
    if k: nat :| 2 <= k <= i - 1 && Numbered(name, i) == Numbered(name, k) { NumberedInjective(name, i, k); }
  }

  /** What the invariant does not say: nicks may differ in case only. A name is safe from it exactly when it could not
      be a username, or no nick it may get has another spelling. */
  lemma NicksApartUpToCase(name: string, fold: Fold)
    requires KeepsLength(fold)
    ensures AlwaysApart(name, fold)
            <==> !UsernameForm(name) || forall nick :: Possible(name, nick) ==> !HasVariant(nick, fold)
  {
    if UsernameForm(name) && exists nick :: Possible(name, nick) && HasVariant(nick, fold) {
      var nick :| Possible(name, nick) && HasVariant(nick, fold);
      var x: string :| x != nick && fold(x) == fold(nick);
      if nick == Marked(name) {
        MarkedClashes(name, x, fold);
      } else {
        var i: nat :| i >= 2 && nick == Numbered(name, i);
        NumberedClashes(name, i, x, fold);
      }
    } else {
      forall list: seq<Guest>, nick: string | VerdictOf(list, name, fold) == Free && IsNick(name, Nicks(list), nick)
        ensures ApartUpToCase(list, nick, fold)
      {
        FreeIsApart(list, name, nick, fold);
      }
    }
  }

  lemma FreeIsApart(list: seq<Guest>, name: string, nick: string, fold: Fold)
    requires VerdictOf(list, name, fold) == Free && IsNick(name, Nicks(list), nick)
    requires UsernameForm(name) ==> !HasVariant(nick, fold)
    ensures ApartUpToCase(list, nick, fold)
  {
    NickFits(list, name, nick, fold);
    forall g | g in list ensures fold(g.nick) != fold(nick) {
      assert !ClashesWith(g, name, fold);
      assert g.nick in Nicks(list) && nick !in Nicks(list);
    }
  }

  /** As with "mario" in a room where somebody is called "Mario ·". */
  lemma NicksMayDifferInCaseOnly(fold: Fold)
    requires fold("Mario ·") == fold("mario ·") && fold("mario") != fold("mario ·")
    ensures var list := [Guest("1", "r", "Mario ·", "Mario ·", false)];
      && VerdictOf(list, "mario", fold) == Free && IsNick("mario", Nicks(list), "mario ·")
      && !ApartUpToCase(list, "mario ·", fold)
  {
    var g := Guest("1", "r", "Mario ·", "Mario ·", false);
    OneGuest(g, "mario", fold);
    assert UsernameForm("mario") && "mario" + MARK == "mario ·";
    assert "Mario ·"[0] != "mario ·"[0];
    assert g in [g];
  }

  lemma RunStep(s: State, es: seq<Event>, fold: Fold)
    requires es != []
    ensures Run(s, es) == Run(Apply(s, es[0]), es[1..])
    ensures CanRun(s, es, fold) <==> CanHappen(s, es[0], fold) && CanRun(Apply(s, es[0]), es[1..], fold)
  {
  }

  // ---- Links, from the events alone ----

  lemma {:induction false} RunMore(s: State, es: seq<Event>, e: Event, fold: Fold)
    ensures Run(s, es + [e]) == Apply(Run(s, es), e)
    ensures CanRun(s, es + [e], fold) <==> CanRun(s, es, fold) && CanHappen(Run(s, es), e, fold)
    decreases |es|
  {
    if es == [] {
      assert [] + [e] == [e] && [e][1..] == [];
    } else {
      assert (es + [e])[0] == es[0] && (es + [e])[1..] == es[1..] + [e];
      RunMore(Apply(s, es[0]), es[1..], e, fold);
    }
  }

  /** The event puts a new end to the room's link. */
  predicate Issues(e: Event, room: string, expires: int) { e == PutRoom(room, expires) || e == NewLink(room, expires) }

  /** The event is about the room's link: another link, its end, or the room's. */
  predicate Touches(e: Event, room: string) {
    match e
    case PutRoom(r, _) => r == room
    case NewLink(r, _) => r == room
    case Revoke(r) => r == room
    case DropRoom(r) => r == room
    case _ => false
  }

  /** The room was put and not dropped since. */
  ghost predicate Stands(es: seq<Event>, room: string) {
    exists p, x :: 0 <= p < |es| && es[p] == PutRoom(room, x) && forall j :: p < j < |es| ==> es[j] != DropRoom(room)
  }

  /** The last thing that happened to the room's link was that it got this end. */
  ghost predicate EndsAt(es: seq<Event>, room: string, expires: int) {
    Stands(es, room)
    && exists k :: 0 <= k < |es| && Issues(es[k], room, expires) && forall j :: k < j < |es| ==> !Touches(es[j], room)
  }

  lemma StandsMore(es: seq<Event>, e: Event, room: string)
    ensures Stands(es + [e], room) <==> (e.PutRoom? && e.room == room) || (Stands(es, room) && e != DropRoom(room))
  {
    var more := es + [e];
    if Stands(more, room) {
      var p, x :| 0 <= p < |more| && more[p] == PutRoom(room, x) && forall j :: p < j < |more| ==> more[j] != DropRoom(room);
      if p < |es| {
        assert es[p] == PutRoom(room, x) && forall j :: p < j < |es| ==> more[j] == es[j];
        assert more[|es|] == e;
      }
    }
    if e.PutRoom? && e.room == room { assert more[|es|] == PutRoom(room, e.expires); }
    if Stands(es, room) && e != DropRoom(room) {
      var p, x :| 0 <= p < |es| && es[p] == PutRoom(room, x) && forall j :: p < j < |es| ==> es[j] != DropRoom(room);
      assert more[p] == PutRoom(room, x) && forall j :: p < j < |more| ==> more[j] != DropRoom(room);
    }
  }

  lemma EndsAtMore(es: seq<Event>, e: Event, room: string, expires: int)
    ensures EndsAt(es + [e], room, expires)
            <==> Stands(es + [e], room) && (Issues(e, room, expires) || (EndsAt(es, room, expires) && !Touches(e, room)))
  {
    var more := es + [e];
    StandsMore(es, e, room);
    if EndsAt(more, room, expires) {
      var k :| 0 <= k < |more| && Issues(more[k], room, expires) && forall j :: k < j < |more| ==> !Touches(more[j], room);
      if k < |es| {
        assert more[|es|] == e;
        assert Issues(es[k], room, expires) && forall j :: k < j < |es| ==> more[j] == es[j];
      }
    }
    if Issues(e, room, expires) { assert more[|es|] == e; }
    if EndsAt(es, room, expires) && !Touches(e, room) {
      var k :| 0 <= k < |es| && Issues(es[k], room, expires) && forall j :: k < j < |es| ==> !Touches(es[j], room);
      assert more[k] == es[k];
    }
  }

  /** The table of rooms is what the events say. */
  lemma {:induction false} RoomsAre(es: seq<Event>, room: string, expires: int, fold: Fold)
    requires CanRun(EMPTY, es, fold)
    ensures room in Run(EMPTY, es).rooms <==> Stands(es, room)
    ensures room in Run(EMPTY, es).rooms && Run(EMPTY, es).rooms[room] == ExtRoom(expires, false) <==> EndsAt(es, room, expires)
    decreases |es|
  {
    if es != [] {
      var n := |es| - 1;
      assert es == es[..n] + [es[n]];
      RunMore(EMPTY, es[..n], es[n], fold);
      RoomsAre(es[..n], room, expires, fold);
      StandsMore(es[..n], es[n], room);
      EndsAtMore(es[..n], es[n], room, expires);
      RoomStep(Run(EMPTY, es[..n]), es[n], room, expires, fold);
    }
  }

  /** One event more. */
  lemma RoomStep(s: State, e: Event, room: string, expires: int, fold: Fold)
    requires CanHappen(s, e, fold)
    ensures var s' := Apply(s, e);
      var before, after := Get(s.rooms, room), Get(s'.rooms, room);
      && (after.Some? <==> (e.PutRoom? && e.room == room) || (before.Some? && e != DropRoom(room)))
      && (after == Some(ExtRoom(expires, false)) <==>
            after.Some? && (Issues(e, room, expires) || (before == Some(ExtRoom(expires, false)) && !Touches(e, room))))
  {
  }

  function Get(rooms: map<string, ExtRoom>, room: string): Option<ExtRoom> { if room in rooms then Some(rooms[room]) else None }

  /** Main result: a link lets in exactly while it is not past the end last given to it, its room there, and it was not
      revoked since. */
  lemma OpensUntilItsEnd(es: seq<Event>, request: nat, room: string, now: int, fold: Fold)
    requires CanRun(EMPTY, es, fold)
    ensures CanHappen(Run(EMPTY, es), Open(request, room, now), fold)
            <==> exists expires :: EndsAt(es, room, expires) && now <= expires
  {
    var s := Run(EMPTY, es);
    if room in s.rooms {
      RoomsAre(es, room, s.rooms[room].expires, fold);
      if s.rooms[room].revoked { assert s.rooms[room] != ExtRoom(s.rooms[room].expires, false); }
    }
    forall expires ensures EndsAt(es, room, expires) <==> room in s.rooms && s.rooms[room] == ExtRoom(expires, false) {
      RoomsAre(es, room, expires, fold);
    }
  }

  /** The request was let into the room: at i its link was open. */
  ghost predicate LetInAt(es: seq<Event>, i: int, request: nat, room: string) {
    0 <= i < |es| && es[i].Open? && es[i].request == request && es[i].room == room
    && exists expires :: EndsAt(es[..i], room, expires) && es[i].now <= expires
  }

  /** The guest began to join at b, by a request let in before. */
  ghost predicate BeganAt(es: seq<Event>, b: int, room: string, id: string, name: string, nick: string) {
    0 <= b < |es| && es[b].Begin? && es[b].id == id && es[b].name == name && es[b].nick == nick
    && exists i :: i < b && LetInAt(es, i, es[b].request, room)
  }

  ghost predicate Began(es: seq<Event>, room: string, p: Pending) { exists b :: BeganAt(es, b, room, p.id, p.name, p.nick) }

  ghost predicate Joined(es: seq<Event>, g: Guest) { exists b :: BeganAt(es, b, g.room, g.id, g.name, g.nick) }

  /** Everything under way, and every row, comes from a link that was open. */
  ghost predicate FromLinks(es: seq<Event>) {
    var s := Run(EMPTY, es);
    && (forall request <- s.letIn :: exists i :: LetInAt(es, i, request, s.letIn[request]))
    && (forall room <- s.pending :: Began(es, room, s.pending[room]))
    && (forall g <- s.guests :: Joined(es, g))
  }

  lemma LetInMore(es: seq<Event>, e: Event, i: int, request: nat, room: string)
    requires LetInAt(es, i, request, room)
    ensures LetInAt(es + [e], i, request, room)
  {
    assert (es + [e])[..i] == es[..i] && (es + [e])[i] == es[i];
  }

  lemma BeganMore(es: seq<Event>, e: Event, b: int, room: string, id: string, name: string, nick: string)
    requires BeganAt(es, b, room, id, name, nick)
    ensures BeganAt(es + [e], b, room, id, name, nick)
  {
    assert (es + [e])[b] == es[b];
    var i :| i < b && LetInAt(es, i, es[b].request, room);
    LetInMore(es, e, i, es[b].request, room);
  }

  lemma LetInStep(es: seq<Event>, e: Event, fold: Fold)
    requires CanRun(EMPTY, es, fold) && CanHappen(Run(EMPTY, es), e, fold) && FromLinks(es)
    ensures var s' := Apply(Run(EMPTY, es), e); forall request <- s'.letIn :: exists i :: LetInAt(es + [e], i, request, s'.letIn[request])
  {
    var s := Run(EMPTY, es);
    var s' := Apply(s, e);
    forall request | request in s'.letIn ensures exists i :: LetInAt(es + [e], i, request, s'.letIn[request]) {
      if e.Open? && e.request == request {
        OpensUntilItsEnd(es, request, e.room, e.now, fold);
        assert (es + [e])[..|es|] == es;
        assert LetInAt(es + [e], |es|, request, e.room);
      } else {
        var i :| LetInAt(es, i, request, s.letIn[request]);
        LetInMore(es, e, i, request, s.letIn[request]);
      }
    }
  }

  lemma BeginsNow(es: seq<Event>, e: Event, room: string)
    requires e.Begin? && exists i :: LetInAt(es, i, e.request, room)
    ensures Began(es + [e], room, Pending(e.id, e.name, e.nick))
  {
    var i :| LetInAt(es, i, e.request, room);
    LetInMore(es, e, i, e.request, room);
    assert BeganAt(es + [e], |es|, room, e.id, e.name, e.nick);
  }

  lemma BeganBefore(es: seq<Event>, e: Event, room: string, p: Pending)
    requires Began(es, room, p)
    ensures Began(es + [e], room, p)
  {
    var b :| BeganAt(es, b, room, p.id, p.name, p.nick);
    BeganMore(es, e, b, room, p.id, p.name, p.nick);
  }

  /** A join in progress after an event was so before, or begins with it. */
  lemma PendingFrom(s: State, e: Event, room: string, fold: Fold)
    requires CanHappen(s, e, fold) && room in Apply(s, e).pending
    ensures if e.Begin? && s.letIn[e.request] == room then Apply(s, e).pending[room] == Pending(e.id, e.name, e.nick)
            else room in s.pending && Apply(s, e).pending[room] == s.pending[room]
  {
  }

  lemma PendingStep(es: seq<Event>, e: Event, fold: Fold)
    requires CanHappen(Run(EMPTY, es), e, fold) && FromLinks(es)
    ensures var s' := Apply(Run(EMPTY, es), e); forall room <- s'.pending :: Began(es + [e], room, s'.pending[room])
  {
    var s := Run(EMPTY, es);
    var s' := Apply(s, e);
    forall room | room in s'.pending ensures Began(es + [e], room, s'.pending[room]) {
      PendingFrom(s, e, room, fold);
      if e.Begin? && s.letIn[e.request] == room { BeginsNow(es, e, room); } else { BeganBefore(es, e, room, s.pending[room]); }
    }
  }

  lemma JoinedMore(es: seq<Event>, e: Event, g: Guest, h: Guest)
    requires Joined(es, g) && h == g.(removed := h.removed)
    ensures Joined(es + [e], h)
  {
    var b :| BeganAt(es, b, g.room, g.id, g.name, g.nick);
    BeganMore(es, e, b, g.room, g.id, g.name, g.nick);
  }

  lemma GuestStep(es: seq<Event>, e: Event, fold: Fold)
    requires CanHappen(Run(EMPTY, es), e, fold) && FromLinks(es)
    ensures forall g <- Apply(Run(EMPTY, es), e).guests :: Joined(es + [e], g)
  {
    var s := Run(EMPTY, es);
    forall g | g in Apply(s, e).guests ensures Joined(es + [e], g) {
      if g in s.guests {
        JoinedMore(es, e, g, g);
      } else if e.Remove? {
        var i :| 0 <= i < |s.guests| && WithRemoved(s.guests, e.id)[i] == g;
        assert s.guests[i] in s.guests;
        JoinedMore(es, e, s.guests[i], g);
      } else if e.DropGuests? {
        OutsideHas(s.guests, e.room, g);
      } else {
        var p := s.pending[e.room];
        var b :| BeganAt(es, b, e.room, p.id, p.name, p.nick);
        BeganMore(es, e, b, e.room, p.id, p.name, p.nick);
      }
    }
  }

  /** Main result, over runs: whoever has a row joined by a request that was let in, at a time not after the end last given
      to the room's link, with the room there and no revocation since. */
  lemma {:induction false} RowsFromOpenLinks(es: seq<Event>, fold: Fold)
    requires CanRun(EMPTY, es, fold)
    ensures FromLinks(es)
    decreases |es|
  {
    if es != [] {
      var n := |es| - 1;
      assert es == es[..n] + [es[n]];
      RunMore(EMPTY, es[..n], es[n], fold);
      RowsFromOpenLinks(es[..n], fold);
      LetInStep(es[..n], es[n], fold);
      PendingStep(es[..n], es[n], fold);
      GuestStep(es[..n], es[n], fold);
    }
  }

  // ---- After a link is revoked ----

  /** The room's link opens for nobody, and it is not opened again. */
  predicate Closed(s: State, room: string) { room in s.rooms ==> s.rooms[room].revoked }

  predicate Reopens(e: Event, room: string) { (e.NewLink? || e.PutRoom?) && e.room == room }

  /** A request the link let in, or a join in progress. */
  predicate Underway(s: State, room: string) {
    room in s.pending || exists request :: request in s.letIn && s.letIn[request] == room
  }

  /** Some row of the room is of a guest who was not there before. */
  predicate NewRow(before: State, after: State, room: string) {
    exists g :: g in after.guests && g.room == room && forall h <- before.guests :: h.id != g.id
  }

  /** What lets nobody new in: the link is closed and nothing is under way. */
  lemma {:induction false} ClosedStep(s: State, e: Event, room: string, fold: Fold)
    requires Closed(s, room) && !Underway(s, room) && CanHappen(s, e, fold) && !Reopens(e, room)
    ensures Closed(Apply(s, e), room) && !Underway(Apply(s, e), room)
    ensures forall g <- Apply(s, e).guests :: g.room == room ==> exists h <- s.guests :: h.id == g.id && h.room == room
  {
    var s' := Apply(s, e);
    forall g | g in s'.guests && g.room == room ensures exists h <- s.guests :: h.id == g.id && h.room == room {
      if e.DropGuests? { OutsideHas(s.guests, e.room, g); }
      if e.Remove? {
        var i :| 0 <= i < |s'.guests| && s'.guests[i] == g;
        assert s.guests[i] in s.guests;
      }
    }
  }

  lemma {:induction false} ClosedRun(s: State, es: seq<Event>, room: string, fold: Fold)
    requires Closed(s, room) && !Underway(s, room) && CanRun(s, es, fold) && forall e <- es :: !Reopens(e, room)
    ensures forall g <- Run(s, es).guests :: g.room == room ==> exists h <- s.guests :: h.id == g.id && h.room == room
    decreases |es|
  {
    if es != [] {
      assert es[0] in es && forall e <- es[1..] :: e in es;
      ClosedStep(s, es[0], room, fold);
      ClosedRun(Apply(s, es[0]), es[1..], room, fold);
    }
  }

  /** Rows of the room and whatever is under way towards one. */
  function Places(s: State, room: string): nat {
    |InRoom(s.guests, room)| + (if room in s.pending then 1 else 0) + |Requests(s.letIn, room)|
  }

  function Requests(letIn: map<nat, string>, room: string): set<nat> {
    set request | request in letIn && letIn[request] == room
  }

  lemma FewerRequests(a: map<nat, string>, b: map<nat, string>, room: string)
    requires Requests(a, room) <= Requests(b, room)
    ensures |Requests(a, room)| <= |Requests(b, room)|
  {
    assert Requests(b, room) == Requests(a, room) + (Requests(b, room) - Requests(a, room));
  }

  /** Each request, and each join in progress, gives one row at most. */
  lemma {:induction false} PlacesStep(s: State, e: Event, room: string, fold: Fold)
    requires Closed(s, room) && CanHappen(s, e, fold) && !Reopens(e, room)
    ensures Closed(Apply(s, e), room) && Places(Apply(s, e), room) <= Places(s, room)
  {
    var s' := Apply(s, e);
    match e
    case Begin(request, _, _, _) =>
      if s.letIn[request] == room {
        assert Requests(s.letIn, room) == Requests(s'.letIn, room) + {request};
      } else {
        FewerRequests(s'.letIn, s.letIn, room);
      }
    case Commit(r) => InRoomMore(s.guests, Guest(s.pending[r].id, r, s.pending[r].name, s.pending[r].nick, false), room);
    case Remove(id) => InRoomRemoved(s.guests, id, room);
    case DropGuests(r) => InRoomOutside(s.guests, r, room);
    case _ => FewerRequests(s'.letIn, s.letIn, room);
  }

  lemma {:induction false} PlacesRun(s: State, es: seq<Event>, room: string, fold: Fold)
    requires Closed(s, room) && CanRun(s, es, fold) && forall e <- es :: !Reopens(e, room)
    ensures Places(Run(s, es), room) <= Places(s, room)
    decreases |es|
  {
    if es != [] {
      assert es[0] in es && forall e <- es[1..] :: e in es;
      PlacesStep(s, es[0], room, fold);
      PlacesRun(Apply(s, es[0]), es[1..], room, fold);
    }
  }

  /** A join in progress can still put its row. */
  lemma PendingGetsIn(s: State, room: string, fold: Fold)
    requires IdsOk(s) && room in s.pending
    ensures CanRun(s, [Commit(room)], fold) && NewRow(s, Run(s, [Commit(room)]), room)
  {
    var es := [Commit(room)];
    RunStep(s, es, fold);
    assert es[1..] == [];
    var p := s.pending[room];
    var g := Guest(p.id, room, p.name, p.nick, false);
    assert Run(s, es).guests == s.guests + [g];
    assert g in Run(s, es).guests;
  }

  /** A request that was let in can, once the room is empty. */
  lemma RequestGetsIn(s: State, room: string, request: nat, id: string, fold: Fold)
    requires IdsOk(s) && room !in s.pending && request in s.letIn && s.letIn[request] == room && id !in s.used
    ensures var es := [DropGuests(room), Begin(request, "Ada", id, "Ada"), Commit(room)];
      CanRun(s, es, fold) && NewRow(s, Run(s, es), room)
  {
    var es := [DropGuests(room), Begin(request, "Ada", id, "Ada"), Commit(room)];
    var s1 := Apply(s, es[0]);
    InRoomOutside(s.guests, room, room);
    assert !UsernameForm("Ada") && IsNick("Ada", Nicks([]), "Ada");
    assert CanHappen(s1, es[1], fold);
    var s2 := Apply(s1, es[1]);
    assert CanHappen(s2, es[2], fold);
    RunStep(s, es, fold);
    RunStep(s1, es[1..], fold);
    RunStep(s2, es[2..], fold);
    assert es[1..][1..] == es[2..] && es[2..][1..] == [];
    var g := Guest(id, room, "Ada", "Ada", false);
    assert Run(s, es).guests == s1.guests + [g];
    assert g in Run(s, es).guests && forall h <- s.guests :: h.id in s.used;
  }

  ghost predicate MayLetIn(s: State, room: string, fold: Fold) {
    exists es :: CanRun(s, es, fold) && (forall e <- es :: !Reopens(e, room)) && NewRow(s, Run(s, es), room)
  }

  /** Main result: once a link is revoked and not opened again, somebody new may still get a row in its room if and only
      if a request was let in before or a join is in progress, and each of these gives one row at most. */
  lemma RevokedLinkMayStillLetIn(s: State, room: string, fold: Fold)
    requires IdsOk(s)
    ensures var s' := Apply(s, Revoke(room)); Closed(s', room) && (MayLetIn(s', room, fold) <==> Underway(s, room))
    ensures forall es :: CanRun(Apply(s, Revoke(room)), es, fold) && (forall e <- es :: !Reopens(e, room)) ==>
      Places(Run(Apply(s, Revoke(room)), es), room) <= Places(s, room)
  {
    var s' := Apply(s, Revoke(room));
    assert IdsOk(s') && (Underway(s', room) <==> Underway(s, room));
    if room in s.pending {
      PendingGetsIn(s', room, fold);
    } else if Underway(s, room) {
      var request :| request in s.letIn && s.letIn[request] == room;
      var id := FreshText(s.used);
      RequestGetsIn(s', room, request, id, fold);
    } else if MayLetIn(s', room, fold) {
      var es :| CanRun(s', es, fold) && (forall e <- es :: !Reopens(e, room)) && NewRow(s', Run(s', es), room);
      ClosedRun(s', es, room, fold);
    }
    forall es | CanRun(s', es, fold) && (forall e <- es :: !Reopens(e, room)) ensures Places(Run(s', es), room) <= Places(s, room) {
      PlacesRun(s', es, room, fold);
    }
  }

  // ---- Removed for good ----

  /** The id was given out, and no row or join in progress makes it an active guest. */
  ghost predicate Gone(s: State, id: string) {
    && id in s.used && (forall g <- s.guests :: g.id == id ==> g.removed)
    && (forall room <- s.pending :: s.pending[room].id != id)
  }

  lemma StepKeepsGone(s: State, e: Event, fold: Fold, id: string)
    requires Gone(s, id) && CanHappen(s, e, fold)
    ensures Gone(Apply(s, e), id)
  {
    if e.DropGuests? {
      forall g | g in OutsideRoom(s.guests, e.room) ensures g.id == id ==> g.removed { OutsideHas(s.guests, e.room, g); }
    } else if e.Remove? {
      forall g | g in WithRemoved(s.guests, e.id) ensures g.id == id ==> g.removed {
        var i :| 0 <= i < |s.guests| && WithRemoved(s.guests, e.id)[i] == g;
        assert s.guests[i] in s.guests;
      }
    }
  }

  lemma {:induction false} GoneStaysGone(s: State, es: seq<Event>, fold: Fold, id: string)
    requires Gone(s, id) && CanRun(s, es, fold)
    ensures forall g <- Run(s, es).guests :: g.id == id ==> g.removed
    decreases |es|
  {
    if es != [] {
      StepKeepsGone(s, es[0], fold, id);
      GoneStaysGone(Apply(s, es[0]), es[1..], fold, id);
    }
  }

  /** The event takes the guest out: by id, or with the room all rows of the id are in. */
  predicate TakesOut(s: State, e: Event, id: string) {
    e == Remove(id) || (e.DropGuests? && forall g <- s.guests :: g.id == id ==> g.room == e.room)
  }

  lemma TakenOutIsGone(s: State, e: Event, id: string)
    requires IdsOk(s) && TakesOut(s, e, id) && exists g <- s.guests :: g.id == id
    ensures Gone(Apply(s, e), id)
  {
    forall g | g in Apply(s, e).guests && g.id == id ensures g.removed {
      if e.DropGuests? {
        OutsideHas(s.guests, e.room, g);
      } else {
        var i :| 0 <= i < |s.guests| && WithRemoved(s.guests, id)[i] == g;
      }
    }
  }

  /** Main result: a guest of any run, once removed or gone with their room, is never an active guest again. */
  lemma RemovedStaysRemoved(before: seq<Event>, e: Event, after: seq<Event>, fold: Fold, id: string)
    requires CanRun(EMPTY, before, fold)
    requires var s := Run(EMPTY, before);
      TakesOut(s, e, id) && (exists g <- s.guests :: g.id == id) && CanRun(Apply(s, e), after, fold)
    ensures forall g <- Run(Apply(Run(EMPTY, before), e), after).guests :: g.id == id ==> g.removed
  {
    var s := Run(EMPTY, before);
    EmptyIsOk(fold);
    RunKeepsInv(EMPTY, before, fold);
    TakenOutIsGone(s, e, id);
    GoneStaysGone(Apply(s, e), after, fold, id);
  }

  // ---- The gateway ----

  class Gateway {
    const fold: Fold
    var guests: seq<Guest>
    var rooms: map<string, ExtRoom>
    var pending: map<string, Pending> // whose key is in here has its lock held
    var letIn: map<nat, string>
    ghost var used: set<string>
    ghost var wasOpen: set<string>

    constructor (fold: Fold)
      ensures this.fold == fold && Now() == EMPTY
    {
      this.fold := fold;
      guests, rooms, pending, letIn, used, wasOpen := [], map[], map[], map[], {}, {};
    }

    ghost function Now(): State
      reads this
    {
      State(guests, rooms, pending, letIn, used, wasOpen)
    }

    /** Guests of a room, the removed ones too. */
    method Guests(room: string) returns (list: seq<Guest>)
      ensures list == InRoom(guests, room)
    {
      list := [];
      for i := 0 to |guests|
        invariant list == InRoom(guests[..i], room)
      {
        assert guests[..i + 1] == guests[..i] + [guests[i]];
        InRoomMore(guests[..i], guests[i], room);
        if guests[i].room == room { list := list + [guests[i]]; }
      }
      assert guests[..|guests|] == guests;
    }

    method OpenLink(request: nat, room: string, now: int) returns (code: nat)
      modifies this`letIn, this`wasOpen
      ensures code == 0 <==> IsOpen(old(Now()), room, now)
      ensures code == 0 ==> CanHappen(old(Now()), Open(request, room, now), fold)
      ensures Now() == if code == 0 then Apply(old(Now()), Open(request, room, now)) else old(Now())
    {
      if room !in rooms { return 401; }
      if rooms[room].revoked || now > rooms[room].expires { return 410; }
      letIn, wasOpen := letIn[request := room], wasOpen + {room};
      code := 0;
    }

    /** joinGuest once the room's lock is taken, up to the first call outside: the names are looked at, and a fresh id
        and a nick are chosen. */
    method BeginJoin(request: nat, name: string, id: string) returns (verdict: Verdict, ghost e: Event)
      requires request in letIn && letIn[request] !in pending && id !in used
      modifies this`pending, this`letIn, this`used
      ensures verdict == VerdictOf(InRoom(old(guests), old(letIn[request])), name, fold)
      ensures verdict == Free ==>
                && e.Begin? && e.request == request && e.name == name && e.id == id
                && CanHappen(old(Now()), e, fold) && Now() == Apply(old(Now()), e)
      ensures verdict != Free ==> Now() == old(Now())
    {
      var room := letIn[request];
      var list := Guests(room);
      var taken;
      verdict, taken := CheckJoin(list, name, fold);
      e := Restart;
      if verdict != Free { return; }
      var nick := GuestNick(name, taken);
      e := Begin(request, name, id, nick);
      pending, letIn, used := pending[room := Pending(id, name, nick)], letIn - {request}, used + {id};
    }

    /** The rest of joinGuest: the calls outside went through, and the row is put; or one failed. */
    method EndJoin(room: string, called: bool)
      requires room in pending
      modifies this`guests, this`pending
      ensures var e := if called then Commit(room) else Abandon(room);
        CanHappen(old(Now()), e, fold) && Now() == Apply(old(Now()), e)
    {
      var p := pending[room];
      if called { guests := guests + [Guest(p.id, room, p.name, p.nick, false)]; }
      pending := pending - {room};
    }

    method RemoveGuest(id: string)
      modifies this`guests
      ensures CanHappen(old(Now()), Remove(id), fold) && Now() == Apply(old(Now()), Remove(id))
    {
      var rows := guests;
      guests := seq(|rows|, i requires 0 <= i < |rows| => if rows[i].id == id then rows[i].(removed := true) else rows[i]);
      assert guests == WithRemoved(rows, id);
    }

    /** DeleteExtRoom: two statements, and nothing of the second when the first fails. */
    method DeleteExtRoom(room: string, first: bool, second: bool)
      modifies this`guests, this`rooms
      ensures Now() == if !first then old(Now())
                       else if !second then Apply(old(Now()), DropGuests(room))
                       else Apply(Apply(old(Now()), DropGuests(room)), DropRoom(room))
    {
      if !first { return; }
      var left: seq<Guest> := [];
      for i := 0 to |guests|
        invariant left == OutsideRoom(guests[..i], room) && guests == old(guests)
      {
        assert guests[..i + 1][..i] == guests[..i];
        if guests[i].room != room { left := left + [guests[i]]; }
      }
      assert guests[..|guests|] == guests;
      guests := left;
      if second { rooms := rooms - {room}; }
    }

    method PutExtRoom(room: string, expires: int) returns (ok: bool)
      modifies this`rooms
      ensures ok == CanHappen(old(Now()), PutRoom(room, expires), fold)
      ensures Now() == if ok then Apply(old(Now()), PutRoom(room, expires)) else old(Now())
    {
      ok := room !in rooms;
      if ok { rooms := rooms[room := ExtRoom(expires, false)]; }
    }

    method SetExtLink(room: string, expires: int)
      modifies this`rooms
      ensures Now() == Apply(old(Now()), NewLink(room, expires))
    {
      if room in rooms { rooms := rooms[room := ExtRoom(expires, false)]; }
    }

    method RevokeExtLink(room: string)
      modifies this`rooms
      ensures Now() == Apply(old(Now()), Revoke(room))
    {
      if room in rooms { rooms := rooms[room := rooms[room].(revoked := true)]; }
    }
  }
}
