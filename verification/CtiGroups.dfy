/** ctigroups.go: the chat rooms of the CTI groups, brought in line round after round. */
module CtiGroups {
  import opened Text
  import opened Fingerprint

  const FULL_SYNC_SECONDS := 1800

  // ---- Slugs ----

  /** Lower case, as far as it can give a letter or a digit of a slug. */
  function SlugOf(c: char): Option<char> {
    if SlugChar(c) then Some(c)
    else if 'A' <= c <= 'Z' then Some('a' + (c - 'A'))
    else if c == '\U{212A}' then Some('k')  // the kelvin sign
    else if c == '\U{130}' then Some('i')   // the dotted capital I
    else None
  }

  function SlugText(name: string): (r: string)
    ensures forall i :: 0 <= i < |r| ==> SlugChar(r[i])
  {
    if name == "" then ""
    else
      var n := |name| - 1;
      SlugText(name[..n]) + (match SlugOf(name[n]) case Some(c) => [c] case None => "")
  }

  method Slug(name: string) returns (b: string)
    ensures b == SlugText(name)
  {
    b := "";
    for i := 0 to |name|
      invariant b == SlugText(name[..i])
    {
      assert name[..i + 1][..i] == name[..i];
      var c := SlugOf(name[i]);
      if c.Some? { b := b + [c.value]; }
    }
    assert name[..|name|] == name;
  }

  lemma {:induction false} SlugConcat(a: string, b: string)
    ensures SlugText(a + b) == SlugText(a) + SlugText(b)
  {
    if b == "" {
      Unit(a);
      Unit(SlugText(a));
    } else {
      var n := |b| - 1;
      assert (a + b)[..|a + b| - 1] == a + b[..n];
      SlugConcat(a, b[..n]);
    }
  }

  lemma {:induction false} SlugKept(s: string)
    requires forall i :: 0 <= i < |s| ==> SlugChar(s[i])
    ensures SlugText(s) == s
  {
    if s != "" { SlugKept(s[..|s| - 1]); }
  }

  /** The same letter in the other case; the kelvin sign and the dotted capital I have small letters too. */
  predicate OtherCase(capital: char, small: char) {
    || ('A' <= capital <= 'Z' && small as int == capital as int + 32)
    || (capital == '\U{212A}' && small == 'k') || (capital == '\U{130}' && small == 'i')
  }

  predicate NoLetter(c: char) {
    !('a' <= c <= 'z') && !('A' <= c <= 'Z') && !('0' <= c <= '9') && c != '\U{212A}' && c != '\U{130}'
  }

  lemma SlugOfOne(c: char)
    ensures SlugText([c]) == match SlugOf(c) case Some(d) => [d] case None => ""
  {
    assert [c][..0] == "";
  }

  /** A slug is its own; case makes no difference to it, and no character but letters and digits does. */
  lemma SlugFolds(a: string, b: string, capital: char, small: char)
    requires OtherCase(capital, small)
    ensures SlugText(SlugText(a)) == SlugText(a)
    ensures SlugText(a + [capital] + b) == SlugText(a + [small] + b) == SlugText(a) + [small] + SlugText(b)
    ensures forall c :: NoLetter(c) ==> SlugText(a + [c] + b) == SlugText(a + b)
  {
    SlugKept(SlugText(a));
    SlugAround(a, capital, b);
    SlugAround(a, small, b);
    SlugOfOne(capital);
    SlugOfOne(small);
    forall c | NoLetter(c) ensures SlugText(a + [c] + b) == SlugText(a + b) {
      SlugAround(a, c, b);
      SlugOfOne(c);
      SlugConcat(a, b);
      Unit(SlugText(a));
    }
  }

  lemma SlugAround(a: string, c: char, b: string)
    ensures SlugText(a + [c] + b) == SlugText(a) + SlugText([c]) + SlugText(b)
  {
    SlugConcat(a + [c], b);
    SlugConcat(a, [c]);
  }

  // ---- Rooms ----

  datatype Affiliation = Owner | Admin | Member | Outcast
  datatype Jid = Jid(user: string, host: string)
  datatype Room = Room(affs: map<Jid, Affiliation>, title: string)

  function MemberJids(r: Room): set<Jid> { set j | j in r.affs && r.affs[j] == Member }

  /** The member list as the sync reads it: by username, whatever the host. */
  function Current(r: Room): set<string> { set j | j in r.affs && r.affs[j] == Member :: j.user }

  predicate Privileged(r: Room) { exists j :: j in r.affs && r.affs[j] in {Owner, Admin} }

  function Jids(users: set<string>, host: string): set<Jid> { set u | u in users :: Jid(u, host) }

  /** What a sync is for: members only, exactly the group's operators on this host. */
  predicate Right(r: Room, members: set<string>, host: string) {
    !Privileged(r) && MemberJids(r) == Jids(members, host)
  }

  /** Some member of the room is on another host. */
  predicate Foreign(r: Room, host: string) { exists j :: j in r.affs && r.affs[j] == Member && j.host != host }

  /** Which calls about one room fail. Of those about the room and its members, the ones in unseen take effect all the
      same: only their answer is lost. */
  datatype Faults = Faults(get: bool, destroy: bool, create: bool, users: set<string>, title: bool, store: bool, unseen: Unseen)

  datatype Unseen = Unseen(destroy: bool, create: bool, users: set<string>)

  const NOTHING_UNSEEN := Unseen(false, false, {})

  predicate Destroys(f: Faults) { !f.destroy || f.unseen.destroy }

  predicate Creates(f: Faults) { !f.create || f.unseen.create }

  /** The users whose call has no effect. */
  function Lost(f: Faults): set<string> { f.users - f.unseen.users }

  function NewRoom(name: string, members: set<string>, host: string): Room {
    Room(map j | j in Jids(members, host) :: Member, name)
  }

  function WithMembers(affs: map<Jid, Affiliation>, users: set<string>, host: string): map<Jid, Affiliation> {
    affs + map j | j in Jids(users, host) :: Member
  }

  function Without(affs: map<Jid, Affiliation>, users: set<string>, host: string): map<Jid, Affiliation> {
    affs - Jids(users, host)
  }

  lemma JidsMore(users: set<string>, u: string, host: string)
    ensures Jids(users + {u}, host) == Jids(users, host) + {Jid(u, host)}
  {
  }

  lemma WithMembersMore(affs: map<Jid, Affiliation>, users: set<string>, u: string, host: string)
    ensures WithMembers(affs, users, host)[Jid(u, host) := Member] == WithMembers(affs, users + {u}, host)
    ensures WithMembers(affs, {}, host) == affs
  {
    JidsMore(users, u, host);
  }

  lemma WithoutMore(affs: map<Jid, Affiliation>, users: set<string>, u: string, host: string)
    ensures Without(affs, users, host) - {Jid(u, host)} == Without(affs, users + {u}, host)
    ensures Without(affs, {}, host) == affs
  {
    JidsMore(users, u, host);
  }

  function Adjusted(r: Room, name: string, members: set<string>, host: string, renamed: bool, f: Faults): Room {
    Room(Without(WithMembers(r.affs, members - Current(r) - Lost(f), host), Current(r) - members - Lost(f), host),
         if renamed && !f.title then name else r.title)
  }

  /** One room after syncRoom. */
  function RoomAfter(room: Option<Room>, name: string, members: set<string>, host: string, renamed: bool, f: Faults)
    : Option<Room>
  {
    if f.get then room
    else if room.None? then Made(name, members, host, f)
    else if !Privileged(room.value) then Some(Adjusted(room.value, name, members, host, renamed, f))
    else if !Destroys(f) then room
    else if f.destroy then None
    else Made(name, members, host, f)
  }

  function Made(name: string, members: set<string>, host: string, f: Faults): Option<Room> {
    if Creates(f) then Some(NewRoom(name, members, host)) else None
  }

  function RoomOk(room: Option<Room>, members: set<string>, f: Faults): bool {
    if f.get then false
    else if room.None? then !f.create
    else if Privileged(room.value) then !f.destroy && !f.create
    else members - Current(room.value) !! f.users && Current(room.value) - members !! f.users
  }

  /** Some call other than a read is made: nothing was to be changed otherwise. */
  predicate Touched(room: Option<Room>, members: set<string>, renamed: bool, f: Faults) {
    !f.get && (room.None? || Privileged(room.value) || Current(room.value) != members || renamed)
  }

  /** The name of the room is written in the store. */
  predicate NamePut(room: Option<Room>, renamed: bool, f: Faults) {
    !f.get && !f.store
    && if room.None? then !f.create
       else if Privileged(room.value) then !f.destroy && !f.create
       else renamed
  }

  // ---- A round ----

  datatype World = World(rooms: map<string, Room>, known: map<string, string>, lastGroups: string, lastFull: int)

  function Get<K, V>(m: map<K, V>, k: K): Option<V> { if k in m then Some(m[k]) else None }

  function Put<V>(m: map<string, V>, k: string, v: Option<V>): map<string, V> {
    if v.Some? then m[k := v.value] else m - {k}
  }

  lemma PutGet<V>(m: map<string, V>, k: string)
    ensures Put(m, k, Get(m, k)) == m
  {
  }

  predicate Renamed(x: Inputs, slug: string)
    requires slug in x.want
  {
    Get(x.known, slug) != Some(x.want[slug])
  }

  /** A room after a sync: wanted, no longer wanted, or not the gateway's. */
  function After(rooms: map<string, Room>, x: Inputs, host: string, f: Faults, slug: string): Option<Room>
    requires x.members.Keys == x.want.Keys
  {
    if slug in x.want then RoomAfter(Get(rooms, slug), x.want[slug], x.members[slug], host, Renamed(x, slug), f)
    else if slug in x.known && Destroys(f) then None
    else Get(rooms, slug)
  }

  /** Its row in the store. */
  function KnownAfter(rooms: map<string, Room>, x: Inputs, f: Faults, slug: string): Option<string>
    requires x.members.Keys == x.want.Keys
  {
    if slug in x.want then
      if NamePut(Get(rooms, slug), Renamed(x, slug), f) then Some(x.want[slug]) else Get(x.known, slug)
    else if slug in x.known && !f.destroy && !f.store then None
    else Get(x.known, slug)
  }

  function StepOk(rooms: map<string, Room>, x: Inputs, f: Faults, slug: string): bool
    requires x.members.Keys == x.want.Keys
  {
    if slug in x.want then RoomOk(Get(rooms, slug), x.members[slug], f)
    else slug in x.known ==> !f.destroy
  }

  predicate StepTouches(rooms: map<string, Room>, x: Inputs, f: Faults, slug: string)
    requires x.members.Keys == x.want.Keys
  {
    if slug in x.want then Touched(Get(rooms, slug), x.members[slug], Renamed(x, slug), f) else slug in x.known
  }

  /** The rooms when the slugs in done were synced. */
  ghost predicate RoomsUpTo(rooms0: map<string, Room>, x: Inputs, host: string, faults: string -> Faults,
                            done: set<string>, rooms: map<string, Room>)
    requires x.members.Keys == x.want.Keys
  {
    forall s: string :: Get(rooms, s) == (if s in done then After(rooms0, x, host, faults(s), s) else Get(rooms0, s))
  }

  ghost predicate KnownUpTo(rooms0: map<string, Room>, x: Inputs, faults: string -> Faults,
                            done: set<string>, known: map<string, string>)
    requires x.members.Keys == x.want.Keys
  {
    forall s: string :: Get(known, s) == (if s in done then KnownAfter(rooms0, x, faults(s), s) else Get(x.known, s))
  }

  predicate AllOk(rooms0: map<string, Room>, x: Inputs, faults: string -> Faults, done: set<string>)
    requires x.members.Keys == x.want.Keys
  {
    forall s <- done :: StepOk(rooms0, x, faults(s), s)
  }

  predicate NoneTouched(rooms0: map<string, Room>, x: Inputs, faults: string -> Faults, done: set<string>)
    requires x.members.Keys == x.want.Keys
  {
    forall s <- done :: !StepTouches(rooms0, x, faults(s), s)
  }

  lemma UpToStep(rooms0: map<string, Room>, x: Inputs, host: string, faults: string -> Faults, done: set<string>,
                 rooms: map<string, Room>, known: map<string, string>, slug: string)
    requires x.members.Keys == x.want.Keys
    requires RoomsUpTo(rooms0, x, host, faults, done, rooms) && KnownUpTo(rooms0, x, faults, done, known)
    ensures RoomsUpTo(rooms0, x, host, faults, done + {slug}, Put(rooms, slug, After(rooms0, x, host, faults(slug), slug)))
    ensures KnownUpTo(rooms0, x, faults, done + {slug}, Put(known, slug, KnownAfter(rooms0, x, faults(slug), slug)))
    ensures AllOk(rooms0, x, faults, done + {slug}) <==> AllOk(rooms0, x, faults, done) && StepOk(rooms0, x, faults(slug), slug)
    ensures NoneTouched(rooms0, x, faults, done + {slug})
            <==> NoneTouched(rooms0, x, faults, done) && !StepTouches(rooms0, x, faults(slug), slug)
  {
    forall s: string
      ensures Get(Put(rooms, slug, After(rooms0, x, host, faults(slug), slug)), s)
              == (if s in done + {slug} then After(rooms0, x, host, faults(s), s) else Get(rooms0, s))
      ensures Get(Put(known, slug, KnownAfter(rooms0, x, faults(slug), slug)), s)
              == (if s in done + {slug} then KnownAfter(rooms0, x, faults(s), s) else Get(x.known, s))
    {
    }
  }

  /** Where a sync is when the slugs in done were synced. */
  ghost predicate Progress(rooms0: map<string, Room>, calls0: nat, x: Inputs, host: string, faults: string -> Faults,
                           done: set<string>, w: World, calls: nat, ok: bool)
    requires x.members.Keys == x.want.Keys
  {
    && RoomsUpTo(rooms0, x, host, faults, done, w.rooms) && KnownUpTo(rooms0, x, faults, done, w.known)
    && (ok <==> AllOk(rooms0, x, faults, done))
    && calls >= calls0 && (calls == calls0 <==> NoneTouched(rooms0, x, faults, done))
  }

  /** A step looks at its own room only, so it may be taken as if from the start. */
  lemma StepsApart(rooms0: map<string, Room>, rooms: map<string, Room>, x: Inputs, host: string, f: Faults, slug: string)
    requires x.members.Keys == x.want.Keys && Get(rooms, slug) == Get(rooms0, slug)
    ensures After(rooms, x, host, f, slug) == After(rooms0, x, host, f, slug)
    ensures KnownAfter(rooms, x, f, slug) == KnownAfter(rooms0, x, f, slug)
    ensures StepOk(rooms, x, f, slug) == StepOk(rooms0, x, f, slug)
    ensures StepTouches(rooms, x, f, slug) == StepTouches(rooms0, x, f, slug)
  {
  }

  /** The rooms and the store after a sync of the inputs, and whether every step went through. */
  ghost predicate Synced(w: World, x: Inputs, host: string, faults: string -> Faults, w': World, ok: bool)
    requires x.members.Keys == x.want.Keys
  {
    var all := x.want.Keys + x.known.Keys;
    && RoomsUpTo(w.rooms, x, host, faults, all, w'.rooms)
    && KnownUpTo(w.rooms, x, faults, all, w'.known)
    && (ok <==> AllOk(w.rooms, x, faults, all))
    && w'.lastGroups == w.lastGroups && w'.lastFull == w.lastFull
  }

  datatype Group = Group(name: string, users: seq<string>)

  /** A username of the directory, which leaves out users without one. */
  type Username = u: string | u != "" witness "a"

  /** What one round reads, and which of its calls fail. */
  datatype Reading = Reading(
    token: bool, groups: Option<seq<Group>>, directory: Option<set<Username>>, storeReads: bool, now: int,
    faults: string -> Faults)

  /** slug -> name over the groups in the order the map gives them. */
  function Want(groups: seq<Group>): (r: map<string, string>)
    ensures forall slug <- r :: IsSlug(slug)
  {
    if groups == [] then map[]
    else
      var n := |groups| - 1;
      var slug := SlugText(groups[n].name);
      if slug == "" then Want(groups[..n]) else Want(groups[..n])[slug := groups[n].name]
  }

  function Users(groups: seq<Group>, name: string): seq<string> {
    if groups == [] then []
    else if groups[|groups| - 1].name == name then groups[|groups| - 1].users
    else Users(groups[..|groups| - 1], name)
  }

  function InputsOf(groups: seq<Group>, directory: set<Username>, known: map<string, string>): Inputs {
    var want := Want(groups);
    Inputs(want, map slug | slug in want :: (set u | u in Users(groups, want[slug]) && u in directory), known)
  }

  /** The round reads everything it needs, and does not take a hiccup for a deletion. */
  predicate Acts(w: World, r: Reading) {
    && r.token && r.groups.Some? && r.directory.Some? && r.directory.value != {} && r.storeReads
    && !(r.groups.value == [] && w.known != map[])
  }

  function RoundInputs(w: World, r: Reading): Inputs
    requires Acts(w, r)
  {
    InputsOf(r.groups.value, r.directory.value, w.known)
  }

  ghost predicate Skips(w: World, r: Reading)
    requires Acts(w, r)
  {
    Print(RoundInputs(w, r)) == w.lastGroups && r.now - w.lastFull < FULL_SYNC_SECONDS
  }

  /** One round of SyncGroups. */
  ghost predicate Round(w: World, r: Reading, host: string, w': World) {
    if !Acts(w, r) || Skips(w, r) then w' == w
    else
      var x := RoundInputs(w, r);
      exists w1, ok :: Synced(w, x, host, r.faults, w1, ok)
        && w' == if ok then w1.(lastGroups := Print(x), lastFull := r.now) else w1
  }

  predicate KnownKeyed(known: map<string, string>) { forall slug <- known :: IsSlug(slug) }

  // ---- The gateway ----

  class Gateway {
    const host: string
    var rooms: map<string, Room>
    var known: map<string, string>
    var lastGroups: string
    var lastFull: int
    var calls: nat // calls other than reads

    constructor (host: string, rooms: map<string, Room>, known: map<string, string>)
      ensures this.host == host && Now() == World(rooms, known, "", 0) && calls == 0
    {
      this.host, this.rooms, this.known, lastGroups, lastFull, calls := host, rooms, known, "", 0, 0;
    }

    function Now(): World
      reads this
    {
      World(rooms, known, lastGroups, lastFull)
    }

    method CreateRoom(slug: string, name: string, members: set<string>, f: Faults) returns (ok: bool)
      modifies this`rooms, this`known, this`calls
      ensures ok == !f.create && calls > old(calls)
      ensures rooms == if Creates(f) then old(rooms)[slug := NewRoom(name, members, host)] else old(rooms)
      ensures known == if ok && !f.store then old(known)[slug := name] else old(known)
    {
      calls := calls + 1;
      if Creates(f) { rooms := rooms[slug := NewRoom(name, members, host)]; }
      if f.create { return false; }
      if !f.store { known := known[slug := name]; }
      ok := true;
    }

    /** Adds, one call each, the operators the room misses. */
    method AddMembers(slug: string, wanted: set<string>, f: Faults) returns (ok: bool)
      requires slug in rooms
      modifies this`rooms, this`calls
      ensures rooms == old(rooms)[slug := old(rooms)[slug].(affs := WithMembers(old(rooms)[slug].affs, wanted - Lost(f), host))]
      ensures ok <==> wanted !! f.users
      ensures calls >= old(calls) && (calls == old(calls) <==> wanted == {})
    {
      ok := true;
      var rest := wanted;
      ghost var room, done := rooms[slug], {};
      WithMembersMore(room.affs, {}, "", host);
      while rest != {}
        invariant rest <= wanted && done == wanted - rest
        invariant rooms == old(rooms)[slug := room.(affs := WithMembers(room.affs, done - Lost(f), host))]
        invariant ok <==> done !! f.users
        invariant calls >= old(calls) && (calls == old(calls) <==> done == {})
        decreases rest
      {
        var u :| u in rest;
        calls := calls + 1;
        if u in f.users { ok := false; }
        if u in Lost(f) {
          assert done + {u} - Lost(f) == done - Lost(f);
        } else {
          rooms := rooms[slug := rooms[slug].(affs := rooms[slug].affs[Jid(u, host) := Member])];
          WithMembersMore(room.affs, done - Lost(f), u, host);
          assert done + {u} - Lost(f) == done - Lost(f) + {u};
        }
        rest, done := rest - {u}, done + {u};
      }
      assert done == wanted;
    }

    /** Takes out, one call each, whoever is not in the group any more. */
    method RemoveMembers(slug: string, gone: set<string>, f: Faults) returns (ok: bool)
      requires slug in rooms
      modifies this`rooms, this`calls
      ensures rooms == old(rooms)[slug := old(rooms)[slug].(affs := Without(old(rooms)[slug].affs, gone - Lost(f), host))]
      ensures ok <==> gone !! f.users
      ensures calls >= old(calls) && (calls == old(calls) <==> gone == {})
    {
      ok := true;
      var rest := gone;
      ghost var room, done := rooms[slug], {};
      WithoutMore(room.affs, {}, "", host);
      assert done - Lost(f) == {};
      while rest != {}
        invariant rest <= gone && done == gone - rest
        invariant rooms == old(rooms)[slug := room.(affs := Without(room.affs, done - Lost(f), host))]
        invariant ok <==> done !! f.users
        invariant calls >= old(calls) && (calls == old(calls) <==> done == {})
        decreases rest
      {
        var u :| u in rest;
        calls := calls + 1;
        if u in f.users { ok := false; }
        if u in Lost(f) {
          assert done + {u} - Lost(f) == done - Lost(f);
        } else {
          rooms := rooms[slug := rooms[slug].(affs := rooms[slug].affs - {Jid(u, host)})];
          WithoutMore(room.affs, done - Lost(f), u, host);
          assert done + {u} - Lost(f) == done - Lost(f) + {u};
        }
        rest, done := rest - {u}, done + {u};
      }
      assert done == gone;
    }

    /** The second half of syncRoom: the members of a room of the gateway's own, and its name. */
    method AdjustRoom(slug: string, name: string, members: set<string>, renamed: bool, f: Faults) returns (ok: bool)
      requires slug in rooms
      modifies this`rooms, this`known, this`calls
      ensures rooms == old(rooms)[slug := Adjusted(old(rooms)[slug], name, members, host, renamed, f)]
      ensures known == if renamed && !f.store then old(known)[slug := name] else old(known)
      ensures ok <==> members - Current(old(rooms)[slug]) !! f.users && Current(old(rooms)[slug]) - members !! f.users
      ensures calls >= old(calls) && (calls == old(calls) <==> Current(old(rooms)[slug]) == members && !renamed)
    {
      ghost var room := rooms[slug];
      var current := Current(rooms[slug]);
      assert current == members <==> current - members == {} && members - current == {};
      var added := AddMembers(slug, members - current, f);
      var removed := RemoveMembers(slug, current - members, f);
      ok := added && removed;
      assert rooms[slug].affs == Adjusted(room, name, members, host, renamed, f).affs;
      assert rooms == old(rooms)[slug := rooms[slug]] && rooms[slug].title == room.title;
      Rename(slug, name, renamed, f);
      if renamed || current != members {
        calls := calls + 1; // the invitation
      }
    }

    /** The new title, and the name in the store; neither failure is looked at. */
    method Rename(slug: string, name: string, renamed: bool, f: Faults)
      requires slug in rooms
      modifies this`rooms, this`known, this`calls
      ensures rooms == if renamed && !f.title then old(rooms)[slug := old(rooms)[slug].(title := name)] else old(rooms)
      ensures known == if renamed && !f.store then old(known)[slug := name] else old(known)
      ensures calls == if renamed then old(calls) + 1 else old(calls)
    {
      if !renamed { return; }
      calls := calls + 1;
      if !f.title { rooms := rooms[slug := rooms[slug].(title := name)]; }
      if !f.store { known := known[slug := name]; }
    }

    /** syncRoom */
    method SyncRoom(slug: string, x: Inputs, f: Faults) returns (ok: bool)
      requires x.members.Keys == x.want.Keys && slug in x.want
      requires Get(known, slug) == Get(x.known, slug)
      modifies this`rooms, this`known, this`calls
      ensures rooms == Put(old(rooms), slug, After(old(rooms), x, host, f, slug))
      ensures known == Put(old(known), slug, KnownAfter(old(rooms), x, f, slug))
      ensures ok == StepOk(old(rooms), x, f, slug)
      ensures calls >= old(calls) && (calls == old(calls) <==> !StepTouches(old(rooms), x, f, slug))
    {
      var name, members := x.want[slug], x.members[slug];
      PutGet(rooms, slug);
      PutGet(known, slug);
      if f.get { return false; }
      if slug !in rooms {
        ok := CreateRoom(slug, name, members, f);
        return;
      }
      // Someone made the room first: it goes, and the group gets its own.
      if Privileged(rooms[slug]) {
        calls := calls + 1;
        if Destroys(f) { rooms := rooms - {slug}; }
        if f.destroy { return false; }
        ok := CreateRoom(slug, name, members, f);
        return;
      }
      ok := AdjustRoom(slug, name, members, Get(x.known, slug) != Some(name), f);
    }

    /** SyncGroups, from its readings on. */
    method SyncGroups(r: Reading)
      requires KnownKeyed(known)
      modifies this`rooms, this`known, this`lastGroups, this`lastFull, this`calls
      ensures Round(old(Now()), r, host, Now()) && KnownKeyed(known)
      ensures !Acts(old(Now()), r) || Skips(old(Now()), r) ==> calls == old(calls)
      ensures r.groups == Some([]) && (exists slug :: slug in old(known)) ==> Now() == old(Now()) && calls == old(calls)
      ensures Acts(old(Now()), r) && !Skips(old(Now()), r) ==>
                (calls == old(calls) <==>
                 var x := RoundInputs(old(Now()), r);
                 NoneTouched(old(rooms), x, r.faults, x.want.Keys + x.known.Keys))
    {
      if !r.token || r.groups.None? || r.directory.None? || r.directory.value == {} || !r.storeReads { return; }
      if r.groups.value == [] && known != map[] { return; }
      var want := WantedRooms(r.groups.value);
      var x := Inputs(want, map slug | slug in want :: (set u | u in Users(r.groups.value, want[slug]) && u in r.directory.value), known);
      assert x == RoundInputs(Now(), r) && Keyed(x);
      var fp := FingerprintOf(x);
      if fp == lastGroups && r.now - lastFull < FULL_SYNC_SECONDS { return; }
      var ok := SyncAll(x, r.faults);
      ghost var w1 := Now();
      if ok { lastGroups, lastFull := fp, r.now; }
      assert Synced(old(Now()), x, host, r.faults, w1, ok);
    }

    /** Both loops. */
    method SyncAll(x: Inputs, faults: string -> Faults) returns (ok: bool)
      requires Keyed(x) && known == x.known
      modifies this`rooms, this`known, this`calls
      ensures Synced(old(Now()), x, host, faults, Now(), ok) && KnownKeyed(known)
      ensures calls == old(calls) <==> NoneTouched(old(rooms), x, faults, x.want.Keys + x.known.Keys)
    {
      ok := SyncWanted(x, faults);
      ok := DestroyUnwanted(x, faults, ok, old(rooms), old(calls));
      forall slug | slug in known ensures IsSlug(slug) {
        assert Get(known, slug).Some?;
      }
    }

    /** One turn of the first loop. */
    method SyncNext(slug: string, x: Inputs, faults: string -> Faults, soFar: bool,
                    ghost rooms0: map<string, Room>, ghost calls0: nat, ghost done: set<string>) returns (ok: bool)
      requires Keyed(x) && slug in x.want && slug !in done
      requires Progress(rooms0, calls0, x, host, faults, done, Now(), calls, soFar)
      modifies this`rooms, this`known, this`calls
      ensures Progress(rooms0, calls0, x, host, faults, done + {slug}, Now(), calls, ok)
    {
      assert Get(rooms, slug) == Get(rooms0, slug) && Get(known, slug) == Get(x.known, slug);
      StepsApart(rooms0, rooms, x, host, faults(slug), slug);
      UpToStep(rooms0, x, host, faults, done, rooms, known, slug);
      var stepOk := SyncRoom(slug, x, faults(slug));
      ok := stepOk && soFar;
    }

    /** The first loop: the wanted rooms. */
    method SyncWanted(x: Inputs, faults: string -> Faults) returns (ok: bool)
      requires Keyed(x) && known == x.known
      modifies this`rooms, this`known, this`calls
      ensures Progress(old(rooms), old(calls), x, host, faults, x.want.Keys, Now(), calls, ok)
    {
      ok := true;
      var rest := x.want.Keys;
      ghost var done: set<string> := {};
      while rest != {}
        invariant rest <= x.want.Keys && done == x.want.Keys - rest
        invariant Progress(old(rooms), old(calls), x, host, faults, done, Now(), calls, ok)
        decreases rest
      {
        var slug :| slug in rest;
        ok := SyncNext(slug, x, faults, ok, old(rooms), old(calls), done);
        rest := rest - {slug};
        done := done + {slug};
      }
      assert done == x.want.Keys;
    }

    /** One room of a group that is gone; a room that is not there any more will do as well. */
    method DestroyRoom(slug: string, x: Inputs, f: Faults) returns (ok: bool)
      requires x.members.Keys == x.want.Keys && slug in x.known && slug !in x.want
      requires Get(known, slug) == Get(x.known, slug)
      modifies this`rooms, this`known, this`calls
      ensures rooms == Put(old(rooms), slug, After(old(rooms), x, host, f, slug))
      ensures known == Put(old(known), slug, KnownAfter(old(rooms), x, f, slug))
      ensures ok == StepOk(old(rooms), x, f, slug) && calls == old(calls) + 1
    {
      PutGet(rooms, slug);
      PutGet(known, slug);
      calls := calls + 1;
      if Destroys(f) { rooms := rooms - {slug}; }
      if f.destroy { return false; }
      if !f.store { known := known - {slug}; }
      ok := true;
    }

    /** One turn of it. */
    method DestroyNext(slug: string, x: Inputs, faults: string -> Faults, soFar: bool,
                       ghost rooms0: map<string, Room>, ghost calls0: nat, ghost done: set<string>) returns (ok: bool)
      requires Keyed(x) && slug in x.known && slug !in x.want && slug !in done
      requires Progress(rooms0, calls0, x, host, faults, done, Now(), calls, soFar)
      modifies this`rooms, this`known, this`calls
      ensures Progress(rooms0, calls0, x, host, faults, done + {slug}, Now(), calls, ok)
    {
      assert Get(rooms, slug) == Get(rooms0, slug) && Get(known, slug) == Get(x.known, slug);
      StepsApart(rooms0, rooms, x, host, faults(slug), slug);
      UpToStep(rooms0, x, host, faults, done, rooms, known, slug);
      var stepOk := DestroyRoom(slug, x, faults(slug));
      ok := stepOk && soFar;
    }

    /** The second loop: the rooms of groups that are gone. */
    method DestroyUnwanted(x: Inputs, faults: string -> Faults, wantedOk: bool,
                           ghost rooms0: map<string, Room>, ghost calls0: nat) returns (ok: bool)
      requires Keyed(x) && Progress(rooms0, calls0, x, host, faults, x.want.Keys, Now(), calls, wantedOk)
      modifies this`rooms, this`known, this`calls
      ensures Progress(rooms0, calls0, x, host, faults, x.want.Keys + x.known.Keys, Now(), calls, ok)
    {
      ok := wantedOk;
      var rest := x.known.Keys - x.want.Keys;
      ghost var done, all := x.want.Keys, x.want.Keys + x.known.Keys;
      while rest != {}
        invariant rest <= x.known.Keys && rest !! x.want.Keys && rest == all - done && done <= all
        invariant Progress(rooms0, calls0, x, host, faults, done, Now(), calls, ok)
        decreases rest
      {
        var slug :| slug in rest;
        ok := DestroyNext(slug, x, faults, ok, rooms0, calls0, done);
        rest := rest - {slug};
        done := done + {slug};
      }
      assert done == all;
    }
  }

  /** The loop that picks a name for each slug. */
  method WantedRooms(groups: seq<Group>) returns (want: map<string, string>)
    ensures want == Want(groups)
  {
    want := map[];
    for i := 0 to |groups|
      invariant want == Want(groups[..i])
    {
      assert groups[..i + 1][..i] == groups[..i];
      var slug := Slug(groups[i].name);
      if slug != "" { want := want[slug := groups[i].name]; }
    }
    assert groups[..|groups|] == groups;
  }
}
