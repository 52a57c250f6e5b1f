/** What rounds of SyncGroups achieve, over any number of them and from any rooms. */
module CtiConvergence {
  import opened Text
  import opened Fingerprint
  import opened CtiGroups

  /** A room of the gateway's own kind that a member on another host keeps wrong. */
  predicate Stuck(room: Option<Room>, host: string) {
    room.Some? && !Privileged(room.value) && Foreign(room.value, host)
  }

  lemma NewRoomIsRight(name: string, members: set<string>, host: string)
    ensures Right(NewRoom(name, members, host), members, host)
  {
  }

  /** Members after an adjustment in which no call failed. */
  lemma AdjustedMembers(r: Room, name: string, members: set<string>, host: string, renamed: bool, f: Faults)
    requires !Privileged(r)
    requires members - Current(r) !! f.users && Current(r) - members !! f.users
    ensures var r' := Adjusted(r, name, members, host, renamed, f);
      !Privileged(r') && MemberJids(r') == MemberJids(r) + Jids(members - Current(r), host) - Jids(Current(r) - members, host)
  {
    assert members - Current(r) - Lost(f) == members - Current(r);
    assert Current(r) - members - Lost(f) == Current(r) - members;
  }

  lemma AdjustedIsRight(r: Room, name: string, members: set<string>, host: string, renamed: bool, f: Faults)
    requires !Privileged(r)
    requires members - Current(r) !! f.users && Current(r) - members !! f.users
    ensures Right(Adjusted(r, name, members, host, renamed, f), members, host) <==> !Foreign(r, host)
  {
    var r' := Adjusted(r, name, members, host, renamed, f);
    AdjustedMembers(r, name, members, host, renamed, f);
    if j :| j in MemberJids(r) && j.host != host {
      assert j in MemberJids(r') && j !in Jids(members, host);
    } else {
      forall j ensures j in MemberJids(r') <==> j in Jids(members, host) {
        assert j in MemberJids(r) ==> j.user in Current(r);
        if j.user in Current(r) && j.host == host {
          var k :| k in MemberJids(r) && k.user == j.user;
          assert k == j;
        }
      }
    }
  }

  /** One room: a step whose calls all succeed puts it right exactly when it was not stuck. */
  lemma StepIsRight(room: Option<Room>, name: string, members: set<string>, host: string, renamed: bool, f: Faults)
    requires RoomOk(room, members, f)
    ensures var r := RoomAfter(room, name, members, host, renamed, f);
      r.Some? && (Right(r.value, members, host) <==> !Stuck(room, host))
  {
    if room.Some? && !Privileged(room.value) {
      AdjustedIsRight(room.value, name, members, host, renamed, f);
    } else {
      NewRoomIsRight(name, members, host);
    }
  }

  /** Every wanted room is there, with the operators of its group as its members and nobody above them. */
  predicate Converged(rooms: map<string, Room>, x: Inputs, host: string)
    requires x.members.Keys == x.want.Keys
  {
    forall slug <- x.want :: slug in rooms && Right(rooms[slug], x.members[slug], host)
  }

  /** Main result: from any rooms, a sync without a failing call leaves exactly the wanted rooms of the gateway, each
      one right unless it was stuck, the store equal to what is wanted and every other room alone. */
  lemma SyncConverges(w: World, x: Inputs, host: string, faults: string -> Faults, w': World)
    requires x.members.Keys == x.want.Keys && x.known == w.known
    requires Synced(w, x, host, faults, w', true) && forall s :: !faults(s).store
    ensures forall slug <- x.want ::
      slug in w'.rooms && (Right(w'.rooms[slug], x.members[slug], host) <==> !Stuck(Get(w.rooms, slug), host))
    ensures forall slug <- w.known :: slug !in x.want ==> slug !in w'.rooms
    ensures forall slug :: slug !in x.want && slug !in w.known ==> Get(w'.rooms, slug) == Get(w.rooms, slug)
    ensures w'.known == x.want
    ensures Converged(w'.rooms, x, host) <==> forall slug <- x.want :: !Stuck(Get(w.rooms, slug), host)
  {
    forall slug | slug in x.want
      ensures slug in w'.rooms && (Right(w'.rooms[slug], x.members[slug], host) <==> !Stuck(Get(w.rooms, slug), host))
    {
      assert StepOk(w.rooms, x, faults(slug), slug);
      StepIsRight(Get(w.rooms, slug), x.want[slug], x.members[slug], host, Renamed(x, slug), faults(slug));
      assert Get(w'.rooms, slug) == After(w.rooms, x, host, faults(slug), slug);
    }
    forall slug ensures slug in w.known && slug !in x.want ==> slug !in w'.rooms {
      assert slug in w.known && slug !in x.want ==> StepOk(w.rooms, x, faults(slug), slug);
      assert Get(w'.rooms, slug) == if slug in x.want.Keys + x.known.Keys then After(w.rooms, x, host, faults(slug), slug) else Get(w.rooms, slug);
    }
    forall slug ensures Get(w'.known, slug) == Get(x.want, slug) {
      assert slug in x.want.Keys + x.known.Keys ==> StepOk(w.rooms, x, faults(slug), slug);
    }
    SameMap(w'.known, x.want);
  }

  // ---- When calls fail ----

  /** The calls about one person have no effect. */
  predicate LosesUser(f: Faults, u: string) { u in f.users && u !in f.unseen.users }

  /** Whatever calls fail, the room of a group that is gone goes exactly when its destruction takes effect, and its row
      exactly when that call is known to have worked and the store writes: until then each round tries again. */
  lemma GoneWhenDestroyed(w: World, x: Inputs, host: string, faults: string -> Faults, w': World, ok: bool, slug: string)
    requires x.members.Keys == x.want.Keys && x.known == w.known && Synced(w, x, host, faults, w', ok)
    requires slug in w.known && slug !in x.want
    ensures var f := faults(slug);
      && (f.destroy && !f.unseen.destroy ==> Get(w'.rooms, slug) == Get(w.rooms, slug))
      && (!f.destroy || f.unseen.destroy ==> slug !in w'.rooms)
      && (f.destroy || f.store ==> Get(w'.known, slug) == Some(w.known[slug])) && (!f.destroy && !f.store ==> slug !in w'.known)
      && (f.destroy ==> !ok)
  {
    assert Get(w'.rooms, slug) == After(w.rooms, x, host, faults(slug), slug);
    assert Get(w'.known, slug) == KnownAfter(w.rooms, x, faults(slug), slug);
    assert StepOk(w.rooms, x, faults(slug), slug) <==> !faults(slug).destroy;
  }

  /** Nor does a failing call about one person keep any other from getting in or out of a room. */
  lemma MembersOneByOne(w: World, x: Inputs, host: string, faults: string -> Faults, w': World, ok: bool, slug: string, j: Jid)
    requires x.members.Keys == x.want.Keys && x.known == w.known && Synced(w, x, host, faults, w', ok)
    requires slug in x.want && slug in w.rooms && !Privileged(w.rooms[slug]) && !faults(slug).get
    ensures slug in w'.rooms
    ensures var room, now, f := w.rooms[slug], w'.rooms[slug].affs, faults(slug);
      var member := exists k :: k in room.affs && room.affs[k] == Member && k.user == j.user;
      if j.host == host && j.user in x.members[slug] && !member && !LosesUser(f, j.user) then Get(now, j) == Some(Member)
      else if j.host == host && j.user !in x.members[slug] && member && !LosesUser(f, j.user) then j !in now
      else Get(now, j) == Get(room.affs, j)
  {
    var room, f, members := w.rooms[slug], faults(slug), x.members[slug];
    assert Get(w'.rooms, slug) == After(w.rooms, x, host, f, slug);
    AdjustedOne(room, x.want[slug], members, host, Renamed(x, slug), f, j);
  }

  lemma AdjustedOne(r: Room, name: string, members: set<string>, host: string, renamed: bool, f: Faults, j: Jid)
    ensures var now := Adjusted(r, name, members, host, renamed, f).affs;
      var member := exists k :: k in r.affs && r.affs[k] == Member && k.user == j.user;
      if j.host == host && j.user in members && !member && !LosesUser(f, j.user) then Get(now, j) == Some(Member)
      else if j.host == host && j.user !in members && member && !LosesUser(f, j.user) then j !in now
      else Get(now, j) == Get(r.affs, j)
  {
    assert j.user in Current(r) <==> exists k :: k in r.affs && r.affs[k] == Member && k.user == j.user;
    assert j.user in Lost(f) <==> LosesUser(f, j.user);
    assert forall users :: j in Jids(users, host) <==> j.host == host && j.user in users;
  }

  /** The rows are the store's: none changes when it does not write. */
  lemma RowsAreTheStores(w: World, x: Inputs, host: string, faults: string -> Faults, w': World, ok: bool, slug: string)
    requires x.members.Keys == x.want.Keys && x.known == w.known && Synced(w, x, host, faults, w', ok) && faults(slug).store
    ensures Get(w'.known, slug) == Get(w.known, slug)
  {
    assert Get(w'.known, slug)
        == if slug in x.want.Keys + x.known.Keys then KnownAfter(w.rooms, x, faults(slug), slug) else Get(x.known, slug);
  }

  /** A room that cannot be read, or that should be made again and is not destroyed, is left alone with its row; one that
      is to be made and is not is missing, its row as it was. */
  lemma LeftForTheNextRound(w: World, x: Inputs, host: string, faults: string -> Faults, w': World, ok: bool, slug: string)
    requires x.members.Keys == x.want.Keys && x.known == w.known && Synced(w, x, host, faults, w', ok) && slug in x.want
    requires var f, room := faults(slug), Get(w.rooms, slug);
      f.get || (room.Some? && Privileged(room.value) && f.destroy) || ((room.None? || Privileged(room.value)) && f.create)
    ensures !ok && Get(w'.known, slug) == Get(w.known, slug)
    ensures var f, room := faults(slug), Get(w.rooms, slug);
      && (f.get || (room.Some? && f.destroy && !f.unseen.destroy) ==> Get(w'.rooms, slug) == room)
      && (!f.get && f.create && !f.unseen.create && (room.Some? ==> !f.destroy) ==> slug !in w'.rooms)
      && (!f.get && room.Some? && f.destroy && f.unseen.destroy ==> slug !in w'.rooms)
  {
    assert Get(w'.rooms, slug) == After(w.rooms, x, host, faults(slug), slug);
    assert Get(w'.known, slug) == KnownAfter(w.rooms, x, faults(slug), slug);
    assert !StepOk(w.rooms, x, faults(slug), slug);
  }

  // ---- From the reading of a round ----

  /** Some group of the reading gives this slug. */
  ghost predicate Gives(groups: seq<Group>, slug: string) {
    slug != "" && exists g :: g in groups && SlugText(g.name) == slug
  }

  lemma {:induction false} WantIs(groups: seq<Group>, slug: string)
    ensures slug in Want(groups) <==> Gives(groups, slug)
    ensures slug in Want(groups) ==> exists g :: g in groups && g.name == Want(groups)[slug] && SlugText(g.name) == slug
  {
    if groups != [] {
      var n := |groups| - 1;
      assert groups == groups[..n] + [groups[n]];
      WantIs(groups[..n], slug);
      if SlugText(groups[n].name) == slug { assert groups[n] in groups; }
    }
  }

  lemma {:induction false} UsersIs(groups: seq<Group>, name: string)
    requires exists g :: g in groups && g.name == name
    ensures exists g :: g in groups && g.name == name && Users(groups, name) == g.users
  {
    var n := |groups| - 1;
    assert groups == groups[..n] + [groups[n]];
    if groups[n].name == name {
      assert groups[n] in groups;
    } else {
      UsersIs(groups[..n], name);
    }
  }

  /** The room of a slug has the group's operators, those of its users that the directory has, and nobody else below an
      owner or admin; and the store has the group's name for it. */
  ghost predicate HasOperators(w: World, slug: string, g: Group, directory: set<Username>, host: string) {
    && slug in w.rooms && slug in w.known && w.known[slug] == g.name && SlugText(g.name) == slug
    && !Privileged(w.rooms[slug])
    && forall j :: j in MemberJids(w.rooms[slug]) <==> j.host == host && j.user in g.users && j.user in directory
  }

  /** Main result, from what the round reads: a round that goes through has a room for exactly the groups whose names
      give a slug, each unless it was stuck with just those users of its group that the directory has; and no room any
      more that the store had for another slug. */
  lemma RoundConverges(w: World, r: Reading, host: string, w': World, slug: string)
    requires r.groups.Some? && r.directory.Some? && Succeeds(w, r, host, w') && forall s :: !r.faults(s).store
    ensures slug in w'.known <==> Gives(r.groups.value, slug)
    ensures slug in w.known && !Gives(r.groups.value, slug) ==> slug !in w'.rooms
    ensures Gives(r.groups.value, slug) ==> slug in w'.rooms
    ensures Gives(r.groups.value, slug) && !Stuck(Get(w.rooms, slug), host) ==>
      exists g :: g in r.groups.value && HasOperators(w', slug, g, r.directory.value, host)
  {
    var x := RoundInputs(w, r);
    var w1 := w'.(lastGroups := w.lastGroups, lastFull := w.lastFull);
    SyncConverges(w, x, host, r.faults, w1);
    WantIs(r.groups.value, slug);
    if Gives(r.groups.value, slug) && !Stuck(Get(w.rooms, slug), host) {
      var name := x.want[slug];
      UsersIs(r.groups.value, name);
      var g :| g in r.groups.value && g.name == name && Users(r.groups.value, name) == g.users;
      assert Right(w'.rooms[slug], x.members[slug], host);
      RightMembers(w'.rooms[slug], x.members[slug], g.users, r.directory.value, host);
      assert HasOperators(w', slug, g, r.directory.value, host);
    }
  }

  lemma RightMembers(room: Room, members: set<string>, users: seq<string>, directory: set<Username>, host: string)
    requires Right(room, members, host) && members == set u | u in users && u in directory
    ensures forall j :: j in MemberJids(room) <==> j.host == host && j.user in users && j.user in directory
  {
    forall j ensures j in MemberJids(room) <==> j.host == host && j.user in users && j.user in directory {
      assert j in Jids(members, host) <==> j.host == host && j.user in members;
    }
  }

  /** What keeps a round from acting at all: nobody logged in, something unreadable or empty, or no groups at all while
      the store knows rooms. */
  predicate Hiccup(w: World, r: Reading) {
    || !r.token || r.groups == None || r.directory == None || r.directory == Some({}) || !r.storeReads
    || (r.groups == Some([]) && exists slug :: slug in w.known)
  }

  /** Such a round changes nothing; every other one does what its fingerprint says. */
  lemma HiccupsAreHarmless(w: World, r: Reading, host: string, w': World)
    requires Round(w, r, host, w')
    ensures Hiccup(w, r) ==> w' == w
    ensures Hiccup(w, r) <==> !Acts(w, r)
  {
  }

  // ---- Titles ----

  /** A room the store knows goes by the name stored for it. */
  predicate TitlesMatch(w: World) { forall slug <- w.known :: slug in w.rooms ==> w.rooms[slug].title == w.known[slug] }

  /** The call that would have renamed the room fails: the store has the new name all the same. */
  predicate TitleLost(w: World, x: Inputs, f: Faults, slug: string)
    requires slug in x.want
  {
    && slug in w.rooms && !Privileged(w.rooms[slug]) && Renamed(x, slug)
    && f.title && w.rooms[slug].title != x.want[slug]
  }

  /** Main result: after a complete sync every wanted room goes by its group's name, if and only if no call that would
      have renamed one failed. */
  lemma TitleFollows(w: World, x: Inputs, host: string, faults: string -> Faults, w': World)
    requires x.members.Keys == x.want.Keys && x.known == w.known && TitlesMatch(w)
    requires Synced(w, x, host, faults, w', true)
    ensures forall slug <- x.want :: slug in w'.rooms
    ensures (forall slug <- x.want :: w'.rooms[slug].title == x.want[slug])
            <==> forall slug <- x.want :: !TitleLost(w, x, faults(slug), slug)
  {
    forall slug | slug in x.want
      ensures slug in w'.rooms && (w'.rooms[slug].title == x.want[slug] <==> !TitleLost(w, x, faults(slug), slug))
    {
      assert StepOk(w.rooms, x, faults(slug), slug);
      assert Get(w'.rooms, slug) == After(w.rooms, x, host, faults(slug), slug);
    }
  }

  /** And it is never made good: on rooms with the right members the store's name counts, so a later sync leaves the
      wrong title. */
  lemma LostTitleStays(w: World, x: Inputs, host: string, faults: string -> Faults, w': World, ok: bool, slug: string)
    requires x.members.Keys == x.want.Keys && x.known == w.known == x.want
    requires Converged(w.rooms, x, host) && Synced(w, x, host, faults, w', ok)
    requires slug in x.want && w.rooms[slug].title != x.want[slug]
    ensures slug in w'.rooms && w'.rooms[slug].title != x.want[slug]
  {
    SecondSyncIsQuiet(w, x, host, faults, w', ok);
  }

  lemma SameMap<V>(a: map<string, V>, b: map<string, V>)
    requires forall k :: Get(a, k) == Get(b, k)
    ensures a == b
  {
    forall k ensures k in a <==> k in b {
      assert Get(a, k) == Get(b, k);
    }
    forall k | k in a ensures a[k] == b[k] {
      assert Get(a, k) == Get(b, k);
    }
  }

  lemma RightIsQuiet(r: Room, name: string, members: set<string>, host: string, f: Faults)
    requires Right(r, members, host)
    ensures Current(r) == members && RoomAfter(Some(r), name, members, host, false, f) == Some(r)
  {
    forall u ensures u in Current(r) <==> u in members {
      assert u in members ==> Jid(u, host) in MemberJids(r);
      if j :| j in MemberJids(r) && j.user == u {
        assert j in Jids(members, host);
      }
    }
    assert members - Current(r) - Lost(f) == {} && Current(r) - members - Lost(f) == {};
    WithMembersMore(r.affs, {}, "", host);
    WithoutMore(r.affs, {}, "", host);
  }

  /** Main result: on converged rooms a full sync makes no call but reads, whichever of those fail. */
  lemma SecondSyncIsQuiet(w: World, x: Inputs, host: string, faults: string -> Faults, w': World, ok: bool)
    requires x.members.Keys == x.want.Keys && x.known == w.known == x.want
    requires Converged(w.rooms, x, host) && Synced(w, x, host, faults, w', ok)
    ensures w' == w && NoneTouched(w.rooms, x, faults, x.want.Keys + x.known.Keys)
    ensures ok <==> forall slug <- x.want :: !faults(slug).get
  {
    forall slug
      ensures Get(w'.rooms, slug) == Get(w.rooms, slug) && Get(w'.known, slug) == Get(w.known, slug)
      ensures slug in x.want ==> !StepTouches(w.rooms, x, faults(slug), slug)
      ensures slug in x.want ==> (StepOk(w.rooms, x, faults(slug), slug) <==> !faults(slug).get)
    {
      if slug in x.want {
        RightIsQuiet(w.rooms[slug], x.want[slug], x.members[slug], host, faults(slug));
      }
    }
    SameMap(w'.rooms, w.rooms);
    SameMap(w'.known, w.known);
  }

  /** A room whose member is on another host is never put right, however often it is synced. */
  lemma ForeignMemberStays()
    ensures var r := Room(map[Jid("a", "else") := Member], "Ops");
      var f := Faults(false, false, false, {}, false, false, NOTHING_UNSEEN);
      RoomOk(Some(r), {"a"}, f) && RoomAfter(Some(r), "Ops", {"a"}, "here", false, f) == Some(r) && !Right(r, {"a"}, "here")
  {
    var r := Room(map[Jid("a", "else") := Member], "Ops");
    var f := Faults(false, false, false, {}, false, false, NOTHING_UNSEEN);
    assert Jid("a", "else") in r.affs;
    assert Current(r) == {"a"} by { assert Jid("a", "else").user == "a"; }
    WithMembersMore(r.affs, {}, "", "here");
    WithoutMore(r.affs, {}, "", "here");
    assert {"a"} - Current(r) - Lost(f) == {} && Current(r) - {"a"} - Lost(f) == {};
    assert Jid("a", "else") in MemberJids(r) && Jid("a", "else") !in Jids({"a"}, "here");
  }

  // ---- Runs ----

  ghost predicate Run(ws: seq<World>, rs: seq<Reading>, host: string) {
    |ws| == |rs| + 1 && forall i :: 0 <= i < |rs| ==> Round(ws[i], rs[i], host, ws[i + 1])
  }

  /** The round syncs, and every step goes through. */
  ghost predicate Succeeds(w: World, r: Reading, host: string, w': World) {
    && Acts(w, r) && !Skips(w, r)
    && Synced(w, RoundInputs(w, r), host, r.faults, w'.(lastGroups := w.lastGroups, lastFull := w.lastFull), true)
  }

  /** The round syncs, and a step fails. */
  ghost predicate Fails(w: World, r: Reading, host: string, w': World) {
    Acts(w, r) && !Skips(w, r) && Synced(w, RoundInputs(w, r), host, r.faults, w', false)
  }

  /** A round succeeds and records itself, fails and leaves the record, or changes nothing. */
  lemma RoundCases(w: World, r: Reading, host: string, w': World)
    requires Round(w, r, host, w')
    ensures || (Succeeds(w, r, host, w') && w'.lastGroups == Print(RoundInputs(w, r)) && w'.lastFull == r.now)
            || (Fails(w, r, host, w') && w'.lastGroups == w.lastGroups && w'.lastFull == w.lastFull)
            || w' == w
    ensures Succeeds(w, r, host, w') ==> w'.lastGroups == Print(RoundInputs(w, r)) && w'.lastFull == r.now
    ensures !Succeeds(w, r, host, w') ==> w'.lastGroups == w.lastGroups && w'.lastFull == w.lastFull
  {
    if Acts(w, r) && !Skips(w, r) {
      var x := RoundInputs(w, r);
      var w1, ok :| Synced(w, x, host, r.faults, w1, ok)
        && w' == if ok then w1.(lastGroups := Print(x), lastFull := r.now) else w1;
      assert w1 == if ok then w'.(lastGroups := w.lastGroups, lastFull := w.lastFull) else w';
    }
  }

  /** Round k of the run succeeded and none after it: the record is its own. */
  ghost predicate LastSuccess(ws: seq<World>, rs: seq<Reading>, host: string, k: nat)
    requires |ws| == |rs| + 1
  {
    && k < |rs| && Succeeds(ws[k], rs[k], host, ws[k + 1])
    && (forall i :: k < i < |rs| ==> !Succeeds(ws[i], rs[i], host, ws[i + 1]))
    && ws[|rs|].lastGroups == Print(RoundInputs(ws[k], rs[k])) && ws[|rs|].lastFull == rs[k].now
  }

  ghost predicate NoFailureSince(ws: seq<World>, rs: seq<Reading>, host: string, k: nat)
    requires |ws| == |rs| + 1
  {
    forall i :: k < i < |rs| ==> !Fails(ws[i], rs[i], host, ws[i + 1])
  }

  ghost predicate NoSuccess(ws: seq<World>, rs: seq<Reading>, host: string)
    requires |ws| == |rs| + 1
  {
    forall i :: 0 <= i < |rs| ==> !Succeeds(ws[i], rs[i], host, ws[i + 1])
  }

  /** One round more, which did not succeed. */
  lemma StillLast(ws: seq<World>, rs: seq<Reading>, host: string, k: nat)
    requires |ws| == |rs| + 1 && rs != []
    requires var n := |rs| - 1;
      && LastSuccess(ws[..n + 1], rs[..n], host, k) && !Succeeds(ws[n], rs[n], host, ws[n + 1])
      && ws[n + 1].lastGroups == ws[n].lastGroups && ws[n + 1].lastFull == ws[n].lastFull
    ensures LastSuccess(ws, rs, host, k)
  {
    var n := |rs| - 1;
    forall i | k < i < |rs| ensures !Succeeds(ws[i], rs[i], host, ws[i + 1]) {
      if i < n { assert !Succeeds(ws[..n + 1][i], rs[..n][i], host, ws[..n + 1][i + 1]); }
    }
  }

  lemma StillNone(ws: seq<World>, rs: seq<Reading>, host: string)
    requires |ws| == |rs| + 1 && rs != []
    requires var n := |rs| - 1; NoSuccess(ws[..n + 1], rs[..n], host) && !Succeeds(ws[n], rs[n], host, ws[n + 1])
    ensures NoSuccess(ws, rs, host)
  {
    var n := |rs| - 1;
    forall i | 0 <= i < |rs| ensures !Succeeds(ws[i], rs[i], host, ws[i + 1]) {
      if i < n { assert !Succeeds(ws[..n + 1][i], rs[..n][i], host, ws[..n + 1][i + 1]); }
    }
  }

  /** The record is the one of the last successful round, or the first. */
  lemma {:induction false} RecordComesFrom(ws: seq<World>, rs: seq<Reading>, host: string)
    returns (k: nat, none: bool)
    requires Run(ws, rs, host)
    ensures none ==> NoSuccess(ws, rs, host)
                     && ws[|rs|].lastGroups == ws[0].lastGroups && ws[|rs|].lastFull == ws[0].lastFull
    ensures !none ==> LastSuccess(ws, rs, host, k)
    decreases |rs|
  {
    if rs == [] { return 0, true; }
    var n := |rs| - 1;
    RoundCases(ws[n], rs[n], host, ws[n + 1]);
    if Succeeds(ws[n], rs[n], host, ws[n + 1]) { return n, false; }
    k, none := RecordComesFrom(ws[..n + 1], rs[..n], host);
    if none { StillNone(ws, rs, host); } else { StillLast(ws, rs, host, k); }
  }

  /** Without a failure since the last success, the rooms and the store are as it left them. */
  lemma {:induction false} UnchangedSince(ws: seq<World>, rs: seq<Reading>, host: string, k: nat, i: nat)
    requires Run(ws, rs, host) && LastSuccess(ws, rs, host, k) && NoFailureSince(ws, rs, host, k) && k < i <= |rs|
    ensures ws[i].rooms == ws[k + 1].rooms && ws[i].known == ws[k + 1].known
  {
    if i > k + 1 {
      UnchangedSince(ws, rs, host, k, i - 1);
      RoundCases(ws[i - 1], rs[i - 1], host, ws[i]);
      assert !Succeeds(ws[i - 1], rs[i - 1], host, ws[i]) && !Fails(ws[i - 1], rs[i - 1], host, ws[i]);
    }
  }

  // ---- Plain names ----

  /** Group names without ';', usernames without ':', ',' or ';'. */
  predicate PlainNames(r: Reading) { r.groups.Some? ==> forall g <- r.groups.value :: PlainGroup(g) }

  predicate PlainGroup(g: Group) {
    SEMI !in g.name && forall u <- g.users :: COLON !in u && COMMA !in u && SEMI !in u
  }

  predicate PlainKnown(known: map<string, string>) { forall slug <- known :: IsSlug(slug) && SEMI !in known[slug] }

  lemma {:induction false} WantPlain(groups: seq<Group>)
    requires forall g <- groups :: PlainGroup(g)
    ensures forall slug <- Want(groups) :: SEMI !in Want(groups)[slug]
    ensures forall name, u :: u in Users(groups, name) ==> COLON !in u && COMMA !in u && SEMI !in u
  {
    if groups != [] {
      var n := |groups| - 1;
      assert groups[n] in groups && forall g <- groups[..n] :: g in groups;
      WantPlain(groups[..n]);
    }
  }

  /** The directory has no empty username, so plain names make plain inputs. */
  lemma InputsPlain(w: World, r: Reading)
    requires Acts(w, r) && PlainNames(r) && PlainKnown(w.known)
    ensures Plain(RoundInputs(w, r))
  {
    WantPlain(r.groups.value);
    var x := RoundInputs(w, r);
    forall slug | slug in x.members ensures forall u <- x.members[slug] :: PlainUser(u) {
      forall u | u in x.members[slug] ensures PlainUser(u) {
        assert u in r.directory.value;
      }
    }
  }

  lemma RoundKeepsPlain(w: World, r: Reading, host: string, w': World)
    requires Round(w, r, host, w') && PlainKnown(w.known) && PlainNames(r)
    ensures PlainKnown(w'.known)
  {
    if Acts(w, r) && !Skips(w, r) {
      var x := RoundInputs(w, r);
      InputsPlain(w, r);
      var w1, ok :| Synced(w, x, host, r.faults, w1, ok)
        && w' == if ok then w1.(lastGroups := Print(x), lastFull := r.now) else w1;
      SyncKeepsPlain(w, x, host, r.faults, w1, ok);
    }
  }

  lemma SyncKeepsPlain(w: World, x: Inputs, host: string, faults: string -> Faults, w': World, ok: bool)
    requires Plain(x) && x.known == w.known && Synced(w, x, host, faults, w', ok)
    ensures PlainKnown(w'.known)
  {
    forall slug | slug in w'.known ensures IsSlug(slug) && SEMI !in w'.known[slug] {
      assert Get(w'.known, slug) == Some(w'.known[slug]);
    }
  }

  lemma {:induction false} RunKeepsPlain(ws: seq<World>, rs: seq<Reading>, host: string, i: nat)
    requires Run(ws, rs, host) && i <= |rs| && PlainKnown(ws[0].known)
    requires forall r <- rs :: PlainNames(r)
    ensures PlainKnown(ws[i].known)
  {
    if i > 0 {
      RunKeepsPlain(ws, rs, host, i - 1);
      assert rs[i - 1] in rs;
      RoundKeepsPlain(ws[i - 1], rs[i - 1], host, ws[i]);
    }
  }

  /** The gateway has just started: no record, and a time of the last full sync that is long ago. */
  predicate Started(w: World) { w.lastGroups == "" && w.lastFull == 0 && PlainKnown(w.known) }

  /** Main result: after any run, a failed last round or not, the next round is skipped if and only if it has the very
      inputs of the last sync that went through, and that one is less than half an hour old. */
  lemma SkippedExactlyWhen(ws: seq<World>, rs: seq<Reading>, host: string, r: Reading)
    requires Run(ws, rs, host) && Started(ws[0]) && Acts(ws[|rs|], r)
    requires PlainNames(r) && r.now >= FULL_SYNC_SECONDS && forall r <- rs :: PlainNames(r)
    ensures Skips(ws[|rs|], r)
            <==> exists k: nat :: LastSuccess(ws, rs, host, k) && RoundInputs(ws[k], rs[k]) == RoundInputs(ws[|rs|], r)
                                  && r.now - rs[k].now < FULL_SYNC_SECONDS
  {
    var x := RoundInputs(ws[|rs|], r);
    RunKeepsPlain(ws, rs, host, |rs|);
    InputsPlain(ws[|rs|], r);
    var k, none := RecordComesFrom(ws, rs, host);
    if none {
      assert forall k :: !LastSuccess(ws, rs, host, k);
    } else {
      SameInputs(ws, rs, host, k, x);
      forall k' | LastSuccess(ws, rs, host, k') ensures k' == k {}
    }
  }

  /** The record names the inputs it was made of. */
  lemma SameInputs(ws: seq<World>, rs: seq<Reading>, host: string, k: nat, x: Inputs)
    requires Run(ws, rs, host) && Started(ws[0]) && LastSuccess(ws, rs, host, k) && Plain(x)
    requires forall r <- rs :: PlainNames(r)
    ensures Print(x) == ws[|rs|].lastGroups <==> RoundInputs(ws[k], rs[k]) == x
  {
    assert Succeeds(ws[k], rs[k], host, ws[k + 1]) && Acts(ws[k], rs[k]);
    RunKeepsPlain(ws, rs, host, k);
    assert rs[k] in rs;
    InputsPlain(ws[k], rs[k]);
    FingerprintIsExact(x, RoundInputs(ws[k], rs[k]));
  }

  /** Main result: over any run, a round skipped by its fingerprint has the very inputs of a sync that went through
      before; without a failed sync since then, the rooms are still as that one left them, with nothing to do. */
  lemma SkippedIsCovered(ws: seq<World>, rs: seq<Reading>, host: string, r: Reading) returns (k: nat)
    requires Run(ws, rs, host) && Started(ws[0]) && Acts(ws[|rs|], r) && Skips(ws[|rs|], r)
    requires PlainNames(r) && r.now >= FULL_SYNC_SECONDS && forall r <- rs :: PlainNames(r)
    ensures var x := RoundInputs(ws[|rs|], r);
      && LastSuccess(ws, rs, host, k) && RoundInputs(ws[k], rs[k]) == x
      && (NoFailureSince(ws, rs, host, k) && (forall s :: !rs[k].faults(s).store) ==>
            && ws[|rs|].known == x.want
            && (Converged(ws[|rs|].rooms, x, host) <==> forall slug <- x.want :: !Stuck(Get(ws[k].rooms, slug), host)))
  {
    var x := RoundInputs(ws[|rs|], r);
    SkippedExactlyWhen(ws, rs, host, r);
    var none;
    k, none := RecordComesFrom(ws, rs, host);
    assert !none;
    assert Succeeds(ws[k], rs[k], host, ws[k + 1]) && Acts(ws[k], rs[k]);
    if NoFailureSince(ws, rs, host, k) && (forall s :: !rs[k].faults(s).store) {
      UnchangedSince(ws, rs, host, k, |rs|);
      SyncConverges(ws[k], x, host, rs[k].faults, ws[k + 1].(lastGroups := ws[k].lastGroups, lastFull := ws[k].lastFull));
    }
  }

  // ---- A skip after a failure ----

  function OneGroup(user: string, now: int, faults: string -> Faults): Reading {
    Reading(true, Some([Group("x", [user])]), Some({"a", "b"}), true, now, faults)
  }

  function OneRoom(user: string): Room { Room(map[Jid(user, "here") := Member], "x") }

  function OneInput(user: string): (x: Inputs)
    ensures x.members.Keys == x.want.Keys
  {
    Inputs(map["x" := "x"], map["x" := {user}], map["x" := "x"])
  }

  lemma OneWant(g: Group)
    requires g.name == "x"
    ensures Want([g]) == map["x" := "x"] && Users([g], "x") == g.users
  {
    assert SlugText("x"[..0]) == "" && SlugText("x") == "x";
    assert [g][..0] == [];
  }

  lemma OneInputsOf(user: string, directory: set<Username>)
    requires user in directory
    ensures InputsOf([Group("x", [user])], directory, map["x" := "x"]) == OneInput(user)
  {
    OneWant(Group("x", [user]));
    var users := set u | u in [user] && u in directory;
    assert user in [user] && users == {user};
    var members := InputsOf([Group("x", [user])], directory, map["x" := "x"]).members;
    assert members.Keys == {"x"} && members["x"] == users;
  }

  lemma OneGroupInputs(w: World, r: Reading, user: string)
    requires user in {"a", "b"} && w.known == map["x" := "x"] && r == OneGroup(user, r.now, r.faults)
    ensures Acts(w, r) && RoundInputs(w, r) == OneInput(user)
  {
    OneInputsOf(user, {"a", "b"});
  }

  /** Only the removal of "a" fails; adding "b" goes through. */
  const FAILING: string -> Faults := (slug: string) => Faults(false, false, false, {"a"}, false, false, NOTHING_UNSEEN)

  lemma RoundThatFails(w: World, w': World)
    requires w.rooms == map["x" := OneRoom("a")] && w.known == map["x" := "x"]
    requires w' == w.(rooms := map["x" := Room(map[Jid("a", "here") := Member, Jid("b", "here") := Member], "x")])
    ensures Synced(w, OneInput("b"), "here", FAILING, w', false)
  {
    var x, f := OneInput("b"), FAILING("x");
    var r := OneRoom("a");
    assert Jid("a", "here") in r.affs;
    assert Current(r) == {"a"} by { assert Jid("a", "here").user == "a"; }
    assert !Renamed(x, "x");
    var members: set<string> := {"b"};
    assert members - Current(r) - Lost(f) == {"b"};
    assert Current(r) - members - Lost(f) == {};
    JidsMore({}, "b", "here");
    assert Jids({}, "here") == {} && Jids({} + {"b"}, "here") == {Jid("b", "here")};
    assert {} + {"b"} == {"b"};
    assert WithMembers(r.affs, {"b"}, "here") == w'.rooms["x"].affs;
    WithoutMore(w'.rooms["x"].affs, {}, "", "here");
    assert Adjusted(r, "x", members, "here", false, f) == w'.rooms["x"];
    assert "a" in Current(r) - members && "a" in f.users;
    assert After(w.rooms, x, "here", f, "x") == Some(w'.rooms["x"]);
    assert x.want.Keys + x.known.Keys == {"x"};
    assert !StepOk(w.rooms, x, f, "x");
    assert !AllOk(w.rooms, x, FAILING, {"x"}) by { assert "x" in {"x"}; }
  }

  ghost function InOrder(): World { World(map["x" := OneRoom("a")], map["x" := "x"], Print(OneInput("a")), 0) }

  ghost function HalfDone(): World {
    InOrder().(rooms := map["x" := Room(map[Jid("a", "here") := Member, Jid("b", "here") := Member], "x")])
  }

  lemma OneInputsDiffer()
    ensures Print(OneInput("a")) != Print(OneInput("b"))
  {
    PlainOne("a");
    PlainOne("b");
    FingerprintIsExact(OneInput("a"), OneInput("b"));
    assert "a" in OneInput("a").members["x"] && "a" !in OneInput("b").members["x"];
  }

  lemma FailingRound(r: Reading)
    requires r == OneGroup("b", 120, FAILING)
    ensures Round(InOrder(), r, "here", HalfDone()) && Fails(InOrder(), r, "here", HalfDone())
  {
    OneGroupInputs(InOrder(), r, "b");
    RoundThatFails(InOrder(), HalfDone());
    OneInputsDiffer();
    assert !Skips(InOrder(), r);
  }

  /** The round reads these inputs and is skipped. */
  ghost predicate SkipsWith(w: World, r: Reading, x: Inputs) { Acts(w, r) && Skips(w, r) && RoundInputs(w, r) == x }

  /** Without that condition it fails. The room was in order and recorded; a round for a new group adds "b" but fails
      to take "a" out; the CTI goes back to the old group, whose fingerprint is still the recorded one: skipped. */
  lemma {:induction false} SkipAfterFailure(r1: Reading, r2: Reading)
    requires r1 == OneGroup("b", 120, FAILING) && r2 == OneGroup("a", 240, FAILING)
    ensures Round(InOrder(), r1, "here", HalfDone()) && Fails(InOrder(), r1, "here", HalfDone())
    ensures SkipsWith(HalfDone(), r2, OneInput("a"))
    ensures Converged(InOrder().rooms, OneInput("a"), "here") && !Converged(HalfDone().rooms, OneInput("a"), "here")
  {
    FailingRound(r1);
    OneGroupInputs(HalfDone(), r2, "a");
    OnlyAIsRight();
  }

  lemma OnlyAIsRight()
    ensures Converged(InOrder().rooms, OneInput("a"), "here") && !Converged(HalfDone().rooms, OneInput("a"), "here")
  {
    assert Jids({"a"}, "here") == {Jid("a", "here")} == MemberJids(OneRoom("a"));
    assert Jid("b", "here") in MemberJids(HalfDone().rooms["x"]) && Jid("b", "here") !in Jids({"a"}, "here");
    assert OneInput("a").members["x"] == {"a"};
    assert "x" in OneInput("a").want;
  }

  lemma PlainOne(user: string)
    requires user in {"a", "b"}
    ensures Plain(OneInput(user))
  {
    assert IsSlug("x");
    assert PlainUser(user);
  }
}
