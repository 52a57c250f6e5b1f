/** reconcile.go and the users table: accounts that left the CTI go missing, and inactive after a day. */
module Accounts {
  const GRACE := 86400

  /** missingSince is zero for an account that is not missing. */
  datatype ChatUser = ChatUser(name: string, missingSince: int, inactive: bool)

  /** Which writes and calls of a round fail: the store's, by username, and the reading of the subscriptions. */
  datatype Faults = Faults(present: set<string>, missing: set<string>, subscriptions: set<string>, inactive: map<string, nat>)

  /** What a round reads: the CTI's users with their names, nothing when that fails, and whether the accounts are read. */
  datatype Reading = Reading(directory: map<string, string>, accounts: bool, now: int, faults: Faults)

  /** An empty or unreadable directory is nothing to compare with. */
  predicate Acts(r: Reading) { r.directory != map[] && r.accounts }

  function Missing(users: map<string, ChatUser>, directory: map<string, string>): set<string> {
    set u | u in users && u !in directory && !users[u].inactive
  }

  function Active(users: map<string, ChatUser>): set<string> { set u | u in users && !users[u].inactive }

  /** Half of the accounts gone at once: taken for a directory problem. */
  predicate Guarded(users: map<string, ChatUser>, directory: map<string, string>) {
    |Missing(users, directory)| > 2 && |Missing(users, directory)| * 2 > |Active(users)|
  }

  /** SetInactive's statements: two for the devices, then the mark; it stops at the first that fails. */
  const MARK := 2

  function StopsAt(f: Faults, u: string): nat { if u in f.inactive then f.inactive[u] else MARK + 1 }

  predicate Retires(row: ChatUser, u: string, r: Reading) {
    row.missingSince != 0 && r.now - row.missingSince >= GRACE && u !in r.faults.subscriptions
  }

  /** An account the directory has. */
  function Present(row: ChatUser, u: string, r: Reading): ChatUser
    requires u in r.directory
  {
    if (row.missingSince != 0 || row.inactive || row.name != r.directory[u]) && u !in r.faults.present
    then ChatUser(r.directory[u], 0, false) else row
  }

  /** An active account the directory lacks. */
  function Gone(row: ChatUser, u: string, r: Reading): ChatUser {
    if row.missingSince == 0 then (if u in r.faults.missing then row else row.(missingSince := r.now))
    else if Retires(row, u, r) && StopsAt(r.faults, u) > MARK then row.(inactive := true)
    else row
  }

  function RowAfter(row: ChatUser, u: string, r: Reading, guarded: bool): ChatUser {
    if u in r.directory then Present(row, u, r)
    else if row.inactive || guarded then row
    else Gone(row, u, r)
  }

  function UsersAfter(users: map<string, ChatUser>, r: Reading): map<string, ChatUser> {
    if !Acts(r) then users
    else map u | u in users :: RowAfter(users[u], u, r, Guarded(users, r.directory))
  }

  /** Whose registrations of one kind are deleted: statement n is reached and does not fail. */
  function Dropped(users: map<string, ChatUser>, r: Reading, n: nat): set<string> {
    if !Acts(r) || Guarded(users, r.directory) then {}
    else set u | u in Missing(users, r.directory) && Retires(users[u], u, r) && StopsAt(r.faults, u) > n
  }

  function Kicks(users: map<string, ChatUser>, r: Reading): set<string> {
    if !Acts(r) || Guarded(users, r.directory) then {} else Missing(users, r.directory)
  }

  class Reconciler {
    var users: map<string, ChatUser>
    var web: set<string>     // who has browser subscriptions
    var pnm: set<string>     // who has devices of the app
    var kicked: set<string>  // disconnected by the last round

    constructor ()
      ensures users == map[] && web == {} && pnm == {} && kicked == {}
    {
      users, web, pnm, kicked := map[], {}, {}, {};
    }

    method SeenUser(username: string, name: string)
      modifies this`users
      ensures users == Seen(old(users), username, name)
    {
      if username !in users {
        users := users[username := ChatUser(name, 0, false)];
      } else if name != "" && name != users[username].name {
        users := users[username := users[username].(name := name)];
      }
    }

    method SetPresent(u: string, name: string, fails: bool)
      requires u in users
      modifies this`users
      ensures users == if fails then old(users) else old(users)[u := ChatUser(name, 0, false)]
    {
      if !fails { users := users[u := ChatUser(name, 0, false)]; }
    }

    method SetMissing(u: string, since: int, fails: bool)
      requires u in users
      modifies this`users
      ensures users == if fails then old(users) else old(users)[u := old(users)[u].(missingSince := since)]
    {
      if !fails { users := users[u := users[u].(missingSince := since)]; }
    }

    method SetInactive(u: string, stopsAt: nat)
      requires u in users
      modifies this`users, this`web, this`pnm
      ensures web == (if stopsAt > 0 then old(web) - {u} else old(web))
      ensures pnm == (if stopsAt > 1 then old(pnm) - {u} else old(pnm))
      ensures users == if stopsAt > MARK then old(users)[u := old(users)[u].(inactive := true)] else old(users)
    {
      if stopsAt == 0 { return; }
      web := web - {u};
      if stopsAt == 1 { return; }
      pnm := pnm - {u};
      if stopsAt == MARK { return; }
      users := users[u := users[u].(inactive := true)];
    }

    /** One row of the first loop. */
    method CompareOne(u: string, row: ChatUser, r: Reading, missing: set<string>, active: nat)
      returns (missing': set<string>, active': nat)
      requires u in users && users[u] == row
      modifies this`users
      ensures users == old(users)[u := if u in r.directory then Present(row, u, r) else row]
      ensures missing' == missing + if u !in r.directory && !row.inactive then {u} else {}
      ensures active' == active + if row.inactive then 0 else 1
    {
      missing', active' := missing, active;
      if u in r.directory {
        if row.missingSince != 0 || row.inactive || row.name != r.directory[u] {
          SetPresent(u, r.directory[u], u in r.faults.present);
        }
      } else if !row.inactive {
        missing' := missing + {u};
      }
      if !row.inactive { active' := active + 1; }
      assert old(users)[u := row] == old(users);
    }

    /** The first loop: those present get their row back, those missing are counted. */
    method Compare(r: Reading) returns (missing: set<string>, active: nat)
      modifies this`users
      ensures users == Compared(old(users), r, old(users).Keys)
      ensures missing == Missing(old(users), r.directory) && active == |Active(old(users))|
    {
      var known := users;
      var rest := known.Keys;
      missing, active := {}, 0;
      ghost var done: set<string> := {};
      assert Compared(known, r, {}) == known;
      while rest != {}
        invariant rest !! done && rest + done == known.Keys
        invariant users == Compared(known, r, done)
        invariant missing == Missing(known, r.directory) * done && active == |Active(known) * done|
        decreases rest
      {
        var u :| u in rest;
        OneMore(known.Keys, rest, done, u);
        rest, done := rest - {u}, done + {u};
        missing, active := CompareOne(u, known[u], r, missing, active);
        ComparedMore(known, r, done - {u}, u);
      }
      assert done == known.Keys;
      assert Missing(known, r.directory) * done == Missing(known, r.directory);
      assert Active(known) * done == Active(known);
    }

    /** The second loop: those missing are disconnected, marked, and in the end retired. */
    method Part(r: Reading, missing: set<string>)
      requires missing <= users.Keys
      modifies this`users, this`web, this`pnm, this`kicked
      ensures users == Parted(old(users), r, missing) && kicked == missing
      ensures web == old(web) - Stopped(old(users), r, missing, 0)
      ensures pnm == old(pnm) - Stopped(old(users), r, missing, 1)
    {
      var rest := missing;
      kicked := {};
      ghost var done: set<string> := {};
      while rest != {}
        invariant rest <= missing && done == missing - rest && kicked == done
        invariant users == Parted(old(users), r, done)
        invariant web == old(web) - Stopped(old(users), r, done, 0)
        invariant pnm == old(pnm) - Stopped(old(users), r, done, 1)
        decreases rest
      {
        var u :| u in rest;
        kicked := kicked + {u};
        ghost var before := users;
        if users[u].missingSince == 0 {
          SetMissing(u, r.now, u in r.faults.missing);
        } else if r.now - users[u].missingSince >= GRACE {
          if u !in r.faults.subscriptions { SetInactive(u, StopsAt(r.faults, u)); }
        }
        PartedMore(old(users), r, done, u);
        assert users == before[u := Gone(before[u], u, r)];
        rest, done := rest - {u}, done + {u};
      }
      assert done == missing;
    }

    /** A round of Reconcile, from its readings on. */
    method Reconcile(r: Reading)
      modifies this
      ensures users == UsersAfter(old(users), r) && kicked == Kicks(old(users), r)
      ensures Registrations(web, pnm) == Left(Registrations(old(web), old(pnm)), old(users), r)
    {
      kicked := {};
      if r.directory == map[] || !r.accounts { return; }
      var missing, active := Compare(r);
      if |missing| > 2 && |missing| * 2 > active {
        assert users == UsersAfter(old(users), r);
        return;
      }
      Part(r, missing);
      assert users == UsersAfter(old(users), r);
      assert Stopped(Compared(old(users), r, old(users).Keys), r, missing, 0) == Dropped(old(users), r, 0);
      assert Stopped(Compared(old(users), r, old(users).Keys), r, missing, 1) == Dropped(old(users), r, 1);
    }
  }

  function Compared(users: map<string, ChatUser>, r: Reading, done: set<string>): map<string, ChatUser> {
    map u | u in users :: if u in done && u in r.directory then Present(users[u], u, r) else users[u]
  }

  lemma OneMore(all: set<string>, rest: set<string>, done: set<string>, u: string)
    requires rest !! done && rest + done == all && u in rest
    ensures rest - {u} !! done + {u} && (rest - {u}) + (done + {u}) == all && done + {u} - {u} == done
  {
  }

  lemma ComparedMore(users: map<string, ChatUser>, r: Reading, done: set<string>, u: string)
    requires u in users && u !in done
    ensures Compared(users, r, done + {u})
      == Compared(users, r, done)[u := if u in r.directory then Present(users[u], u, r) else users[u]]
    ensures Missing(users, r.directory) * (done + {u})
      == Missing(users, r.directory) * done + if u !in r.directory && !users[u].inactive then {u} else {}
    ensures |Active(users) * (done + {u})| == |Active(users) * done| + if users[u].inactive then 0 else 1
  {
    if users[u].inactive {
      assert Active(users) * (done + {u}) == Active(users) * done;
    } else {
      assert Active(users) * (done + {u}) == Active(users) * done + {u};
    }
  }

  function Parted(users: map<string, ChatUser>, r: Reading, done: set<string>): map<string, ChatUser> {
    map u | u in users :: if u in done then Gone(users[u], u, r) else users[u]
  }

  function Stopped(users: map<string, ChatUser>, r: Reading, done: set<string>, n: nat): set<string>
    requires done <= users.Keys
  {
    set u | u in done && Retires(users[u], u, r) && StopsAt(r.faults, u) > n
  }

  lemma PartedMore(users: map<string, ChatUser>, r: Reading, done: set<string>, u: string)
    requires done <= users.Keys && u in users && u !in done
    ensures Parted(users, r, done + {u}) == Parted(users, r, done)[u := Gone(users[u], u, r)]
    ensures forall n: nat :: (Stopped(users, r, done + {u}, n)
      == Stopped(users, r, done, n) + if Retires(users[u], u, r) && StopsAt(r.faults, u) > n then {u} else {})
  {
  }

  /** SeenUser's upsert: a row that is there only ever gets another name. */
  function Seen(users: map<string, ChatUser>, username: string, name: string): map<string, ChatUser> {
    if username !in users then users[username := ChatUser(name, 0, false)]
    else if name != "" then users[username := users[username].(name := name)]
    else users
  }

  // ---- One round ----

  function Marked(users: map<string, ChatUser>, after: map<string, ChatUser>): set<string> {
    set u | u in users && u in after && users[u].missingSince == 0 && after[u].missingSince != 0
  }

  function Retired(users: map<string, ChatUser>, after: map<string, ChatUser>): set<string> {
    set u | u in users && u in after && !users[u].inactive && after[u].inactive
  }

  lemma {:induction false} Smaller(a: set<string>, b: set<string>)
    requires a <= b
    ensures |a| <= |b|
  {
    if a != {} {
      var x :| x in a;
      Smaller(a - {x}, b - {x});
    }
  }

  /** Main result: a round never marks and retires more than two accounts, unless they are at most half of the active
      ones; it disconnects only those it may mark. */
  lemma FewOrHalf(users: map<string, ChatUser>, r: Reading)
    ensures var hit := Marked(users, UsersAfter(users, r)) + Retired(users, UsersAfter(users, r)) + Kicks(users, r);
      |hit| <= 2 || |hit| * 2 <= |Active(users)|
  {
    var hit := Marked(users, UsersAfter(users, r)) + Retired(users, UsersAfter(users, r)) + Kicks(users, r);
    if Acts(r) && !Guarded(users, r.directory) {
      assert hit <= Missing(users, r.directory);
      Smaller(hit, Missing(users, r.directory));
    } else {
      assert hit == {};
    }
  }

  /** Whoever a round retires has no registration left, even when a later statement or a crash stops the rest. */
  lemma RetiredHaveNoDevices(users: map<string, ChatUser>, r: Reading)
    ensures Retired(users, UsersAfter(users, r)) <= Dropped(users, r, 0)
    ensures Dropped(users, r, 1) <= Dropped(users, r, 0) && Retired(users, UsersAfter(users, r)) <= Dropped(users, r, 1)
  {
  }

  // ---- Runs ----

  datatype Event = SeenUser(username: string, name: string) | Round(r: Reading)

  function Apply(users: map<string, ChatUser>, e: Event): map<string, ChatUser> {
    match e
    case SeenUser(u, name) => Seen(users, u, name)
    case Round(r) => UsersAfter(users, r)
  }

  /** The accounts after a run from an empty table. */
  function After(es: seq<Event>): map<string, ChatUser> {
    if es == [] then map[] else Apply(After(es[..|es| - 1]), es[|es| - 1])
  }

  lemma AfterStep(es: seq<Event>, n: nat)
    requires n < |es|
    ensures After(es[..n + 1]) == Apply(After(es[..n]), es[n])
  {
    assert es[..n + 1][..n] == es[..n];
  }

  predicate ActsAt(es: seq<Event>, i: int) { 0 <= i < |es| && es[i].Round? && Acts(es[i].r) }

  predicate AbsentAt(es: seq<Event>, i: int, u: string) { ActsAt(es, i) && u !in es[i].r.directory }

  /** The round reads a directory with u, and takes note of it: the accounts can be read, and what is to be written of
      u's presence is not lost. */
  predicate Notices(e: Event, u: string) {
    e.Round? && u in e.r.directory && e.r.accounts && u !in e.r.faults.present
  }

  /** No round from i on took note of u. */
  predicate UnnoticedFrom(es: seq<Event>, i: int, u: string) {
    0 <= i <= |es| && forall k :: i <= k < |es| ==> !Notices(es[k], u)
  }

  /** Where a missing mark comes from. */
  predicate MarkedAt(es: seq<Event>, i: int, u: string, since: int) {
    AbsentAt(es, i, u) && es[i].r.now == since && UnnoticedFrom(es, i, u)
  }

  /** Which rounds made u inactive: it was absent in both, a day apart, and not noticed since the first. */
  predicate GraceAt(es: seq<Event>, i: int, j: int, u: string) {
    i < j && AbsentAt(es, i, u) && AbsentAt(es, j, u) && es[j].r.now - es[i].r.now >= GRACE && UnnoticedFrom(es, i, u)
  }

  /** An event that takes no note of u leaves it inactive, and its mark in place. */
  lemma AwayStep(users: map<string, ChatUser>, e: Event, u: string)
    requires u in users && !Notices(e, u)
    ensures u in Apply(users, e) && (users[u].inactive ==> Apply(users, e)[u].inactive)
    ensures users[u].missingSince != 0 ==> Apply(users, e)[u].missingSince == users[u].missingSince
  {
  }

  /** An event that does clears both. */
  lemma NoticedStep(users: map<string, ChatUser>, e: Event, u: string)
    requires u in users && Notices(e, u)
    ensures Apply(users, e)[u].missingSince == 0 && !Apply(users, e)[u].inactive
  {
  }

  /** Only an absence marks an account, and only a later one retires it. */
  lemma AbsentStep(users: map<string, ChatUser>, e: Event, u: string)
    requires u in users && u in Apply(users, e)
    ensures var row, row' := users[u], Apply(users, e)[u];
      var absent := e.Round? && Acts(e.r) && u !in e.r.directory;
      && (row.missingSince == 0 && row'.missingSince != 0 ==> absent && row'.missingSince == e.r.now)
      && (!row.inactive && row'.inactive ==> absent && row.missingSince != 0 && e.r.now - row.missingSince >= GRACE)
  {
  }

  /** Main result: over any run, an account is inactive only if it was absent at some round, absent a day or more later,
      and no round since the first took note of it: each that read a directory with it could not read the accounts, or
      lost the write of its presence. A missing mark has such a first round, and inactive accounts carry one. */
  lemma {:induction false} InactiveOnlyAfterGrace(es: seq<Event>, u: string)
    returns (i: int, j: int)
    requires u in After(es)
    ensures After(es)[u].missingSince != 0 ==> MarkedAt(es, i, u, After(es)[u].missingSince)
    ensures After(es)[u].inactive ==> After(es)[u].missingSince != 0 && GraceAt(es, i, j, u)
    decreases |es|
  {
    i, j := 0, 0;
    var n := |es| - 1;
    var before, e := es[..n], es[n];
    assert es == before + [e];
    if u in After(before) {
      var row, row' := After(before)[u], After(es)[u];
      i, j := InactiveOnlyAfterGrace(before, u);
      AbsentStep(After(before), e, u);
      if Notices(e, u) {
        NoticedStep(After(before), e, u);
      } else if row.missingSince == 0 {
        i := n;
      } else {
        AwayStep(After(before), e, u);
        assert AbsentAt(es, i, u) by { assert AbsentAt(before, i, u) && es[i] == before[i]; }
        if row.inactive {
          assert AbsentAt(es, j, u) by { assert AbsentAt(before, j, u) && es[j] == before[j]; }
        } else {
          j := n;
        }
      }
    }
  }

  /** The event shows u under another name, or absent. */
  predicate Disturbs(e: Event, u: string, name: string) {
    match e
    case SeenUser(v, n) => v == u && n != name
    case Round(r) => Acts(r) && (u !in r.directory || r.directory[u] != name)
  }

  /** Main result: an account noticed by a round is active under the directory's name, and stays so over every run in
      which no round misses it and nothing shows it under another name. */
  lemma {:induction false} PresentAreBack(es: seq<Event>, k: nat, u: string)
    requires k < |es| && Notices(es[k], u) && u in After(es[..k])
    requires forall j :: k < j < |es| ==> !Disturbs(es[j], u, es[k].r.directory[u])
    ensures u in After(es) && After(es)[u] == ChatUser(es[k].r.directory[u], 0, false)
    decreases |es|
  {
    var n := |es| - 1;
    if k < n {
      assert es[..n][..k] == es[..k];
      PresentAreBack(es[..n], k, u);
      assert !Disturbs(es[n], u, es[k].r.directory[u]);
    }
  }

  // ---- Registrations and disconnections ----

  /** Who has browser subscriptions, and who has devices of the app. */
  datatype Registrations = Registrations(web: set<string>, pnm: set<string>)

  function Left(regs: Registrations, users: map<string, ChatUser>, r: Reading): Registrations {
    Registrations(regs.web - Dropped(users, r, 0), regs.pnm - Dropped(users, r, 1))
  }

  /** The account is active, not in the directory read, and that many missing are believed. */
  predicate Believed(users: map<string, ChatUser>, r: Reading, u: string) {
    && r.accounts && r.directory != map[] && u in users && u !in r.directory && !users[u].inactive
    && (var missing := set v | v in users && v !in r.directory && !users[v].inactive;
        |missing| <= 2 || 2 * |missing| <= |set v | v in users && !users[v].inactive|)
  }

  /** A round disconnects exactly the accounts it misses and believes to be gone. */
  lemma MissedAreKicked(users: map<string, ChatUser>, r: Reading, u: string)
    ensures u in Kicks(users, r) <==> Believed(users, r, u)
  {
    assert Missing(users, r.directory) == set v | v in users && v !in r.directory && !users[v].inactive;
    assert Active(users) == set v | v in users && !users[v].inactive;
  }

  /** A mark at least a day old. */
  predicate GraceOver(row: ChatUser, now: int) { row.missingSince != 0 && now - row.missingSince >= GRACE }

  /** What a round does to a row: one noticed is active under its name again, one believed to be gone is marked at its
      first absence and inactive from a day later on, when nothing failed before that statement; no other changes. */
  lemma RowExactly(users: map<string, ChatUser>, r: Reading, u: string)
    requires u in users
    ensures u in UsersAfter(users, r)
    ensures var row, row' := users[u], UsersAfter(users, r)[u];
      && (Notices(Round(r), u) ==> row' == ChatUser(r.directory[u], 0, false))
      && (Believed(users, r, u) ==>
            && row'.name == row.name
            && row'.missingSince == (if row.missingSince == 0 && u !in r.faults.missing then r.now else row.missingSince)
            && (row'.inactive <==> GraceOver(row, r.now) && u !in r.faults.subscriptions
                                   && (u in r.faults.inactive ==> r.faults.inactive[u] >= 3)))
      && (!Notices(Round(r), u) && !Believed(users, r, u) ==> row' == row)
  {
    MissedAreKicked(users, r, u);
  }

  /** Main result: in a round an account loses a registration exactly when it is believed to be gone, carries a mark at
      least a day old, its rooms could be read, and the delete got that far; every other registration stays. */
  lemma LosesExactly(regs: Registrations, users: map<string, ChatUser>, r: Reading, u: string)
    ensures var lost := Believed(users, r, u) && GraceOver(users[u], r.now) && u !in r.faults.subscriptions;
      && (u in Left(regs, users, r).web <==> u in regs.web && !(lost && (u in r.faults.inactive ==> r.faults.inactive[u] >= 1)))
      && (u in Left(regs, users, r).pnm <==> u in regs.pnm && !(lost && (u in r.faults.inactive ==> r.faults.inactive[u] >= 2)))
  {
    MissedAreKicked(users, r, u);
  }

  /** Main result, over runs: an account loses a registration only in a round from which it was absent, a day or more
      after another such round, with no round in between that took note of it. */
  lemma LosesOnlyAfterGrace(es: seq<Event>, n: nat, regs: Registrations, u: string) returns (i: int)
    requires n < |es| && es[n].Round?
    requires var left := Left(regs, After(es[..n]), es[n].r); (u in regs.web && u !in left.web) || (u in regs.pnm && u !in left.pnm)
    ensures 0 <= i < n && AbsentAt(es, i, u) && AbsentAt(es, n, u) && es[n].r.now - es[i].r.now >= GRACE
    ensures UnnoticedFrom(es[..n + 1], i, u)
  {
    LosesExactly(regs, After(es[..n]), es[n].r, u);
    var j;
    i, j := InactiveOnlyAfterGrace(es[..n], u);
    assert MarkedAt(es[..n], i, u, After(es[..n])[u].missingSince);
    assert es[..n][i] == es[i];
    var run := es[..n + 1];
    forall k | i <= k < |run| ensures !Notices(run[k], u) {
      if k < n { assert run[k] == es[..n][k]; }
    }
  }

  /** Logging in makes an account, and changes nothing but a name otherwise. */
  lemma SeenOnlyNames(users: map<string, ChatUser>, u: string, name: string, v: string)
    ensures var users' := Seen(users, u, name);
      && (v in users' <==> v in users || v == u)
      && (v in users ==> users'[v].missingSince == users[v].missingSince && users'[v].inactive == users[v].inactive
                         && users'[v].name == if v == u && name != "" then name else users[v].name)
      && (u !in users ==> users'[u] == ChatUser(name, 0, false))
  {
  }

  const FINE := Faults({}, {}, {}, map[])

  /** A round over the one account "a". */
  lemma OneAccount(row: ChatUser, r: Reading)
    requires Acts(r)
    ensures UsersAfter(map["a" := row], r) == map["a" := RowAfter(row, "a", r, false)]
  {
    Smaller(Missing(map["a" := row], r.directory), {"a"});
    assert |{"a"}| == 1;
  }

  /** With a failing write it fails: "a" is back at the second round, the write is lost, and one later absence,
      a day after the first, retires it at once. */
  lemma LostPresenceRetires(away: Reading, back: Reading, later: Reading)
    requires away == Reading(map["b" := "B"], true, 100, FINE)
    requires back == Reading(map["a" := "A"], true, 200, FINE.(present := {"a"}))
    requires later == away.(now := 100 + GRACE)
    ensures var es := [SeenUser("a", "A"), Round(away), Round(back), Round(later)];
      After(es) == map["a" := ChatUser("A", 100, true)] && "a" in back.directory && Acts(back)
  {
    var es := [SeenUser("a", "A"), Round(away), Round(back), Round(later)];
    assert "b" in away.directory && "a" in back.directory;
    AfterStep(es, 0);
    AfterStep(es, 1);
    AfterStep(es, 2);
    AfterStep(es, 3);
    assert es[..4] == es;
    OneAccount(ChatUser("A", 0, false), away);
    OneAccount(ChatUser("A", 100, false), back);
    OneAccount(ChatUser("A", 100, false), later);
  }

  /** So does a round that reads the directory, with "a" in it, but not the accounts. */
  lemma UnreadAccountsRetire(away: Reading, back: Reading, later: Reading)
    requires away == Reading(map["b" := "B"], true, 100, FINE)
    requires back == Reading(map["a" := "A"], false, 200, FINE)
    requires later == away.(now := 100 + GRACE)
    ensures var es := [SeenUser("a", "A"), Round(away), Round(back), Round(later)];
      After(es) == map["a" := ChatUser("A", 100, true)] && "a" in back.directory
  {
    var es := [SeenUser("a", "A"), Round(away), Round(back), Round(later)];
    assert "b" in away.directory && "a" in back.directory;
    AfterStep(es, 0);
    AfterStep(es, 1);
    AfterStep(es, 2);
    AfterStep(es, 3);
    assert es[..4] == es;
    OneAccount(ChatUser("A", 0, false), away);
    OneAccount(ChatUser("A", 100, false), later);
  }

  // ---- The other direction ----

  /** Round i reads its directory, and is not taken for a directory problem. */
  predicate SweepsAt(es: seq<Event>, i: int) { ActsAt(es, i) && !Guarded(After(es[..i]), es[i].r.directory) }

  ghost predicate NoFaults(es: seq<Event>, u: string) {
    forall k :: ActsAt(es, k) ==>
      u !in es[k].r.faults.missing && u !in es[k].r.faults.subscriptions && u !in es[k].r.faults.inactive
  }

  predicate ClockOrdered(es: seq<Event>) {
    forall i, k :: 0 <= i <= k < |es| && ActsAt(es, i) && ActsAt(es, k) ==> 0 < es[i].r.now <= es[k].r.now
  }

  /** Since round i the account has been marked, at that round at the latest. */
  lemma {:induction false} StaysMarked(es: seq<Event>, u: string, i: int, n: nat)
    requires NoFaults(es, u) && ClockOrdered(es) && i < n <= |es|
    requires SweepsAt(es, i) && AbsentAt(es, i, u) && UnnoticedFrom(es, i, u) && u in After(es[..i])
    requires forall k :: 0 <= k <= i && u in After(es[..k]) ==> After(es[..k])[u].missingSince <= es[i].r.now
    requires u in After(es[..i]) && After(es[..i])[u].inactive ==> After(es[..i])[u].missingSince != 0
    ensures u in After(es[..n]) && 0 != After(es[..n])[u].missingSince <= es[i].r.now
    decreases n
  {
    AfterStep(es, n - 1);
    if n - 1 > i {
      StaysMarked(es, u, i, n - 1);
      assert !Notices(es[n - 1], u);
      AwayStep(After(es[..n - 1]), es[n - 1], u);
    } else {
      assert ActsAt(es, i) && AbsentAt(es, i, u);
    }
  }

  lemma {:induction false} StaysInactive(es: seq<Event>, u: string, j: nat, n: nat)
    requires j < n <= |es| && UnnoticedFrom(es, j, u)
    requires u in After(es[..j + 1]) && After(es[..j + 1])[u].inactive
    ensures u in After(es[..n]) && After(es[..n])[u].inactive
    decreases n
  {
    if n > j + 1 {
      StaysInactive(es, u, j, n - 1);
      AfterStep(es, n - 1);
      assert !Notices(es[n - 1], u);
      AwayStep(After(es[..n - 1]), es[n - 1], u);
    }
  }

  /** A mark is never later than the rounds so far. */
  lemma {:induction false} MarksArePast(es: seq<Event>, u: string, k: nat, i: nat)
    requires k <= i < |es| && ActsAt(es, i) && ClockOrdered(es) && u in After(es[..k])
    ensures After(es[..k])[u].missingSince <= es[i].r.now
    ensures After(es[..k])[u].inactive ==> After(es[..k])[u].missingSince != 0
    decreases k
  {
    if k > 0 {
      AfterStep(es, k - 1);
      assert 0 < es[i].r.now;
      if u in After(es[..k - 1]) { MarksArePast(es, u, k - 1, i); }
      if ActsAt(es, k - 1) { assert es[k - 1].r.now <= es[i].r.now; }
    }
  }

  /** Main result, the other direction: an account absent at two rounds a day apart and not noticed since the first, neither
      taken for a directory problem, is inactive in the end, when no call about it fails and the clock does not go back. */
  lemma {:induction false} RetiredAfterGrace(es: seq<Event>, u: string, i: nat, j: nat)
    requires NoFaults(es, u) && ClockOrdered(es)
    requires GraceAt(es, i, j, u) && SweepsAt(es, i) && SweepsAt(es, j) && u in After(es[..i])
    ensures u in After(es) && After(es)[u].inactive
  {
    assert After(es[..i])[u].inactive ==> After(es[..i])[u].missingSince != 0 by { MarksArePast(es, u, i, i); }
    forall k: int | 0 <= k <= i && u in After(es[..k]) ensures After(es[..k])[u].missingSince <= es[i].r.now {
      MarksArePast(es, u, k, i);
    }
    StaysMarked(es, u, i, j);
    AfterStep(es, j);
    assert ActsAt(es, j);
    assert After(es[..j + 1])[u].inactive;
    StaysInactive(es, u, j, |es|);
    assert es[..|es|] == es;
  }
}
