/** http.go and the app's tables: what a person deletes in the app, and what a fetch makes of it later. */
module Hidden {
  import opened Fetch
  import opened FetchItems

  /** A row's key: whose it is, and the app's id. */
  type Key = (string, string)

  datatype Row = Row(ref: string, peer: string, author: string, at: int)

  /** The tables app_msgs and app_hidden; the archive of each person, and all that was ever in it; the retractions asked
      for; the clock. */
  datatype State = State(rows: map<Key, Row>, hidden: map<Key, int>, archive: set<(string, Message)>,
                         born: set<(string, Message)>, retracted: set<(string, string, string)>, now: int)

  // ---- The tables ----

  /** INSERT OR IGNORE */
  function PutOne(rows: map<Key, Row>, user: string, m: AppMsg, at: int): map<Key, Row> {
    if (user, m.smsId) in rows then rows else rows[(user, m.smsId) := Row(m.ref, m.peer, m.author, at)]
  }

  function PutAll(rows: map<Key, Row>, user: string, msgs: seq<AppMsg>, at: int): map<Key, Row> {
    if msgs == [] then rows else PutOne(PutAll(rows, user, msgs[..|msgs| - 1], at), user, msgs[|msgs| - 1], at)
  }

  function HideOne(hidden: map<Key, int>, user: string, id: string, at: int): map<Key, int> {
    if (user, id) in hidden then hidden else hidden[(user, id) := at]
  }

  function HiddenOf(hidden: map<Key, int>, user: string): set<string> { set k | k in hidden && k.0 == user :: k.1 }

  function PrunedRows(rows: map<Key, Row>, before: int): map<Key, Row> { map k | k in rows && rows[k].at >= before :: rows[k] }

  function PrunedHidden(hidden: map<Key, int>, before: int): map<Key, int> { map k | k in hidden && hidden[k] >= before :: hidden[k] }

  /** AppMsgIDs: exactly the ids of this author's message with this reference in this chat. */
  ghost predicate ListsIds(ids: seq<string>, rows: map<Key, Row>, user: string, peer: string, ref: string, author: string) {
    forall id :: id in ids <==> (user, id) in rows && rows[(user, id)].(at := 0) == Row(ref, peer, author, 0)
  }

  // ---- deleteMessages ----

  datatype Del = Del(smsId: string, everywhere: bool)

  /** The person's own message, as recorded, that a delete request takes back for everyone. */
  predicate TakesBack(rows: map<Key, Row>, user: string, d: Del) {
    d.everywhere && (user, d.smsId) in rows && rows[(user, d.smsId)].author == user
  }

  /** The ids hidden by the first n deletes. */
  function HideAll(hidden: map<Key, int>, user: string, dels: seq<Del>, at: int): map<Key, int> {
    if dels == [] then hidden
    else
      var before, d := HideAll(hidden, user, dels[..|dels| - 1], at), dels[|dels| - 1];
      if IsArchiveID(d.smsId) then HideOne(before, user, d.smsId, at) else before
  }

  function Retractions(rows: map<Key, Row>, user: string, dels: seq<Del>): set<(string, string, string)> {
    set d | d in dels && IsArchiveID(d.smsId) && TakesBack(rows, user, d) ::
      (user, rows[(user, d.smsId)].peer, rows[(user, d.smsId)].ref)
  }

  class Tables {
    var rows: map<Key, Row>
    var hidden: map<Key, int>
    var retracted: set<(string, string, string)>

    constructor ()
      ensures rows == map[] && hidden == map[] && retracted == {}
    {
      rows, hidden, retracted := map[], map[], {};
    }

    method PutAppMsgs(user: string, msgs: seq<AppMsg>, now: int)
      modifies this`rows
      ensures rows == PutAll(old(rows), user, msgs, now)
    {
      for i := 0 to |msgs|
        invariant rows == PutAll(old(rows), user, msgs[..i], now)
      {
        assert msgs[..i + 1][..i] == msgs[..i];
        if (user, msgs[i].smsId) !in rows {
          rows := rows[(user, msgs[i].smsId) := Row(msgs[i].ref, msgs[i].peer, msgs[i].author, now)];
        }
      }
      assert msgs[..|msgs|] == msgs;
    }

    method Hide(user: string, id: string, now: int)
      modifies this`hidden
      ensures hidden == HideOne(old(hidden), user, id, now)
    {
      if (user, id) !in hidden { hidden := hidden[(user, id) := now]; }
    }

    /** Each statement on its own, both from the same date. */
    method PruneAppMsgs(before: int)
      modifies this`rows, this`hidden
      ensures rows == PrunedRows(old(rows), before) && hidden == PrunedHidden(old(hidden), before)
    {
      rows := map k | k in rows && rows[k].at >= before :: rows[k];
      hidden := map k | k in hidden && hidden[k] >= before :: hidden[k];
    }

    /** deleteMessages: up to the first retraction that fails. */
    method DeleteMessages(user: string, dels: seq<Del>, now: int, fails: set<nat>) returns (code: nat)
      modifies this`hidden, this`retracted
      ensures code == 400 <==> |dels| == 0 || |dels| > 100
      ensures code == 400 ==> hidden == old(hidden) && retracted == old(retracted)
      ensures var done := DoneOf(rows, user, dels, fails, 0);
        code != 400 ==>
          && hidden == HideAll(old(hidden), user, dels[..done], now)
          && retracted == old(retracted) + Retractions(rows, user, dels[..done])
          && code == if Stops(rows, user, dels, fails, done) then 502 else 200
    {
      if |dels| == 0 || |dels| > 100 { return 400; }
      var i := 0;
      while i < |dels|
        invariant i <= |dels| && DoneOf(rows, user, dels, fails, 0) == DoneOf(rows, user, dels, fails, i)
        invariant hidden == HideAll(old(hidden), user, dels[..i], now)
        invariant retracted == old(retracted) + Retractions(rows, user, dels[..i])
        invariant !Stops(rows, user, dels, fails, i)
      {
        DeleteStep(old(hidden), rows, user, dels, i, now);
        var d := dels[i];
        i := i + 1;
        var ok := ArchiveID(d.smsId);
        if !ok { continue; }
        Hide(user, d.smsId, now);
        if (user, d.smsId) !in rows || !d.everywhere || rows[(user, d.smsId)].author != user { continue; }
        retracted := retracted + {(user, rows[(user, d.smsId)].peer, rows[(user, d.smsId)].ref)};
        if i - 1 in fails { return 502; }
      }
      code := 200;
    }
  }

  /** The request ended at a retraction that failed, the one before i. */
  predicate Stops(rows: map<Key, Row>, user: string, dels: seq<Del>, fails: set<nat>, i: nat)
    requires i <= |dels|
  {
    i > 0 && i - 1 in fails && IsArchiveID(dels[i - 1].smsId) && TakesBack(rows, user, dels[i - 1])
  }

  lemma DeleteStep(hidden: map<Key, int>, rows: map<Key, Row>, user: string, dels: seq<Del>, i: nat, at: int)
    requires i < |dels|
    ensures HideAll(hidden, user, dels[..i + 1], at)
      == var before := HideAll(hidden, user, dels[..i], at);
         if IsArchiveID(dels[i].smsId) then HideOne(before, user, dels[i].smsId, at) else before
    ensures Retractions(rows, user, dels[..i + 1]) == Retractions(rows, user, dels[..i])
      + if IsArchiveID(dels[i].smsId) && TakesBack(rows, user, dels[i])
        then {(user, rows[(user, dels[i].smsId)].peer, rows[(user, dels[i].smsId)].ref)} else {}
  {
    assert dels[..i + 1][..i] == dels[..i];
    assert dels[..i + 1] == dels[..i] + [dels[i]];
  }

  // ---- Runs ----

  datatype Event =
    | Arrive(user: string, m: Message)
    | Tick(now: int, dropped: set<(string, Message)>)
    | Fetched(user: string, x: Context, msgs: seq<Message>)
    | Posted(user: string, x: Context, m: Message) // the row sendMessage puts for the message it just sent
    | Deleted(user: string, dels: seq<Del>, fails: set<nat>)
    | Prune

  /** keep: how long the archive and the tables keep things. */
  ghost predicate CanHappen(s: State, e: Event, keep: int) {
    match e
    case Arrive(user, m) => m.at == s.now && forall k :: (user, k) in s.born ==> k.id != m.id
    case Tick(now, _) => now >= s.now
    case Fetched(user, x, msgs) =>
      && x.user == user && x.hidden == HiddenOf(s.hidden, user) && (forall m <- msgs :: (user, m) in s.archive)
      && forall peer, ref, author :: ListsIds(x.appIds(peer, ref, author), s.rows, user, peer, ref, author)
    case Posted(user, x, m) => x.user == user && (user, m) in s.archive && m.room == "" && m.from == x.me && Local(x.me) == user
    case _ => true
  }

  /** How many deletes of a request, from i on, are looked at. */
  function DoneOf(rows: map<Key, Row>, user: string, dels: seq<Del>, fails: set<nat>, i: nat): (r: nat)
    requires i <= |dels|
    ensures i <= r <= |dels|
    decreases |dels| - i
  {
    if i == |dels| || Stops(rows, user, dels, fails, i + 1) then (if i == |dels| then i else i + 1)
    else DoneOf(rows, user, dels, fails, i + 1)
  }

  /** The archive keeps nothing longer, and may drop more. */
  function StillThere(archive: set<(string, Message)>, dropped: set<(string, Message)>, before: int): set<(string, Message)> {
    set p | p in archive && p !in dropped && p.1.at >= before
  }

  function Apply(s: State, e: Event, keep: int): State {
    match e
    case Arrive(user, m) => s.(archive := s.archive + {(user, m)}, born := s.born + {(user, m)})
    case Tick(now, dropped) => s.(now := now, archive := StillThere(s.archive, dropped, now - keep))
    case Fetched(user, x, msgs) => s.(rows := PutAll(s.rows, user, KnownOf(msgs, x, Gone(msgs)), s.now))
    case Posted(user, x, m) => s.(rows := PutOne(s.rows, user, KnownAs(m, x), s.now))
    case Deleted(user, dels, fails) =>
      if |dels| == 0 || |dels| > 100 then s
      else
        var done := DoneOf(s.rows, user, dels, fails, 0);
        s.(hidden := HideAll(s.hidden, user, dels[..done], s.now),
           retracted := s.retracted + Retractions(s.rows, user, dels[..done]))
    case Prune => s.(rows := PrunedRows(s.rows, s.now - keep), hidden := PrunedHidden(s.hidden, s.now - keep))
  }

  function Run(s: State, es: seq<Event>, keep: int): State
    decreases |es|
  {
    if es == [] then s else Run(Apply(s, es[0], keep), es[1..], keep)
  }

  ghost predicate CanRun(s: State, es: seq<Event>, keep: int)
    decreases |es|
  {
    es == [] || (CanHappen(s, es[0], keep) && CanRun(Apply(s, es[0], keep), es[1..], keep))
  }

  // ---- Never back ----

  /** The person's archive had this message, and as long as it does it is hidden, since no earlier than it arrived. */
  ghost predicate Covered(s: State, user: string, id: string) {
    && (exists m :: (user, m) in s.born && m.id == id)
    && forall m :: (user, m) in s.archive && m.id == id ==> (user, id) in s.hidden && m.at <= s.hidden[(user, id)]
  }

  lemma {:induction false} HideAllKeeps(hidden: map<Key, int>, user: string, dels: seq<Del>, at: int, k: Key)
    requires k in hidden
    ensures k in HideAll(hidden, user, dels, at) && HideAll(hidden, user, dels, at)[k] == hidden[k]
  {
    if dels != [] { HideAllKeeps(hidden, user, dels[..|dels| - 1], at, k); }
  }

  /** Nothing in the archive is older than it keeps. */
  ghost predicate Fresh(s: State, keep: int) {
    (forall p <- s.archive :: s.now - keep <= p.1.at <= s.now) && s.archive <= s.born && keep >= 0
  }

  lemma StepKeepsFresh(s: State, e: Event, keep: int)
    requires Fresh(s, keep) && CanHappen(s, e, keep)
    ensures Fresh(Apply(s, e, keep), keep)
  {
  }

  lemma StepKeepsCovered(s: State, e: Event, keep: int, user: string, id: string)
    requires Fresh(s, keep) && CanHappen(s, e, keep) && Covered(s, user, id)
    ensures Covered(Apply(s, e, keep), user, id)
  {
    var s' := Apply(s, e, keep);
    var b :| (user, b) in s.born && b.id == id;
    assert (user, b) in s'.born;
    forall m | (user, m) in s'.archive && m.id == id ensures (user, id) in s'.hidden && m.at <= s'.hidden[(user, id)] {
      assert (user, m) in s.archive;
      if e.Deleted? && s' != s {
        HideAllKeeps(s.hidden, e.user, e.dels[..DoneOf(s.rows, e.user, e.dels, e.fails, 0)], s.now, (user, id));
      }
    }
  }

  lemma {:induction false} RunKeepsCovered(s: State, es: seq<Event>, keep: int, user: string, id: string)
    requires Fresh(s, keep) && CanRun(s, es, keep) && Covered(s, user, id)
    ensures Covered(Run(s, es, keep), user, id)
    decreases |es|
  {
    if es != [] {
      StepKeepsFresh(s, es[0], keep);
      StepKeepsCovered(s, es[0], keep, user, id);
      RunKeepsCovered(Apply(s, es[0], keep), es[1..], keep, user, id);
    }
  }

  /** An item that is no deletion is of a message that is not hidden. */
  lemma ItemsAreNotHidden(x: Context, msgs: seq<Message>, item: Item) returns (m: Message)
    requires var gone, read := Gone(msgs), Read(msgs, Times(msgs), x.me, x.user);
      item in ReceivedOf(msgs, x, gone, read) || item in SentOf(msgs, x, gone, read)
    ensures m in msgs && m.id == item.smsId && (item.kind.Delete? || m.id !in x.hidden)
  {
    var gone, read := Gone(msgs), Read(msgs, Times(msgs), x.me, x.user);
    ReceivedComeFrom(msgs, x, gone, read, item);
    SentComeFrom(msgs, x, gone, read, item);
    m :| m in msgs && !OutcomeOf(m, x, gone, read).Skipped? && OutcomeOf(m, x, gone, read).item == item;
    ShownIsNotHidden(m, x, gone, read);
  }

  lemma ShownIsNotHidden(m: Message, x: Context, gone: set<string>, read: map<string, int>)
    requires !OutcomeOf(m, x, gone, read).Skipped?
    ensures var item := OutcomeOf(m, x, gone, read).item; item.smsId == m.id && (item.kind.Delete? || m.id !in x.hidden)
  {
  }

  /** Main result: a message covered once is never again a text or a file of any later fetch of that person, whatever is
      pruned, deleted or dropped meanwhile. */
  lemma HiddenNeverComesBack(s: State, es: seq<Event>, keep: int, user: string, id: string,
                             x: Context, msgs: seq<Message>, item: Item)
    requires Fresh(s, keep) && CanRun(s, es, keep) && Covered(s, user, id)
    requires CanHappen(Run(s, es, keep), Fetched(user, x, msgs), keep)
    requires var gone, read := Gone(msgs), Read(msgs, Times(msgs), x.me, x.user);
      item in ReceivedOf(msgs, x, gone, read) || item in SentOf(msgs, x, gone, read)
    ensures item.smsId == id ==> item.kind.Delete?
  {
    RunKeepsCovered(s, es, keep, user, id);
    var m := ItemsAreNotHidden(x, msgs, item);
    if m.id == id { CoveredIsHidden(Run(s, es, keep), user, m); }
  }

  lemma CoveredIsHidden(s: State, user: string, m: Message)
    requires Covered(s, user, m.id) && (user, m) in s.archive
    ensures m.id in HiddenOf(s.hidden, user)
  {
    assert (user, m.id) in s.hidden;
  }

  lemma {:induction false} HideAllHides(hidden: map<Key, int>, user: string, dels: seq<Del>, at: int, d: Del)
    requires d in dels && IsArchiveID(d.smsId)
    ensures var k := (user, d.smsId);
      k in HideAll(hidden, user, dels, at) && HideAll(hidden, user, dels, at)[k] == if k in hidden then hidden[k] else at
  {
    var n, k := |dels| - 1, (user, d.smsId);
    if d in dels[..n] {
      HideAllHides(hidden, user, dels[..n], at, d);
    } else {
      assert dels[n] == d;
      if k in hidden { HideAllKeeps(hidden, user, dels[..n], at, k); } else { HidesAt(hidden, user, dels[..n], at, k); }
    }
  }

  lemma {:induction false} HidesAt(hidden: map<Key, int>, user: string, dels: seq<Del>, at: int, k: Key)
    requires k !in hidden
    ensures k in HideAll(hidden, user, dels, at) ==> HideAll(hidden, user, dels, at)[k] == at
  {
    if dels != [] { HidesAt(hidden, user, dels[..|dels| - 1], at, k); }
  }

  /** A delete the request got to covers its message, unless the id was hidden before the message was there. */
  lemma DeleteCovers(s: State, keep: int, user: string, dels: seq<Del>, fails: set<nat>, i: nat, m: Message)
    requires Fresh(s, keep) && 0 < |dels| <= 100 && (user, m) in s.archive && IsArchiveID(m.id)
    requires forall k :: (user, k) in s.archive && k.id == m.id ==> k == m
    requires i < DoneOf(s.rows, user, dels, fails, 0) <= |dels| && dels[i].smsId == m.id
    ensures Covered(Apply(s, Deleted(user, dels, fails), keep), user, m.id)
            <==> ((user, m.id) in s.hidden ==> m.at <= s.hidden[(user, m.id)])
  {
    var done := dels[..DoneOf(s.rows, user, dels, fails, 0)];
    assert done[i] == dels[i] && dels[i] in done;
    HideAllHides(s.hidden, user, done, s.now, dels[i]);
    var s' := Apply(s, Deleted(user, dels, fails), keep);
    assert (user, m) in s'.born && (user, m) in s'.archive;
  }

  /** Main result, the other half: a message that is not covered comes back, once its row is pruned. */
  lemma UncoveredComesBack(s: State, keep: int, user: string, m: Message) returns (es: seq<Event>)
    requires Fresh(s, keep) && (user, m) in s.archive
    requires (user, m.id) in s.hidden ==> m.at > s.hidden[(user, m.id)]
    ensures CanRun(s, es, keep)
    ensures (user, m) in Run(s, es, keep).archive && m.id !in HiddenOf(Run(s, es, keep).hidden, user)
  {
    if (user, m.id) !in s.hidden { return []; }
    var t := s.hidden[(user, m.id)] + keep + 1;
    var later := if t > s.now then t else s.now;
    es := [Tick(later, {}), Prune];
    var s1 := Apply(s, es[0], keep);
    assert es[1..] == [Prune] && [Prune][1..] == [];
    assert (user, m) in s1.archive;
    assert Run(s, es, keep) == Apply(s1, Prune, keep) by { assert Run(s1, [Prune], keep) == Apply(s1, Prune, keep); }
    assert CanRun(s, es, keep) by { assert CanRun(s1, [Prune], keep); }
  }

  // ---- What a request does, exactly ----

  lemma {:induction false} HidesOnly(hidden: map<Key, int>, user: string, dels: seq<Del>, at: int, k: Key)
    ensures var after := HideAll(hidden, user, dels, at);
      (k in after <==> k in hidden || (k.0 == user && IsArchiveID(k.1) && exists d <- dels :: d.smsId == k.1))
      && (k in after ==> after[k] == if k in hidden then hidden[k] else at)
  {
    if dels != [] {
      var n := |dels| - 1;
      HidesOnly(hidden, user, dels[..n], at, k);
      assert forall d <- dels :: d in dels[..n] || d == dels[n];
      assert forall d <- dels[..n] :: d in dels;
      assert dels[n] in dels;
    }
  }

  /** Nothing ended the request before the last delete it looked at, and that one did when others follow. */
  lemma {:induction false} DoneIs(rows: map<Key, Row>, user: string, dels: seq<Del>, fails: set<nat>, i: nat)
    requires i <= |dels|
    ensures var done := DoneOf(rows, user, dels, fails, i);
      && (forall k :: i < k < done ==> !Stops(rows, user, dels, fails, k))
      && (done < |dels| ==> done > i && Stops(rows, user, dels, fails, done))
    decreases |dels| - i
  {
    if i < |dels| && !Stops(rows, user, dels, fails, i + 1) { DoneIs(rows, user, dels, fails, i + 1); }
  }

  /** Main result: a request of up to a hundred deletes hides exactly the archive ids among those it gets to, since now
      when they were not hidden yet, and asks for the retraction of exactly those of them that are to go everywhere and are
      recorded as the person's own; it ends early only at a retraction that fails. */
  lemma DeleteExactly(s: State, keep: int, user: string, dels: seq<Del>, fails: set<nat>, k: Key, t: (string, string, string))
    returns (n: nat)
    requires 0 < |dels| <= 100
    ensures n <= |dels|
    ensures n < |dels| ==> n > 0 && n - 1 in fails && IsArchiveID(dels[n - 1].smsId) && TakesBack(s.rows, user, dels[n - 1])
    ensures forall i :: 0 <= i < n - 1 && i in fails && IsArchiveID(dels[i].smsId) ==> !TakesBack(s.rows, user, dels[i])
    ensures var s' := Apply(s, Deleted(user, dels, fails), keep);
      && (k in s'.hidden <==> k in s.hidden || (k.0 == user && IsArchiveID(k.1) && exists d <- dels[..n] :: d.smsId == k.1))
      && (k in s'.hidden ==> s'.hidden[k] == if k in s.hidden then s.hidden[k] else s.now)
      && (t in s'.retracted <==>
            t in s.retracted
            || exists d <- dels[..n] ::
                 && IsArchiveID(d.smsId) && d.everywhere && (user, d.smsId) in s.rows
                 && s.rows[(user, d.smsId)].author == user
                 && t == (user, s.rows[(user, d.smsId)].peer, s.rows[(user, d.smsId)].ref))
      && s' == s.(hidden := s'.hidden, retracted := s'.retracted)
  {
    n := DoneOf(s.rows, user, dels, fails, 0);
    DoneIs(s.rows, user, dels, fails, 0);
    HidesOnly(s.hidden, user, dels[..n], s.now, k);
    forall i | 0 <= i < n - 1 && i in fails && IsArchiveID(dels[i].smsId) ensures !TakesBack(s.rows, user, dels[i]) {
      assert !Stops(s.rows, user, dels, fails, i + 1);
    }
  }

  /** Rows are only ever added for messages put, and the first row of an id stays. */
  lemma {:induction false} PutExactly(rows: map<Key, Row>, user: string, msgs: seq<AppMsg>, at: int, k: Key)
    ensures var after := PutAll(rows, user, msgs, at);
      && (k in after <==> k in rows || (k.0 == user && exists a <- msgs :: a.smsId == k.1))
      && (k in rows ==> after[k] == rows[k])
  {
    if msgs != [] {
      var n := |msgs| - 1;
      PutExactly(rows, user, msgs[..n], at, k);
      assert forall a <- msgs :: a in msgs[..n] || a == msgs[n];
      assert forall a <- msgs[..n] :: a in msgs;
      assert msgs[n] in msgs;
    }
  }

  // ---- Only one's own ----

  /** The row is a message that was in the person's archive: its chat, reference and author. */
  predicate RowIsFrom(row: Row, m: Message, me: string) {
    var x := if m.room != "" then m.room else if m.from == me then m.to else m.from;
    row.ref == Ref(m) && row.peer == x && row.author == Author(m)
  }

  /** Some message that was in the person's archive has this id and is what the row says. */
  ghost predicate Recorded(born: set<(string, Message)>, user: string, id: string, row: Row, me: string) {
    exists m :: (user, m) in born && m.id == id && RowIsFrom(row, m, me)
  }

  /** Some message that was in the person's archive is theirs, in this chat and with this reference. */
  ghost predicate Theirs(born: set<(string, Message)>, user: string, peer: string, ref: string, me: string) {
    exists m :: (user, m) in born && Author(m) == user && RowIsFrom(Row(ref, peer, user, 0), m, me)
  }

  lemma StillSo(born: set<(string, Message)>, more: set<(string, Message)>, me: string)
    requires born <= more
    ensures forall user, id, row :: Recorded(born, user, id, row, me) ==> Recorded(more, user, id, row, me)
    ensures forall user, peer, ref :: Theirs(born, user, peer, ref, me) ==> Theirs(more, user, peer, ref, me)
  {
    forall user, id, row | Recorded(born, user, id, row, me) ensures Recorded(more, user, id, row, me) {
      var m :| (user, m) in born && m.id == id && RowIsFrom(row, m, me);
      assert (user, m) in more;
    }
    forall user, peer, ref | Theirs(born, user, peer, ref, me) ensures Theirs(more, user, peer, ref, me) {
      var m :| (user, m) in born && Author(m) == user && RowIsFrom(Row(ref, peer, user, 0), m, me);
      assert (user, m) in more;
    }
  }

  ghost predicate RowsOk(s: State, me: string -> string) {
    && (forall user, id :: (user, id) in s.rows ==> Recorded(s.born, user, id, s.rows[(user, id)], me(user)))
    && (forall user, peer, ref :: (user, peer, ref) in s.retracted ==> Theirs(s.born, user, peer, ref, me(user)))
  }

  /** Everyone asks from their own address. */
  ghost predicate AsThemselves(e: Event, me: string -> string) {
    (e.Fetched? || e.Posted?) ==> e.x.me == me(e.user)
  }

  predicate IsPut(a: AppMsg, user: string, k: Key, row: Row, at: int) {
    k == (user, a.smsId) && row == Row(a.ref, a.peer, a.author, at)
  }

  lemma {:induction false} PutAllFrom(rows: map<Key, Row>, user: string, msgs: seq<AppMsg>, at: int, k: Key)
    requires k in PutAll(rows, user, msgs, at)
    ensures var row := PutAll(rows, user, msgs, at)[k];
      (k in rows && row == rows[k]) || exists a <- msgs :: IsPut(a, user, k, row, at)
  {
    if msgs != [] {
      var n := |msgs| - 1;
      if k in PutAll(rows, user, msgs[..n], at) {
        PutAllFrom(rows, user, msgs[..n], at, k);
        assert forall a <- msgs[..n] :: a in msgs;
      } else {
        assert msgs[n] in msgs && IsPut(msgs[n], user, k, PutAll(rows, user, msgs, at)[k], at);
      }
    }
  }

  lemma FetchedKeepsRows(s: State, e: Event, keep: int, me: string -> string)
    requires RowsOk(s, me) && Fresh(s, keep) && e.Fetched? && CanHappen(s, e, keep) && AsThemselves(e, me)
    ensures RowsOk(Apply(s, e, keep), me)
  {
    var rows' := PutAll(s.rows, e.user, KnownOf(e.msgs, e.x, Gone(e.msgs)), s.now);
    forall user, id | (user, id) in rows' ensures Recorded(s.born, user, id, rows'[(user, id)], me(user)) {
      FetchedRow(s, e.user, e.x, e.msgs, user, id);
    }
  }

  /** One row after a fetch: there before, or of a message just shown. */
  lemma FetchedRow(s: State, who: string, x: Context, msgs: seq<Message>, user: string, id: string)
    requires forall m <- msgs :: (who, m) in s.born
    requires (user, id) in PutAll(s.rows, who, KnownOf(msgs, x, Gone(msgs)), s.now)
    ensures var row := PutAll(s.rows, who, KnownOf(msgs, x, Gone(msgs)), s.now)[(user, id)];
      ((user, id) in s.rows && row == s.rows[(user, id)]) || (user == who && Recorded(s.born, user, id, row, x.me))
  {
    var known := KnownOf(msgs, x, Gone(msgs));
    var row := PutAll(s.rows, who, known, s.now)[(user, id)];
    PutAllFrom(s.rows, who, known, s.now, (user, id));
    if !((user, id) in s.rows && row == s.rows[(user, id)]) {
      var a :| a in known && IsPut(a, who, (user, id), row, s.now);
      KnownComeFrom(msgs, x, Gone(msgs), a);
      var m :| m in msgs && a == KnownAs(m, x);
      assert a == KnownAs(m, x) && IsPut(a, who, (user, id), row, s.now);
      assert RowIsFrom(row, m, x.me);
      assert (user, m) in s.born;
    }
  }

  lemma PostedKeepsRows(s: State, e: Event, keep: int, me: string -> string)
    requires RowsOk(s, me) && Fresh(s, keep) && e.Posted? && CanHappen(s, e, keep) && AsThemselves(e, me)
    ensures RowsOk(Apply(s, e, keep), me)
  {
    var a := KnownAs(e.m, e.x);
    assert (e.user, e.m) in s.born;
    assert RowIsFrom(Row(a.ref, a.peer, a.author, s.now), e.m, me(e.user));
  }

  lemma DeletedKeepsRows(s: State, e: Event, keep: int, me: string -> string)
    requires RowsOk(s, me) && e.Deleted? && CanHappen(s, e, keep)
    ensures RowsOk(Apply(s, e, keep), me)
  {
    forall user, peer, ref | (user, peer, ref) in Apply(s, e, keep).retracted ensures Theirs(s.born, user, peer, ref, me(user)) {
      if (user, peer, ref) !in s.retracted {
        assert (user, peer, ref) in Retractions(s.rows, e.user, e.dels[..DoneOf(s.rows, e.user, e.dels, e.fails, 0)]);
        RetractedRow(s, e.user, e.dels[..DoneOf(s.rows, e.user, e.dels, e.fails, 0)], user, peer, ref, me(e.user));
      }
    }
  }

  lemma RetractedRow(s: State, who: string, dels: seq<Del>, user: string, peer: string, ref: string, me: string)
    requires forall id :: (who, id) in s.rows ==> Recorded(s.born, who, id, s.rows[(who, id)], me)
    requires (user, peer, ref) in Retractions(s.rows, who, dels)
    ensures user == who && Theirs(s.born, user, peer, ref, me)
  {
    var d :| d in dels && TakesBack(s.rows, who, d)
      && (user, peer, ref) == (who, s.rows[(who, d.smsId)].peer, s.rows[(who, d.smsId)].ref);
    assert TakesBack(s.rows, who, d);
    var row := s.rows[(who, d.smsId)];
    assert Recorded(s.born, who, d.smsId, row, me);
    var m :| (who, m) in s.born && m.id == d.smsId && RowIsFrom(row, m, me);
    assert RowIsFrom(Row(ref, peer, user, 0), m, me);
  }

  lemma StepKeepsRows(s: State, e: Event, keep: int, me: string -> string)
    requires RowsOk(s, me) && Fresh(s, keep) && CanHappen(s, e, keep) && AsThemselves(e, me)
    ensures RowsOk(Apply(s, e, keep), me)
  {
    match e
    case Fetched(_, _, _) => FetchedKeepsRows(s, e, keep, me);
    case Posted(_, _, _) => PostedKeepsRows(s, e, keep, me);
    case Deleted(_, _, _) => DeletedKeepsRows(s, e, keep, me);
    case Arrive(_, _) => ArriveKeepsRows(s, e, keep, me);
    case _ =>
  }

  lemma ArriveKeepsRows(s: State, e: Event, keep: int, me: string -> string)
    requires RowsOk(s, me) && e.Arrive?
    ensures RowsOk(Apply(s, e, keep), me)
  {
    var more := s.born + {(e.user, e.m)};
    forall user, id | (user, id) in s.rows ensures Recorded(more, user, id, s.rows[(user, id)], me(user)) {
      StillSo(s.born, more, me(user));
    }
    forall user, peer, ref | (user, peer, ref) in s.retracted ensures Theirs(more, user, peer, ref, me(user)) {
      StillSo(s.born, more, me(user));
    }
  }

  /** Main result: over every run, a retraction is only ever sent for a message of the person's archive whose sender's
      local part is the username, by its reference and in its chat; and a recorded message is one the archive had. */
  lemma {:induction false} OnlyOnesOwnIsTakenBack(s: State, es: seq<Event>, keep: int, me: string -> string)
    requires RowsOk(s, me) && Fresh(s, keep) && CanRun(s, es, keep) && forall e <- es :: AsThemselves(e, me)
    ensures RowsOk(Run(s, es, keep), me)
    decreases |es|
  {
    if es != [] {
      assert es[0] in es && forall e <- es[1..] :: e in es;
      StepKeepsRows(s, es[0], keep, me);
      StepKeepsFresh(s, es[0], keep);
      OnlyOnesOwnIsTakenBack(Apply(s, es[0], keep), es[1..], keep, me);
    }
  }

  /** A delete item of a fetch names only messages recorded for that person, in the retraction's chat, with the
      reference it names and of its author. */
  lemma {:induction false} DeleteItemsNameOnesRecorded(s: State, keep: int, me: string -> string, user: string, x: Context,
                                    msgs: seq<Message>, item: Item, id: string)
    requires RowsOk(s, me) && CanHappen(s, Fetched(user, x, msgs), keep)
    requires var gone, read := Gone(msgs), Read(msgs, Times(msgs), x.me, x.user);
      item in ReceivedOf(msgs, x, gone, read) || item in SentOf(msgs, x, gone, read)
    requires item.kind.Delete? && id in item.kind.ids
    ensures (user, id) in s.rows && Recorded(s.born, user, id, s.rows[(user, id)], me(user))
    ensures exists m <- msgs :: m.id == item.smsId && IsAbout(m, x, s.rows[(user, id)])
  {
    var gone, read := Gone(msgs), Read(msgs, Times(msgs), x.me, x.user);
    ReceivedComeFrom(msgs, x, gone, read, item);
    SentComeFrom(msgs, x, gone, read, item);
    var m :| m in msgs && !OutcomeOf(m, x, gone, read).Skipped? && OutcomeOf(m, x, gone, read).item == item;
    assert item == DeleteItem(m, x) && m.retract != "" by { assert OutcomeOf(m, x, gone, read).item == item; }
    assert id in DeleteIds(m, x);
    assert ListsIds(x.appIds(Peer(m, x), m.retract, Author(m)), s.rows, user, Peer(m, x), m.retract, Author(m));
    assert IsAbout(m, x, s.rows[(user, id)]);
  }

  /** A retraction and a row: same reference, chat and author. */
  predicate IsAbout(m: Message, x: Context, row: Row) {
    m.retract != "" && row.ref == m.retract && row.peer == Peer(m, x) && row.author == Author(m)
  }

  // ---- As long as the archive has it ----

  /** One message for each id of a person's archive, and no row from before the message it is of. */
  ghost predicate Dated(s: State) {
    && (forall user, m, n :: (user, m) in s.born && (user, n) in s.born && m.id == n.id ==> m == n)
    && (forall user, m :: (user, m) in s.archive && (user, m.id) in s.rows ==> m.at <= s.rows[(user, m.id)].at)
  }

  /** No step changes a row, but for pruning it. */
  lemma RowKept(s: State, e: Event, keep: int, k: Key)
    requires k in s.rows
    ensures k in Apply(s, e, keep).rows ==> Apply(s, e, keep).rows[k] == s.rows[k]
    ensures e.Prune? || k in Apply(s, e, keep).rows
  {
    if e.Fetched? { PutExactly(s.rows, e.user, KnownOf(e.msgs, e.x, Gone(e.msgs)), s.now, k); }
  }

  /** A new row is as new as can be. */
  lemma RowNew(s: State, e: Event, keep: int, k: Key)
    requires k !in s.rows && k in Apply(s, e, keep).rows
    ensures Apply(s, e, keep).rows[k].at == s.now
  {
    if e.Fetched? { PutAllFrom(s.rows, e.user, KnownOf(e.msgs, e.x, Gone(e.msgs)), s.now, k); }
  }

  /** A row stays while its message is in the archive. */
  lemma StepKeepsRow(s: State, e: Event, keep: int, user: string, m: Message)
    requires Dated(s) && Fresh(s, keep) && (user, m) in s.archive && (user, m) in Apply(s, e, keep).archive && (user, m.id) in s.rows
    ensures (user, m.id) in Apply(s, e, keep).rows && Apply(s, e, keep).rows[(user, m.id)] == s.rows[(user, m.id)]
  {
    RowKept(s, e, keep, (user, m.id));
  }

  lemma ArchiveFrom(s: State, e: Event, keep: int, user: string, m: Message)
    requires (user, m) in Apply(s, e, keep).archive && CanHappen(s, e, keep)
    ensures (user, m) in s.archive || (m.at == s.now && forall k :: (user, k) in s.born ==> k.id != m.id)
  {
  }

  lemma StepKeepsDates(s: State, e: Event, keep: int, me: string -> string, user: string, m: Message)
    requires Dated(s) && RowsOk(s, me) && Fresh(s, keep) && CanHappen(s, e, keep)
    requires (user, m) in Apply(s, e, keep).archive && (user, m.id) in Apply(s, e, keep).rows
    ensures m.at <= Apply(s, e, keep).rows[(user, m.id)].at
  {
    var k := (user, m.id);
    ArchiveFrom(s, e, keep, user, m);
    if k in s.rows {
      RowKept(s, e, keep, k);
      assert Recorded(s.born, user, m.id, s.rows[k], me(user));
    } else {
      RowNew(s, e, keep, k);
    }
  }

  lemma StepKeepsApart(s: State, e: Event, keep: int)
    requires Dated(s) && CanHappen(s, e, keep)
    ensures var born := Apply(s, e, keep).born; forall user, m, n :: (user, m) in born && (user, n) in born && m.id == n.id ==> m == n
  {
  }

  lemma StepKeepsDated(s: State, e: Event, keep: int, me: string -> string)
    requires Dated(s) && RowsOk(s, me) && Fresh(s, keep) && CanHappen(s, e, keep)
    ensures Dated(Apply(s, e, keep))
  {
    var s' := Apply(s, e, keep);
    StepKeepsApart(s, e, keep);
    forall user, m | (user, m) in s'.archive && (user, m.id) in s'.rows ensures m.at <= s'.rows[(user, m.id)].at {
      StepKeepsDates(s, e, keep, me, user, m);
    }
  }

  /** What the archive dropped does not come back. */
  lemma {:induction false} DroppedStays(s: State, es: seq<Event>, keep: int, user: string, m: Message)
    requires CanRun(s, es, keep) && (user, m) in s.born && (user, m) !in s.archive
    ensures (user, m) !in Run(s, es, keep).archive
    decreases |es|
  {
    if es != [] { DroppedStays(Apply(s, es[0], keep), es[1..], keep, user, m); }
  }

  lemma {:induction false} RowStays(s: State, es: seq<Event>, keep: int, me: string -> string, user: string, m: Message)
    requires Dated(s) && RowsOk(s, me) && Fresh(s, keep) && CanRun(s, es, keep) && forall e <- es :: AsThemselves(e, me)
    requires (user, m) in s.archive && (user, m.id) in s.rows && (user, m) in Run(s, es, keep).archive
    ensures var s' := Run(s, es, keep); (user, m.id) in s'.rows && s'.rows[(user, m.id)] == s.rows[(user, m.id)]
    decreases |es|
  {
    if es != [] {
      assert es[0] in es && forall e <- es[1..] :: e in es;
      var s1 := Apply(s, es[0], keep);
      if (user, m) !in s1.archive { DroppedStays(s1, es[1..], keep, user, m); }
      StepKeepsDated(s, es[0], keep, me);
      StepKeepsRows(s, es[0], keep, me);
      StepKeepsFresh(s, es[0], keep);
      StepKeepsRow(s, es[0], keep, user, m);
      RowStays(s1, es[1..], keep, me, user, m);
    }
  }

  lemma {:induction false} KnownExactly(msgs: seq<Message>, x: Context, gone: set<string>, read: map<string, int>, id: string)
    ensures (exists a <- KnownOf(msgs, x, gone) :: a.smsId == id)
            <==> exists m <- msgs :: m.id == id && m.retract == "" && !OutcomeOf(m, x, gone, read).Skipped?
  {
    if msgs != [] {
      var n := |msgs| - 1;
      var m := msgs[n];
      KnownExactly(msgs[..n], x, gone, read, id);
      var before, known := KnownOf(msgs[..n], x, gone), KnownOf(msgs, x, gone);
      assert known == before + if m.retract == "" && !OutcomeOf(m, x, gone, read).Skipped? then [KnownAs(m, x)] else [];
      assert forall k <- msgs :: k in msgs[..n] || k == m;
      assert m in msgs && forall k <- msgs[..n] :: k in msgs;
      assert forall a <- before :: a in known;
      if m.retract == "" && !OutcomeOf(m, x, gone, read).Skipped? { assert known[|before|] == KnownAs(m, x); }
    }
  }

  /** A fetch records exactly what it shows, beside what was recorded before. */
  lemma FetchRecords(s: State, keep: int, user: string, x: Context, msgs: seq<Message>, read: map<string, int>, id: string)
    ensures var rows := Apply(s, Fetched(user, x, msgs), keep).rows;
      && ((user, id) in rows <==>
            (user, id) in s.rows
            || exists m <- msgs :: m.id == id && m.retract == "" && !OutcomeOf(m, x, Gone(msgs), read).Skipped?)
      && (forall k :: k in rows && k.0 != user ==> k in s.rows) && forall k :: k in s.rows ==> k in rows && rows[k] == s.rows[k]
  {
    var known := KnownOf(msgs, x, Gone(msgs));
    KnownExactly(msgs, x, Gone(msgs), read, id);
    PutExactly(s.rows, user, known, s.now, (user, id));
    forall k: Key ensures k in s.rows ==> k in PutAll(s.rows, user, known, s.now) && PutAll(s.rows, user, known, s.now)[k] == s.rows[k]
    ensures k in PutAll(s.rows, user, known, s.now) && k.0 != user ==> k in s.rows {
      PutExactly(s.rows, user, known, s.now, k);
    }
  }

  /** The row of a message in the archive is that message's. */
  lemma RowIs(s: State, me: string -> string, user: string, m: Message)
    requires Dated(s) && RowsOk(s, me) && (user, m) in s.born && (user, m.id) in s.rows
    ensures RowIsFrom(s.rows[(user, m.id)], m, me(user))
  {
    assert Recorded(s.born, user, m.id, s.rows[(user, m.id)], me(user));
  }

  /** Main result, the partner of OnlyOnesOwnIsTakenBack: a message of one's own that a fetch showed can be taken back as
      long as the archive has it, whatever happens in between: a delete for everyone that the request gets to asks for its
      retraction, in its chat and by its reference. */
  lemma OnesOwnIsTakenBack(s: State, x: Context, msgs: seq<Message>, es: seq<Event>, keep: int, me: string -> string, m: Message,
                           dels: seq<Del>, fails: set<nat>) returns (n: nat)
    requires Dated(s) && RowsOk(s, me) && Fresh(s, keep)
    requires CanHappen(s, Fetched(x.user, x, msgs), keep) && AsThemselves(Fetched(x.user, x, msgs), me)
    requires CanRun(Apply(s, Fetched(x.user, x, msgs), keep), es, keep) && forall e <- es :: AsThemselves(e, me)
    requires m in msgs && m.retract == "" && Author(m) == x.user && IsArchiveID(m.id)
    requires !OutcomeOf(m, x, Gone(msgs), map[]).Skipped?
    requires 0 < |dels| <= 100
    ensures n <= |dels| && (n < |dels| ==> n > 0 && n - 1 in fails)
    ensures var before := Run(Apply(s, Fetched(x.user, x, msgs), keep), es, keep);
      (x.user, m) in before.archive && Del(m.id, true) in dels[..n] ==>
        (x.user, Peer(m, x), Ref(m)) in Apply(before, Deleted(x.user, dels, fails), keep).retracted
  {
    var user, fetch := x.user, Fetched(x.user, x, msgs);
    var s1 := Apply(s, fetch, keep);
    var before := Run(s1, es, keep);
    n := DeleteExactly(before, keep, user, dels, fails, (user, m.id), (user, Peer(m, x), Ref(m)));
    if (user, m) in before.archive && Del(m.id, true) in dels[..n] {
      FetchRecords(s, keep, user, x, msgs, map[], m.id);
      StepKeepsDated(s, fetch, keep, me);
      StepKeepsRows(s, fetch, keep, me);
      StepKeepsFresh(s, fetch, keep);
      assert (user, m) in s1.archive;
      RowStays(s1, es, keep, me, user, m);
      RowIs(s1, me, user, m);
    }
  }

  /** Main result: the delete item made of a retraction has the app's id of a message of the archive exactly when that
      message is recorded and the retraction names it: in its chat, by its reference, from its author. */
  lemma DeleteItemNamesExactly(s: State, keep: int, me: string -> string, user: string, x: Context, msgs: seq<Message>,
                               r: Message, m: Message)
    requires Dated(s) && RowsOk(s, me) && CanHappen(s, Fetched(user, x, msgs), keep) && x.me == me(user)
    requires (user, m) in s.born && r.retract != "" && (r.room == "" <==> m.room == "")
    ensures m.room != "" ==>
              (m.id in DeleteIds(r, x)
               <==> (user, m.id) in s.rows && r.room == m.room && r.retract == m.roomSID && r.nick == m.nick)
    ensures m.room == "" ==>
              (m.id in DeleteIds(r, x)
               <==> && (user, m.id) in s.rows
                    && (if r.from == x.me then r.to else r.from) == (if m.from == x.me then m.to else m.from)
                    && r.retract == (if m.originId != "" then m.originId else m.msgId)
                    && Local(r.from) == Local(m.from))
  {
    assert ListsIds(x.appIds(Peer(r, x), r.retract, Author(r)), s.rows, user, Peer(r, x), r.retract, Author(r));
    if (user, m.id) in s.rows { RowIs(s, me, user, m); }
  }

  /** The row sendMessage puts for what it sent: at once as a fetch would later. */
  lemma PostedRecords(s: State, keep: int, user: string, x: Context, m: Message)
    ensures var rows := Apply(s, Posted(user, x, m), keep).rows;
      && (user, m.id) in rows && (forall k :: k in rows ==> k in s.rows || k == (user, m.id))
      && forall k :: k in s.rows ==> k in rows && rows[k] == s.rows[k]
  {
  }

  /** A day's pruning takes the rows and the hidden ids from before the date, and only those. */
  lemma PrunesExactly(s: State, keep: int, k: Key)
    ensures var s' := Apply(s, Prune, keep);
      && (k in s'.rows <==> k in s.rows && s.now - s.rows[k].at <= keep) && (k in s'.rows ==> s'.rows[k] == s.rows[k])
      && (k in s'.hidden <==> k in s.hidden && s.now - s.hidden[k] <= keep) && (k in s'.hidden ==> s'.hidden[k] == s.hidden[k])
  {
  }

  /** A request of no delete, or of more than a hundred, does nothing. */
  lemma RefusedDeletes(s: State, keep: int, user: string, dels: seq<Del>, fails: set<nat>)
    requires dels == [] || |dels| >= 101
    ensures Apply(s, Deleted(user, dels, fails), keep) == s
  {
  }
}
