/** http.go: how the messages of a fetch become the items the app receives. */
module FetchItems {
  import opened Text
  import opened Fetch
  import Fingerprint

  // ---- Read markers ----

  const ZERO := 0 // the time of a chat without a marker

  function PutTime(times: map<string, int>, id: string, at: int): map<string, int> { if id != "" then times[id := at] else times }

  /** A message's time by every id a marker can name it with. */
  function Times(msgs: seq<Message>): map<string, int> {
    if msgs == [] then map[]
    else
      var m := msgs[|msgs| - 1];
      PutTime(PutTime(PutTime(Times(msgs[..|msgs| - 1]), m.msgId, m.at), m.originId, m.at), m.roomSID, m.at)
  }

  predicate IsMyMarker(m: Message, me: string, user: string) {
    m.displayed != "" && (if m.room != "" then m.nick == user else m.from == me)
  }

  function MarkerChat(m: Message): string { if m.room != "" then m.room else m.to }

  /** Up to when a marker says its chat was read; its own time when it names nothing known. */
  function Covers(m: Message, times: map<string, int>): int { if m.displayed in times then times[m.displayed] else m.at }

  function ReadAt(read: map<string, int>, chat: string): int { if chat in read then read[chat] else ZERO }

  function Read(msgs: seq<Message>, times: map<string, int>, me: string, user: string): map<string, int> {
    if msgs == [] then map[]
    else
      var m, read := msgs[|msgs| - 1], Read(msgs[..|msgs| - 1], times, me, user);
      if IsMyMarker(m, me, user) && Covers(m, times) > ReadAt(read, MarkerChat(m)) then read[MarkerChat(m) := Covers(m, times)] else read
  }

  method TimesOf(msgs: seq<Message>) returns (times: map<string, int>)
    ensures times == Times(msgs)
  {
    times := map[];
    for i := 0 to |msgs|
      invariant times == Times(msgs[..i])
    {
      assert msgs[..i + 1][..i] == msgs[..i];
      times := PutTime(times, msgs[i].msgId, msgs[i].at);
      times := PutTime(times, msgs[i].originId, msgs[i].at);
      times := PutTime(times, msgs[i].roomSID, msgs[i].at);
    }
    assert msgs[..|msgs|] == msgs;
  }

  method ReadUpTo(msgs: seq<Message>, me: string, user: string) returns (read: map<string, int>)
    ensures read == Read(msgs, Times(msgs), me, user)
  {
    var times := TimesOf(msgs);
    read := map[];
    for i := 0 to |msgs|
      invariant read == Read(msgs[..i], times, me, user)
    {
      assert msgs[..i + 1][..i] == msgs[..i];
      var m := msgs[i];
      if m.displayed == "" || (m.room != "" && m.nick != user) || (m.room == "" && m.from != me) { continue; }
      var t := if m.displayed in times then times[m.displayed] else m.at;
      if t > ReadAt(read, MarkerChat(m)) { read := read[MarkerChat(m) := t]; }
    }
    assert msgs[..|msgs|] == msgs;
  }

  /** A time is read in a chat exactly when one of my markers there reaches it. */
  lemma {:induction false} ReadIsTheNewestMarker(msgs: seq<Message>, times: map<string, int>, me: string, user: string, chat: string, at: int)
    requires at > ZERO
    ensures at <= ReadAt(Read(msgs, times, me, user), chat)
            <==> exists m <- msgs :: IsMyMarker(m, me, user) && MarkerChat(m) == chat && at <= Covers(m, times)
  {
    if msgs != [] {
      var n := |msgs| - 1;
      ReadIsTheNewestMarker(msgs[..n], times, me, user, chat, at);
      assert msgs == msgs[..n] + [msgs[n]];
    }
  }

  // ---- Items ----

  datatype Kind = Text | File | Delete(ids: seq<string>)

  /** An item of the app; its text is not part of the model. */
  datatype Item = Item(smsId: string, sender: Option<string>, recipient: Option<string>, stream: Option<string>,
                       displayed: bool, kind: Kind)

  /** A request: who asks, what that person hid, the app's ids of a message taken back, and how chats are shown. */
  datatype Context = Context(
    user: string, me: string, hidden: set<string>, blank: string -> bool,
    transfer: string -> bool,                          // the text is in the app's file transfer format
    address: string -> string, thread: string -> string,
    appIds: (string, string, string) -> seq<string>)   // chat, reference, author

  function Peer(m: Message, x: Context): string { if m.room != "" then m.room else if m.from == x.me then m.to else m.from }

  function Ref(m: Message): string { if m.room != "" then m.roomSID else if m.originId != "" then m.originId else m.msgId }

  function Local(jid: string): string { Split(jid, '@')[0] }

  function Author(m: Message): string { if m.room != "" then m.nick else Local(m.from) }

  /** In a group the nick tells, elsewhere the address. */
  predicate Own(m: Message, x: Context) { if m.room != "" then m.nick == x.user else m.from == x.me }

  function GoneKey(room: string, ref: string, nick: string): string { room + "|" + ref + "|" + nick }

  function Gone(msgs: seq<Message>): set<string> {
    set m | m in msgs && m.retract != "" && m.room != "" :: GoneKey(m.room, m.retract, m.nick)
  }

  /** Not hidden, not taken back by its author in its group, and with a text or a file. */
  predicate Kept(m: Message, x: Context, gone: set<string>) {
    && m.id !in x.hidden && !(m.room != "" && GoneKey(m.room, m.roomSID, m.nick) in gone)
    && Shows(m, x.blank)
  }

  function KindOf(m: Message, x: Context): Kind { if m.files != [] || x.transfer(m.body) then File else Text }

  function ChatItem(m: Message, x: Context, read: map<string, int>): Item {
    var name := if m.room != "" then x.thread(m.room) else x.address(if Own(m, x) then m.to else m.from);
    var stream := if m.room != "" then Some(name) else None;
    if Own(m, x) then Item(m.id, None, Some(name), stream, false, KindOf(m, x))
    else Item(m.id, Some(name), None, stream, m.at <= ReadAt(read, Peer(m, x)), KindOf(m, x))
  }

  function DeleteIds(m: Message, x: Context): seq<string> { x.appIds(Peer(m, x), m.retract, Author(m)) }

  function DeleteItem(m: Message, x: Context): Item {
    var name := if m.room != "" then x.thread(m.room) else x.address(Peer(m, x));
    var mine := Author(m) == x.user;
    Item(m.id, if mine then None else Some(name), if mine then Some(name) else None,
         if m.room != "" then Some(name) else None, false, Delete(DeleteIds(m, x)))
  }

  datatype Outcome = Skipped | Received(item: Item) | Sent(item: Item)

  function OutcomeOf(m: Message, x: Context, gone: set<string>, read: map<string, int>): Outcome {
    if m.retract != "" then
      if DeleteIds(m, x) == [] then Skipped
      else if Author(m) == x.user then Sent(DeleteItem(m, x)) else Received(DeleteItem(m, x))
    else if !Kept(m, x, gone) then Skipped
    else if Own(m, x) then Sent(ChatItem(m, x, read)) else Received(ChatItem(m, x, read))
  }

  function ReceivedOf(msgs: seq<Message>, x: Context, gone: set<string>, read: map<string, int>): seq<Item> {
    if msgs == [] then []
    else
      var o := OutcomeOf(msgs[|msgs| - 1], x, gone, read);
      ReceivedOf(msgs[..|msgs| - 1], x, gone, read) + if o.Received? then [o.item] else []
  }

  function SentOf(msgs: seq<Message>, x: Context, gone: set<string>, read: map<string, int>): seq<Item> {
    if msgs == [] then []
    else
      var o := OutcomeOf(msgs[|msgs| - 1], x, gone, read);
      SentOf(msgs[..|msgs| - 1], x, gone, read) + if o.Sent? then [o.item] else []
  }

  /** A message as the app knows it from now on. */
  datatype AppMsg = AppMsg(smsId: string, ref: string, peer: string, author: string)

  function KnownAs(m: Message, x: Context): AppMsg { AppMsg(m.id, Ref(m), Peer(m, x), Author(m)) }

  function KnownOf(msgs: seq<Message>, x: Context, gone: set<string>): seq<AppMsg> {
    if msgs == [] then []
    else
      var m := msgs[|msgs| - 1];
      KnownOf(msgs[..|msgs| - 1], x, gone) + if m.retract == "" && Kept(m, x, gone) then [KnownAs(m, x)] else []
  }

  method GoneOf(msgs: seq<Message>) returns (gone: set<string>)
    ensures gone == Gone(msgs)
  {
    gone := {};
    for i := 0 to |msgs|
      invariant gone == Gone(msgs[..i])
    {
      assert msgs[..i + 1] == msgs[..i] + [msgs[i]];
      if msgs[i].retract != "" && msgs[i].room != "" { gone := gone + {GoneKey(msgs[i].room, msgs[i].retract, msgs[i].nick)}; }
    }
    assert msgs[..|msgs|] == msgs;
  }

  /** What the loop of fetchMessages makes of one message, and whether it is recorded. */
  method ItemOf(m: Message, x: Context, gone: set<string>, read: map<string, int>) returns (o: Outcome, shown: bool)
    ensures o == OutcomeOf(m, x, gone, read) && (shown <==> m.retract == "" && Kept(m, x, gone))
  {
    var peer := if m.room != "" then m.room else if m.from == x.me then m.to else m.from;
    if m.retract != "" {
      var ids := x.appIds(peer, m.retract, Author(m));
      if |ids| == 0 { return Skipped, false; }
      return if Author(m) == x.user then Sent(DeleteItem(m, x)) else Received(DeleteItem(m, x)), false;
    }
    if m.id in x.hidden || (m.room != "" && GoneKey(m.room, m.roomSID, m.nick) in gone) { return Skipped, false; }
    if x.blank(m.body) && |m.files| == 0 { return Skipped, false; }
    var kind := if |m.files| == 0 && !x.transfer(m.body) then Text else File;
    if m.room != "" {
      var name := x.thread(m.room);
      if m.nick == x.user { return Sent(Item(m.id, None, Some(name), Some(name), false, kind)), true; }
      return Received(Item(m.id, Some(name), None, Some(name), m.at <= ReadAt(read, peer), kind)), true;
    }
    if m.from == x.me { return Sent(Item(m.id, None, Some(x.address(m.to)), None, false, kind)), true; }
    o, shown := Received(Item(m.id, Some(x.address(m.from)), None, None, m.at <= ReadAt(read, peer), kind)), true;
  }

  /** The loop of fetchMessages over what was read. */
  method Items(msgs: seq<Message>, x: Context) returns (received: seq<Item>, sent: seq<Item>, known: seq<AppMsg>)
    ensures var gone, read := Gone(msgs), Read(msgs, Times(msgs), x.me, x.user);
      received == ReceivedOf(msgs, x, gone, read) && sent == SentOf(msgs, x, gone, read) && known == KnownOf(msgs, x, gone)
  {
    var gone := GoneOf(msgs);
    var read := ReadUpTo(msgs, x.me, x.user);
    received, sent, known := [], [], [];
    for i := 0 to |msgs|
      invariant received == ReceivedOf(msgs[..i], x, gone, read) && sent == SentOf(msgs[..i], x, gone, read)
      invariant known == KnownOf(msgs[..i], x, gone)
    {
      assert msgs[..i + 1][..i] == msgs[..i];
      var o, shown := ItemOf(msgs[i], x, gone, read);
      if shown { known := known + [KnownAs(msgs[i], x)]; }
      if o.Received? { received := received + [o.item]; }
      if o.Sent? { sent := sent + [o.item]; }
    }
    assert msgs[..|msgs|] == msgs;
  }

  /** The chat an item names: as its recipient when it was sent and else as its sender, and whether it is a group. */
  function NamedChat(item: Item): (bool, string) { (item.stream.Some?, item.recipient.GetOr(item.sender.GetOr(""))) }

  predicate SameChat(m: Message, n: Message, x: Context) { (m.room != "") == (n.room != "") && Peer(m, x) == Peer(n, x) }

  /** Different groups have different threads, and different colleagues different addresses. */
  ghost predicate NamesApart(x: Context) {
    && (forall a: string, b: string :: a != "" && b != "" && x.thread(a) == x.thread(b) ==> a == b)
    && (forall a: string, b: string :: x.address(a) == x.address(b) ==> a == b)
  }

  /** An item has one of recipient and sender, and its stream is the group. */
  lemma ItemShape(m: Message, x: Context, gone: set<string>, read: map<string, int>)
    requires !OutcomeOf(m, x, gone, read).Skipped?
    ensures var o := OutcomeOf(m, x, gone, read);
      && (o.Sent? ==> o.item.recipient.Some? && o.item.sender.None?) && (o.Received? ==> o.item.recipient.None? && o.item.sender.Some?)
      && NamedChat(o.item) == (m.room != "", if m.room != "" then x.thread(m.room) else x.address(Peer(m, x)))
      && (o.item.displayed <==> o.Received? && m.retract == "" && m.at <= ReadAt(read, Peer(m, x)))
  {
  }

  /** What counts as sent: in a group what carries one's name, else what comes from one's own address; a message taken back
      by its author's name, in a group and elsewhere. */
  lemma SentExactly(m: Message, x: Context, gone: set<string>, read: map<string, int>)
    requires !OutcomeOf(m, x, gone, read).Skipped?
    ensures m.room != "" ==> (OutcomeOf(m, x, gone, read).Sent? <==> m.nick == x.user)
    ensures m.room == "" && m.retract == "" ==> (OutcomeOf(m, x, gone, read).Sent? <==> m.from == x.me)
    ensures m.room == "" && m.retract != "" ==> (OutcomeOf(m, x, gone, read).Sent? <==> Local(m.from) == x.user)
  {
  }

  /** One of the message's ids, by which a marker can name it. */
  predicate Bears(m: Message, id: string) { id != "" && (m.msgId == id || m.originId == id || m.roomSID == id) }

  predicate LastBearer(msgs: seq<Message>, i: int, id: string) {
    0 <= i < |msgs| && Bears(msgs[i], id) && forall j :: i < j < |msgs| ==> !Bears(msgs[j], id)
  }

  lemma {:induction false} TimesAre(msgs: seq<Message>, id: string)
    ensures id in Times(msgs) <==> exists i :: LastBearer(msgs, i, id)
    ensures forall i :: LastBearer(msgs, i, id) ==> Times(msgs)[id] == msgs[i].at
  {
    if msgs != [] {
      var n := |msgs| - 1;
      TimesAre(msgs[..n], id);
      if Bears(msgs[n], id) {
        assert LastBearer(msgs, n, id);
      } else {
        forall i ensures LastBearer(msgs, i, id) <==> LastBearer(msgs[..n], i, id) {
          if LastBearer(msgs[..n], i, id) { assert msgs[..n][i] == msgs[i]; }
        }
      }
    }
  }

  /** The marker reaches this time: that of the last message it names, or its own when nothing read has the id. */
  ghost predicate Reaches(msgs: seq<Message>, marker: Message, at: int) {
    (exists i :: LastBearer(msgs, i, marker.displayed) && at <= msgs[i].at)
    || ((forall i :: !LastBearer(msgs, i, marker.displayed)) && at <= marker.at)
  }

  /** Main result: a received message shows as read exactly when the fetch has a marker of the person's own, from any
      client, in the same chat, that reaches it. */
  lemma DisplayedExactly(msgs: seq<Message>, x: Context, m: Message)
    requires var read := Read(msgs, Times(msgs), x.me, x.user); OutcomeOf(m, x, Gone(msgs), read).Received?
    requires m.retract == "" && m.at > ZERO
    ensures OutcomeOf(m, x, Gone(msgs), Read(msgs, Times(msgs), x.me, x.user)).item.displayed
            <==> exists n <- msgs ::
                   && n.displayed != "" && (n.room != "" ==> n.nick == x.user && n.room == Peer(m, x))
                   && (n.room == "" ==> n.from == x.me && n.to == Peer(m, x)) && Reaches(msgs, n, m.at)
  {
    ReadIsTheNewestMarker(msgs, Times(msgs), x.me, x.user, Peer(m, x), m.at);
    forall n | n in msgs ensures m.at <= Covers(n, Times(msgs)) <==> Reaches(msgs, n, m.at) {
      TimesAre(msgs, n.displayed);
    }
  }

  /** What an item is: a deletion for a message that takes one back; a file for one with an attachment, or in the app's own
      file transfer format; else a text. */
  lemma ItemKind(m: Message, x: Context, gone: set<string>, read: map<string, int>)
    requires !OutcomeOf(m, x, gone, read).Skipped?
    ensures var kind := OutcomeOf(m, x, gone, read).item.kind;
      && (kind.Delete? <==> m.retract != "")
      && (kind == File <==> m.retract == "" && (|m.files| > 0 || x.transfer(m.body)))
      && (kind == Text <==> m.retract == "" && |m.files| == 0 && !x.transfer(m.body))
  {
  }

  /** n takes m back: in the same group, by its reference, from the same nick. */
  predicate TakesBack(n: Message, m: Message) { m.room != "" && n.retract != "" && n.room == m.room && n.retract == m.roomSID && n.nick == m.nick }

  /** Addresses and references hold no bar. */
  predicate NoBar(m: Message) { '|' !in m.room && '|' !in m.roomSID && '|' !in m.retract }

  lemma KeysApart(room: string, ref: string, nick: string, room': string, ref': string, nick': string)
    requires '|' !in room && '|' !in ref && '|' !in room' && '|' !in ref'
    requires GoneKey(room, ref, nick) == GoneKey(room', ref', nick')
    ensures room == room' && ref == ref' && nick == nick'
  {
    assert GoneKey(room, ref, nick) == room + ['|'] + (ref + ['|'] + nick);
    assert GoneKey(room', ref', nick') == room' + ['|'] + (ref' + ['|'] + nick');
    Fingerprint.CutFirst(room, ref + ['|'] + nick, room', ref' + ['|'] + nick', '|');
    Fingerprint.CutFirst(ref, nick, ref', nick', '|');
  }

  /** Main result: of the messages of a fetch that take nothing back, those left out are the ones hidden, the ones with
      neither text nor file, and the ones of a group that their author took back in the same fetch. */
  lemma SkippedExactly(msgs: seq<Message>, x: Context, read: map<string, int>, m: Message)
    requires m in msgs && m.retract == "" && forall n <- msgs :: NoBar(n)
    ensures OutcomeOf(m, x, Gone(msgs), read).Skipped?
            <==> m.id in x.hidden || (x.blank(m.body) && m.files == []) || exists n <- msgs :: TakesBack(n, m)
  {
    var key := GoneKey(m.room, m.roomSID, m.nick);
    if m.room != "" && key in Gone(msgs) {
      var n :| n in msgs && n.retract != "" && n.room != "" && key == GoneKey(n.room, n.retract, n.nick);
      KeysApart(m.room, m.roomSID, m.nick, n.room, n.retract, n.nick);
      assert TakesBack(n, m);
    }
    if n :| n in msgs && TakesBack(n, m) { assert key in Gone(msgs); }
  }

  lemma SameNamesSameChat(m: Message, n: Message, x: Context, gone: set<string>, read: map<string, int>)
    requires !OutcomeOf(m, x, gone, read).Skipped? && !OutcomeOf(n, x, gone, read).Skipped?
    ensures var a, b := NamedChat(OutcomeOf(m, x, gone, read).item), NamedChat(OutcomeOf(n, x, gone, read).item);
      (SameChat(m, n, x) ==> a == b) && (NamesApart(x) && a == b ==> SameChat(m, n, x))
  {
    ItemShape(m, x, gone, read);
    ItemShape(n, x, gone, read);
    if m.room != "" && n.room != "" {
      assert x.thread(m.room) == x.thread(n.room) && NamesApart(x) ==> m.room == n.room;
    } else if m.room == "" && n.room == "" {
      assert x.address(Peer(m, x)) == x.address(Peer(n, x)) && NamesApart(x) ==> Peer(m, x) == Peer(n, x);
    }
  }

  /** Items tell the chats of their messages apart. */
  ghost predicate ChatsApart(x: Context) {
    forall m, n :: (!OutcomeOf(m, x, {}, map[]).Skipped? && !OutcomeOf(n, x, {}, map[]).Skipped?
                    && NamedChat(OutcomeOf(m, x, {}, map[]).item) == NamedChat(OutcomeOf(n, x, {}, map[]).item)) ==>
      SameChat(m, n, x)
  }

  /** A message with a file, of a group or from the person to somebody. */
  function WithFile(x: Context, id: string, room: string, to: string): Message {
    Message(id, id, x.me, to, room, "", "", ["f"], 0, "", "", "", "")
  }

  lemma WithFileIsShown(x: Context, id: string, room: string, to: string)
    requires id !in x.hidden
    ensures var o := OutcomeOf(WithFile(x, id, room, to), x, {}, map[]);
      !o.Skipped? && NamedChat(o.item) == (room != "", if room != "" then x.thread(room) else x.address(to))
  {
    ItemShape(WithFile(x, id, room, to), x, {}, map[]);
  }

  /** Main result: whether sent or received, two items of one chat name it alike; and items tell all chats apart if and
      only if no two groups share a thread name and no two colleagues an address. */
  lemma ItemsNameTheChat(x: Context)
    ensures ChatsApart(x) <==> NamesApart(x)
  {
    if NamesApart(x) {
      forall m, n | !OutcomeOf(m, x, {}, map[]).Skipped? && !OutcomeOf(n, x, {}, map[]).Skipped?
                    && NamedChat(OutcomeOf(m, x, {}, map[]).item) == NamedChat(OutcomeOf(n, x, {}, map[]).item)
        ensures SameChat(m, n, x)
      {
        SameNamesSameChat(m, n, x, {}, map[]);
      }
    } else {
      var id := FreshText(x.hidden);
      if a: string, b: string :| a != "" && b != "" && x.thread(a) == x.thread(b) && a != b {
        SharedName(x, id, a, b, "", "");
      } else {
        var a: string, b: string :| x.address(a) == x.address(b) && a != b;
        SharedName(x, id, "", "", a, b);
      }
    }
  }

  lemma SharedName(x: Context, id: string, room1: string, room2: string, to1: string, to2: string)
    requires id !in x.hidden
    requires if room1 != "" then room2 != "" && room1 != room2 && x.thread(room1) == x.thread(room2)
             else room2 == "" && to1 != to2 && x.address(to1) == x.address(to2)
    ensures !ChatsApart(x)
  {
    var m, n := WithFile(x, id, room1, to1), WithFile(x, id, room2, to2);
    WithFileIsShown(x, id, room1, to1);
    WithFileIsShown(x, id, room2, to2);
    assert !SameChat(m, n, x);
  }

  // ---- One item for each message ----

  predicate ItemsInOrder(items: seq<Item>) { forall i, j :: 0 <= i < j < |items| ==> Older(items[i].smsId, items[j].smsId) }

  lemma {:induction false} ReceivedComeFrom(msgs: seq<Message>, x: Context, gone: set<string>, read: map<string, int>, item: Item)
    ensures item in ReceivedOf(msgs, x, gone, read) <==> exists m <- msgs :: OutcomeOf(m, x, gone, read) == Received(item)
  {
    if msgs != [] {
      var n := |msgs| - 1;
      ReceivedComeFrom(msgs[..n], x, gone, read, item);
      assert msgs == msgs[..n] + [msgs[n]];
    }
  }

  lemma {:induction false} SentComeFrom(msgs: seq<Message>, x: Context, gone: set<string>, read: map<string, int>, item: Item)
    ensures item in SentOf(msgs, x, gone, read) <==> exists m <- msgs :: OutcomeOf(m, x, gone, read) == Sent(item)
  {
    if msgs != [] {
      var n := |msgs| - 1;
      SentComeFrom(msgs[..n], x, gone, read, item);
      assert msgs == msgs[..n] + [msgs[n]];
    }
  }

  lemma NamedAfter(m: Message, x: Context, gone: set<string>, read: map<string, int>)
    ensures !OutcomeOf(m, x, gone, read).Skipped? ==> OutcomeOf(m, x, gone, read).item.smsId == m.id
  {
  }

  lemma LastIsNewest(msgs: seq<Message>, m: Message)
    requires msgs != [] && Ascending(msgs) && m in msgs[..|msgs| - 1]
    ensures Older(m.id, msgs[|msgs| - 1].id)
  {
    var i :| 0 <= i < |msgs| - 1 && msgs[..|msgs| - 1][i] == m;
  }

  lemma {:induction false} ReceivedInOrder(msgs: seq<Message>, x: Context, gone: set<string>, read: map<string, int>)
    requires Ascending(msgs)
    ensures ItemsInOrder(ReceivedOf(msgs, x, gone, read))
  {
    if msgs != [] {
      var n := |msgs| - 1;
      ReceivedInOrder(msgs[..n], x, gone, read);
      var front := ReceivedOf(msgs[..n], x, gone, read);
      forall i | 0 <= i < |front| ensures Older(front[i].smsId, msgs[n].id) {
        ReceivedComeFrom(msgs[..n], x, gone, read, front[i]);
        var m :| m in msgs[..n] && OutcomeOf(m, x, gone, read) == Received(front[i]);
        NamedAfter(m, x, gone, read);
        LastIsNewest(msgs, m);
      }
      NamedAfter(msgs[n], x, gone, read);
    }
  }

  lemma {:induction false} SentInOrder(msgs: seq<Message>, x: Context, gone: set<string>, read: map<string, int>)
    requires Ascending(msgs)
    ensures ItemsInOrder(SentOf(msgs, x, gone, read))
  {
    if msgs != [] {
      var n := |msgs| - 1;
      SentInOrder(msgs[..n], x, gone, read);
      var front := SentOf(msgs[..n], x, gone, read);
      forall i | 0 <= i < |front| ensures Older(front[i].smsId, msgs[n].id) {
        SentComeFrom(msgs[..n], x, gone, read, front[i]);
        var m :| m in msgs[..n] && OutcomeOf(m, x, gone, read) == Sent(front[i]);
        NamedAfter(m, x, gone, read);
        LastIsNewest(msgs, m);
      }
      NamedAfter(msgs[n], x, gone, read);
    }
  }

  /** How many of the items carry an id. */
  function CountId(items: seq<Item>, id: string): nat {
    if items == [] then 0 else CountId(items[..|items| - 1], id) + if items[|items| - 1].smsId == id then 1 else 0
  }

  lemma {:induction false} CountInOrder(items: seq<Item>, id: string)
    requires ItemsInOrder(items)
    ensures CountId(items, id) == if exists item <- items :: item.smsId == id then 1 else 0
  {
    if items != [] {
      var n := |items| - 1;
      CountInOrder(items[..n], id);
      assert items == items[..n] + [items[n]];
      if items[n].smsId == id {
        forall item | item in items[..n] ensures item.smsId != id {
          var i :| 0 <= i < n && items[..n][i] == item;
          OlderIsAnOrder(item.smsId, id, id);
        }
      }
    }
  }

  lemma SameMessage(msgs: seq<Message>, a: Message, b: Message)
    requires Ascending(msgs) && a in msgs && b in msgs && a.id == b.id
    ensures a == b
  {
    var i :| 0 <= i < |msgs| && msgs[i] == a;
    var j :| 0 <= j < |msgs| && msgs[j] == b;
    OlderIsAnOrder(a.id, b.id, a.id);
  }

  /** Main result: each message of an ordered run gives at most one item, in one of the two lists: a message to be shown
      exactly one, sent when it is the person's own and else received; one that is not, none. */
  lemma {:induction false} EachMessageOnce(msgs: seq<Message>, x: Context, m: Message)
    requires Ascending(msgs) && m in msgs
    ensures var gone, read := Gone(msgs), Read(msgs, Times(msgs), x.me, x.user);
      var received, sent := CountId(ReceivedOf(msgs, x, gone, read), m.id), CountId(SentOf(msgs, x, gone, read), m.id);
      && received == (if OutcomeOf(m, x, gone, read).Received? then 1 else 0)
      && sent == (if OutcomeOf(m, x, gone, read).Sent? then 1 else 0)
      && (m.retract == "" ==> received + sent == (if Kept(m, x, gone) then 1 else 0) && (Kept(m, x, gone) ==> (sent == 1 <==> Own(m, x))))
      && (m.retract != "" ==> received + sent == (if DeleteIds(m, x) != [] then 1 else 0))
  {
    var gone, read := Gone(msgs), Read(msgs, Times(msgs), x.me, x.user);
    var received, sent := ReceivedOf(msgs, x, gone, read), SentOf(msgs, x, gone, read);
    ReceivedInOrder(msgs, x, gone, read);
    SentInOrder(msgs, x, gone, read);
    CountInOrder(received, m.id);
    CountInOrder(sent, m.id);
    NamedAfter(m, x, gone, read);
    var o := OutcomeOf(m, x, gone, read);
    if o.Received? { ReceivedComeFrom(msgs, x, gone, read, o.item); }
    if o.Sent? { SentComeFrom(msgs, x, gone, read, o.item); }
    if item :| item in received && item.smsId == m.id {
      ReceivedComeFrom(msgs, x, gone, read, item);
      var k :| k in msgs && OutcomeOf(k, x, gone, read) == Received(item);
      NamedAfter(k, x, gone, read);
      SameMessage(msgs, k, m);
    }
    if item :| item in sent && item.smsId == m.id {
      SentComeFrom(msgs, x, gone, read, item);
      var k :| k in msgs && OutcomeOf(k, x, gone, read) == Sent(item);
      NamedAfter(k, x, gone, read);
      SameMessage(msgs, k, m);
    }
  }

  /** The lists hold nothing else: an item is a message of the run, and both lists are in the archive's order. */
  lemma NothingElse(msgs: seq<Message>, x: Context, item: Item)
    requires Ascending(msgs)
    ensures var gone, read := Gone(msgs), Read(msgs, Times(msgs), x.me, x.user);
      var received, sent := ReceivedOf(msgs, x, gone, read), SentOf(msgs, x, gone, read);
      && (item in received || item in sent ==> exists m <- msgs :: m.id == item.smsId && !OutcomeOf(m, x, gone, read).Skipped?)
      && ItemsInOrder(received) && ItemsInOrder(sent)
  {
    var gone, read := Gone(msgs), Read(msgs, Times(msgs), x.me, x.user);
    ReceivedComeFrom(msgs, x, gone, read, item);
    SentComeFrom(msgs, x, gone, read, item);
    ReceivedInOrder(msgs, x, gone, read);
    SentInOrder(msgs, x, gone, read);
  }

  lemma {:induction false} KnownComeFrom(msgs: seq<Message>, x: Context, gone: set<string>, a: AppMsg)
    ensures a in KnownOf(msgs, x, gone) <==> exists m <- msgs :: m.retract == "" && Kept(m, x, gone) && a == KnownAs(m, x)
  {
    if msgs != [] {
      var n := |msgs| - 1;
      KnownComeFrom(msgs[..n], x, gone, a);
      assert msgs == msgs[..n] + [msgs[n]];
    }
  }
}
