/**
 Every writer of the chat and message tables: the persistence worker and the
 request handlers that store sent messages, mark chats read or repair names.
 A run is any sequence of their operations.
 */
module Writers {
  import opened Wrappers
  import opened Tables
  import opened Persister
  import opened PersistFacts

  /** A message this device sent itself; `name` is the chat name the handler resolved. */
  datatype Sent = Sent(id: Id, chat: Jid, self: Jid, group: bool, name: string, ts: int, kind: string, text: string, quoted: string)

  /** Without media the message is a text. */
  function SentRow(s: Sent, hasMedia: bool): Message {
    Message(s.chat, s.self, true, s.ts, if hasMedia then s.kind else "text",
            if s.text != "" then Some(s.text) else None, s.quoted, false, false, SENT, hasMedia)
  }

  function SentInserted(db: Tables, s: Sent, hasMedia: bool): Tables {
    InsertMessage(UpsertChat(db, s.chat, s.group, s.name), s.id, SentRow(s, hasMedia))
  }

  /** finalizeSentMedia: bookkeeping only when this writer inserted the row. */
  function FinalizeSentMedia(db: Tables, s: Sent): Tables {
    var db1 := SentInserted(db, s, true);
    var db2 := match UpsertMedia(db1, s.id, Media(s.id, s.kind, 0, false)) case Some(d) => d case None => db1;
    var db3 := MarkMediaDownloaded(db2, s.id);
    if s.id in db.messages then db3 else UpdateChatLastMessage(db3, s.chat, s.id, s.ts, Preview(s.text, s.kind))
  }

  /** storeOutgoing: the bookkeeping does not ask whether the row was inserted. */
  function StoreOutgoing(db: Tables, s: Sent): Tables {
    UpdateChatLastMessage(SentInserted(db, s, false), s.chat, s.id, s.ts, s.text)
  }

  /** message.read for the pending incoming messages `ids` of a chat. */
  function ReadPending(db: Tables, chat: Jid, ids: seq<Id>): Tables {
    if ids == [] then db else MarkChatRead(SetMessagesStatus(db, ids, READ), chat)
  }

  datatype Op =
    | OnMessage(m: WaMessage)
    | OnReceipt(r: Receipt)
    | OnHistory(c: Conversation)
    | OnContact(jid: Jid, pn: Jid, contact: Contact)
    | OnGroup(jid: Jid, name: string)
    | SendMedia(sent: Sent)
    | SendText(sent: Sent)
    | ReadChat(jid: Jid, ids: seq<Id>)
    | NameChat(jid: Jid, group: bool, name: string)

  function Apply(db: Tables, op: Op): Tables {
    match op
    case OnMessage(m) => PersistMessage(db, m)
    case OnReceipt(r) => PersistReceipt(db, r)
    case OnHistory(c) => PersistConversation(db, c)
    case OnContact(jid, pn, contact) => PersistContact(db, jid, pn, contact)
    case OnGroup(jid, name) => PersistGroup(db, jid, name)
    case SendMedia(s) => FinalizeSentMedia(db, s)
    case SendText(s) => StoreOutgoing(db, s)
    case ReadChat(jid, ids) => ReadPending(db, jid, ids)
    case NameChat(jid, group, name) => UpsertChat(db, jid, group, name)
  }

  /** The tables after all of `ops`. */
  function Exec(db: Tables, ops: seq<Op>): Tables
    decreases |ops|
  {
    if ops == [] then db else Apply(Exec(db, ops[..|ops| - 1]), ops[|ops| - 1])
  }

  // ----------------------------------------------------- what operations do to rows

  /** No row is removed, and chat, time and direction of a row never change. */
  predicate RowsKept(a: Tables, b: Tables) {
    forall x :: x in a.messages ==>
      x in b.messages && b.messages[x].chat == a.messages[x].chat && b.messages[x].ts == a.messages[x].ts
      && b.messages[x].fromMe == a.messages[x].fromMe
  }

  predicate SameKeys(a: Tables, b: Tables) { a.messages.Keys == b.messages.Keys }

  predicate SameLast(a: Chat, b: Chat) { a.lastTs == b.lastTs && a.lastId == b.lastId }

  /** Last-message columns stay; a new chat has none. */
  predicate LastKept(a: Tables, b: Tables) {
    && a.chats.Keys <= b.chats.Keys
    && (forall j :: j in a.chats ==> SameLast(a.chats[j], b.chats[j]))
    && (forall j :: j in b.chats && j !in a.chats ==> b.chats[j].lastTs.None? && b.chats[j].lastId.None?)
  }

  function UnreadOf(db: Tables, j: Jid): int { if j in db.chats then db.chats[j].unread else 0 }

  /** Unread counters are those of `a`, except that `read`, if given, is at zero. */
  ghost predicate UnreadAfter(a: Tables, b: Tables, read: Option<Jid>) {
    forall j :: UnreadOf(b, j) == if read == Some(j) then 0 else UnreadOf(a, j)
  }

  /** No new row, same last-message columns, at most one counter cleared. */
  ghost predicate Quiet(a: Tables, b: Tables, read: Option<Jid>) {
    RowsKept(a, b) && SameKeys(a, b) && LastKept(a, b) && UnreadAfter(a, b, read)
  }

  lemma QuietThen(a: Tables, b: Tables, c: Tables, read: Option<Jid>)
    requires Quiet(a, b, None) && Quiet(b, c, read)
    ensures Quiet(a, c, read)
  {
  }

  lemma StatusIsQuiet(db: Tables, ids: seq<Id>, status: string)
    ensures Quiet(db, SetMessagesStatus(db, ids, status), None)
  {
  }

  /** A chat row that gets another unread count. */
  lemma SetUnreadParts(db: Tables, jid: Jid, count: nat)
    ensures var db' := SetUnread(db, jid, count);
      && db' == db.(chats := db'.chats) && LastKept(db, db')
      && forall j :: UnreadOf(db', j) == if j == jid && j in db.chats then count else UnreadOf(db, j)
  {
    if jid in db.chats {
      var row := UnreadRow(db.chats[jid], count);
      assert SameLast(db.chats[jid], row);
      assert SetUnread(db, jid, count).chats == db.chats[jid := row];
    }
  }

  lemma MarkReadIsQuiet(db: Tables, jid: Jid)
    ensures Quiet(db, MarkChatRead(db, jid), Some(jid))
  {
    SetUnreadParts(db, jid, 0);
    var db' := MarkChatRead(db, jid);
    assert RowsKept(db, db') && SameKeys(db, db');
  }

  lemma {:induction false} ReceiptsTouchNoRow(db: Tables, r: Receipt, n: nat)
    requires n <= |r.ids|
    ensures var db' := InsertReceipts(db, r, n); db' == db.(receipts := db'.receipts)
  {
    if n > 0 {
      ReceiptsTouchNoRow(db, r, n - 1);
    }
  }

  /** The chat whose counter a receipt clears: a receipt of ours for what we have read. */
  function Cleared(r: Receipt): Option<Jid> {
    if r.ids != [] && (r.kind.ReadSelf? || (r.kind.ReadReceipt? && r.fromMe)) then Some(r.chat) else None
  }

  lemma StatusPartIsQuiet(db: Tables, r: Receipt)
    ensures Quiet(db, WithStatus(db, r), None)
  {
    StatusIsQuiet(db, r.ids, READ);
    StatusIsQuiet(db, r.ids, DELIVERED);
  }

  lemma ReceiptIsQuiet(db: Tables, r: Receipt)
    ensures Quiet(db, PersistReceipt(db, r), Cleared(r))
  {
    if r.ids != [] {
      ReceiptsTouchNoRow(db, r, |r.ids|);
      var db1 := InsertReceipts(db, r, |r.ids|);
      assert Quiet(db, db1, None);
      StatusPartIsQuiet(db1, r);
      var db2 := WithStatus(db1, r);
      QuietThen(db, db1, db2, None);
      if ClearsUnread(r) {
        MarkReadIsQuiet(db2, r.chat);
        QuietThen(db, db2, MarkChatRead(db2, r.chat), Some(r.chat));
      }
    }
  }

  lemma ContactIsQuiet(db: Tables, jid: Jid, pn: Jid, c: Contact)
    ensures Quiet(db, PersistContact(db, jid, pn, c), None)
  {
    var db1 := UpsertContact(db, jid, c.(pushName := ""));
    assert db1 == db.(contacts := db1.contacts);
    var db2 := UpsertContact(db1, pn, c.(pushName := ""));
    assert db2 == db.(contacts := db2.contacts);
  }

  lemma UpsertIsQuiet(db: Tables, jid: Jid, group: bool, name: string)
    ensures Quiet(db, UpsertChat(db, jid, group, name), None)
  {
  }

  lemma GroupIsQuiet(db: Tables, jid: Jid, name: string)
    ensures Quiet(db, PersistGroup(db, jid, name), None)
  {
    var db1 := UpsertGroup(db, jid, name);
    assert Quiet(db, db1, None);
    UpsertIsQuiet(db1, jid, true, name);
    QuietThen(db, db1, UpsertChat(db1, jid, true, name), None);
  }

  lemma ReadIsQuiet(db: Tables, chat: Jid, ids: seq<Id>)
    ensures Quiet(db, ReadPending(db, chat, ids), if ids == [] then None else Some(chat))
  {
    var db1 := SetMessagesStatus(db, ids, READ);
    StatusIsQuiet(db, ids, READ);
    MarkReadIsQuiet(db1, chat);
    QuietThen(db, db1, MarkChatRead(db1, chat), Some(chat));
  }

  lemma QuietParts(a: Tables, b: Tables)
    requires RowsKept(a, b) && SameKeys(a, b)
    requires b.chats == a.chats || exists j, group, name :: b.chats == UpsertChat(a, j, group, name).chats
    ensures Quiet(a, b, None)
  {
    if b.chats != a.chats {
      var j, group, name :| b.chats == UpsertChat(a, j, group, name).chats;
      UpsertIsQuiet(a, j, group, name);
    }
  }

  /** A message that stores no new row is quiet. */
  lemma OldMessageIsQuiet(db: Tables, m: WaMessage)
    requires IsContent(m) ==> m.id in db.messages
    ensures Quiet(db, PersistMessage(db, m), None)
  {
    MessagesAfterOne(db, m);
    ChatsAfterOne(db, m);
    if IsContent(m) {
      assert PersistMessage(db, m).chats == UpsertChat(db, m.chat, m.group, m.name).chats;
    }
    QuietParts(db, PersistMessage(db, m));
  }

  /** A message that stores a new row adds exactly that row and books it. */
  lemma NewMessageParts(db: Tables, m: WaMessage)
    requires IsContent(m) && m.id !in db.messages
    ensures var db' := PersistMessage(db, m);
      && db'.messages == db.messages[m.id := RowOf(m)]
      && db'.chats == db.chats[m.chat := BookedRow(UpsertedRow(ChatRow(db, m.chat), m.group, m.name), m)]
  {
    ContentParts(db, m);
    ChatsAfterOne(db, m);
  }

  /** finalizeSentMedia in parts. */
  lemma SentMediaParts(db: Tables, s: Sent)
    ensures var db' := FinalizeSentMedia(db, s); var row := UpsertedRow(ChatRow(db, s.chat), s.group, s.name);
      && db'.messages == InsertMessage(db, s.id, SentRow(s, true)).messages
      && db'.chats == PutChat(db, s.chat,
           if s.id in db.messages then row else LastMessageRow(row, s.id, s.ts, Preview(s.text, s.kind))).chats
  {
    var row := UpsertedRow(ChatRow(db, s.chat), s.group, s.name);
    var db1 := SentInserted(db, s, true);
    var db2 := match UpsertMedia(db1, s.id, Media(s.id, s.kind, 0, false)) case Some(d) => d case None => db1;
    assert db2.chats == db1.chats && db2.messages == db1.messages;
    var db3 := MarkMediaDownloaded(db2, s.id);
    assert db3.chats == db.chats[s.chat := row];
    PutChatTwice(db, s.chat, row, LastMessageRow(row, s.id, s.ts, Preview(s.text, s.kind)));
  }

  lemma SentTextParts(db: Tables, s: Sent)
    ensures var db' := StoreOutgoing(db, s); var row := UpsertedRow(ChatRow(db, s.chat), s.group, s.name);
      && db'.messages == InsertMessage(db, s.id, SentRow(s, false)).messages
      && db'.chats == PutChat(db, s.chat, LastMessageRow(row, s.id, s.ts, s.text)).chats
  {
    var row := UpsertedRow(ChatRow(db, s.chat), s.group, s.name);
    PutChatTwice(db, s.chat, row, LastMessageRow(row, s.id, s.ts, s.text));
  }
}
