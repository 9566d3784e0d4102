/**
 The persistence worker: what each event kind does to the tables and which domain
 events it publishes.

 `Persist*` give the result on values; class `Worker` is the object whose methods
 make the statements one after the other, in the order of the source.
 */
module Persister {
  import opened Wrappers
  import opened Tables

  datatype Body =
    | React(target: Id, emoji: Option<string>)
    | Revoke(target: Id)
    | Edit(target: Id, newText: string)
    | OtherProtocol
    | Content(text: string, kind: string, quoted: string, media: Option<Media>)

  /** A parsed message. `name` is what the display-name resolver answers for its chat at
      that moment, "" when it has only a fallback. */
  datatype WaMessage = WaMessage(
    id: Id, chat: Jid, sender: Jid, fromMe: bool, group: bool, ts: int, push: string, name: string, body: Body)

  datatype Domain =
    | MessageReceived(id: Id, chat: Jid)
    | MessageUpdated(id: Id, chat: Jid, deleted: bool)
    | ReceiptUpdated(chat: Jid, ids: seq<Id>, status: string)
    | ChatUpdated(jid: Jid, unread: int, lastTs: Option<int>)

  function ChatEvent(db: Tables, jid: Jid): seq<Domain> {
    if jid in db.chats then [ChatUpdated(jid, db.chats[jid].unread, db.chats[jid].lastTs)] else []
  }

  function Preview(text: string, kind: string): string { if text != "" then text else "[" + kind + "]" }

  function InitialStatus(fromMe: bool): string { if fromMe then SENT else "" }

  function RowOf(m: WaMessage): Message
    requires m.body.Content?
  {
    Message(m.chat, m.sender, m.fromMe, m.ts, m.body.kind, if m.body.text != "" then Some(m.body.text) else None,
            m.body.quoted, false, false, InitialStatus(m.fromMe), m.body.media.Some?)
  }

  predicate Ignored(m: WaMessage) { m.id == "" || m.chat == "" }

  // ------------------------------------------------------------- results on values

  function WithContact(db: Tables, m: WaMessage): Tables {
    var contact := if m.group then m.sender else m.chat;
    if !m.fromMe && contact != "" && m.push != "" then UpsertContact(db, contact, Contact("", "", m.push)) else db
  }

  function WithMedia(db: Tables, m: WaMessage): Tables
    requires m.body.Content?
  {
    if m.body.media.None? then db
    else match UpsertMedia(db, m.id, m.body.media.value.(message := m.id)) case Some(d) => d case None => db
  }

  function WithBookkeeping(db: Tables, m: WaMessage): Tables
    requires m.body.Content?
  {
    var db1 := UpdateChatLastMessage(db, m.chat, m.id, m.ts, Preview(m.body.text, m.body.kind));
    if m.fromMe then db1 else IncrementUnread(db1, m.chat)
  }

  function PersistContent(db: Tables, m: WaMessage): Tables
    requires m.body.Content?
  {
    var db1 := WithContact(UpsertChat(db, m.chat, m.group, m.name), m);
    var db2 := WithMedia(InsertMessage(db1, m.id, RowOf(m)), m);
    if m.id in db.messages then db2 else WithBookkeeping(db2, m)
  }

  /** Reactions, revokes and edits change stored rows; other protocol messages nothing. */
  function PersistOther(db: Tables, m: WaMessage): Tables
    requires !m.body.Content?
  {
    var b := m.body;
    if b.OtherProtocol? || b.target == "" then db
    else if b.Revoke? then SetMessageDeleted(db, b.target)
    else if b.Edit? then SetMessageEdited(db, b.target, b.newText)
    else UpsertReaction(db, b.target, m.sender, b.emoji, m.chat, m.fromMe, m.ts)
  }

  function PersistMessage(db: Tables, m: WaMessage): Tables {
    if Ignored(m) then db
    else if m.body.Content? then PersistContent(db, m)
    else PersistOther(db, m)
  }

  function PersistMessages(db: Tables, batch: seq<WaMessage>): Tables
    decreases |batch|
  {
    if batch == [] then db else PersistMessages(PersistMessage(db, batch[0]), batch[1..])
  }

  /** One history conversation; `name` is its display name, its name or the resolved one. */
  datatype Conversation = Conversation(
    chat: Jid, group: bool, name: string, lastTs: nat, unread: int, messages: seq<WaMessage>)

  /** The closing statements of a conversation. */
  function Closed(db: Tables, c: Conversation): Tables {
    var db2 := if c.name != "" then UpsertChat(db, c.chat, c.group, c.name) else db;
    var db3 := if c.lastTs > 0 then SetChatLastTimestamp(db2, c.chat, c.lastTs * 1000) else db2;
    SetUnread(db3, c.chat, c.unread)
  }

  function PersistConversation(db: Tables, c: Conversation): Tables {
    if c.chat == "" then db
    else Closed(PersistMessages(UpsertChat(db, c.chat, c.group, c.name), c.messages), c)
  }

  function ClosingSteps(c: Conversation): nat { (if c.name != "" then 1 else 0) + (if c.lastTs > 0 then 1 else 0) + 1 }

  /** In how many steps a conversation is stored. */
  function Steps(c: Conversation): nat { if c.chat == "" then 0 else 1 + |c.messages| + ClosingSteps(c) }

  /** Receipt types the switch knows; any other type only records the receipt. */
  datatype ReceiptKind = ReadReceipt | ReadSelf | DeliveredReceipt | OtherReceipt(name: string)

  datatype Receipt = Receipt(chat: Jid, sender: Jid, fromMe: bool, kind: ReceiptKind, ids: seq<Id>, ts: int)

  function KindName(k: ReceiptKind): string {
    match k
    case ReadReceipt => READ
    case ReadSelf => "read-self"
    case DeliveredReceipt => DELIVERED
    case OtherReceipt(name) => name
  }

  predicate ClearsUnread(r: Receipt) { r.kind.ReadSelf? || (r.kind.ReadReceipt? && r.fromMe) }

  function InsertReceipts(db: Tables, r: Receipt, n: nat): Tables
    requires n <= |r.ids|
  {
    if n == 0 then db else InsertReceipt(InsertReceipts(db, r, n - 1), r.ids[n - 1], r.sender, KindName(r.kind), r.ts)
  }

  function WithStatus(db: Tables, r: Receipt): Tables {
    match r.kind
    case ReadReceipt => SetMessagesStatus(db, r.ids, READ)
    case ReadSelf => SetMessagesStatus(db, r.ids, READ)
    case DeliveredReceipt => SetMessagesStatus(db, r.ids, DELIVERED)
    case OtherReceipt(_) => db
  }

  function PersistReceipt(db: Tables, r: Receipt): Tables {
    if r.ids == [] then db
    else
      var db1 := WithStatus(InsertReceipts(db, r, |r.ids|), r);
      if ClearsUnread(r) then MarkChatRead(db1, r.chat) else db1
  }

  function ReportedStatus(r: Receipt): string { if r.kind.ReadSelf? then READ else KindName(r.kind) }

  function PersistContact(db: Tables, jid: Jid, pn: Jid, c: Contact): Tables {
    if jid == "" then db
    else
      var db1 := UpsertContact(db, jid, c.(pushName := ""));
      if pn != "" && pn != jid then UpsertContact(db1, pn, c.(pushName := "")) else db1
  }

  function PersistGroup(db: Tables, jid: Jid, name: string): Tables {
    if jid == "" then db
    else
      var db1 := UpsertGroup(db, jid, name);
      if name != "" then UpsertChat(db1, jid, true, name) else db1
  }

  // --------------------------------------------------------------------- the worker

  /** chat.updated, when the new row became the last one or raised the unread counter. */
  function AfterInsert(db: Tables, m: WaMessage): seq<Domain> {
    if m.chat in db.chats && (db.chats[m.chat].lastId == Some(m.id) || !m.fromMe) then ChatEvent(db, m.chat) else []
  }

  /** The published events of one message, given the tables before and after it. */
  function EventsOf(before: Tables, after: Tables, m: WaMessage): seq<Domain> {
    if Ignored(m) then []
    else match m.body
      case React(_, _) => []
      case Revoke(target) => if target == "" then [] else [MessageUpdated(target, m.chat, true)]
      case Edit(target, _) => if target == "" then [] else [MessageUpdated(target, m.chat, false)]
      case OtherProtocol => []
      case Content(_, _, _, _) =>
        if m.id in before.messages then [] else [MessageReceived(m.id, m.chat)] + AfterInsert(after, m)
  }

  class Worker {
    var db: Tables
    var published: seq<Domain>

    constructor (db: Tables)
      ensures this.db == db && published == []
    {
      this.db := db;
      published := [];
    }

    /** persistMessageWithRepo: live messages publish, history does not. */
    method Message(m: WaMessage, emit: bool)
      modifies this
      ensures db == PersistMessage(old(db), m)
      ensures published == old(published) + if emit then EventsOf(old(db), db, m) else []
    {
      if m.id == "" || m.chat == "" {
        return;
      }
      match m.body {
        case React(target, emoji) =>
          if target != "" {
            db := UpsertReaction(db, target, m.sender, emoji, m.chat, m.fromMe, m.ts);
          }
        case Revoke(target) =>
          if target != "" {
            db := SetMessageDeleted(db, target);
            if emit {
              published := published + [MessageUpdated(target, m.chat, true)];
            }
          }
        case Edit(target, text) =>
          if target != "" {
            db := SetMessageEdited(db, target, text);
            if emit {
              published := published + [MessageUpdated(target, m.chat, false)];
            }
          }
        case OtherProtocol =>
        case Content(_, _, _, _) =>
          var inserted := StoreContent(m);
          if inserted && emit {
            published := published + [MessageReceived(m.id, m.chat)];
            if m.chat in db.chats && (db.chats[m.chat].lastId == Some(m.id) || !m.fromMe) {
              published := published + ChatEvent(db, m.chat);
            }
          }
      }
    }

    /** The statements of a content message up to the chat bookkeeping. */
    method StoreContent(m: WaMessage) returns (inserted: bool)
      requires m.body.Content?
      modifies this`db
      ensures db == PersistContent(old(db), m) && inserted == (m.id !in old(db).messages)
    {
      db := UpsertChat(db, m.chat, m.group, m.name);
      var contact := if m.group then m.sender else m.chat;
      if !m.fromMe && contact != "" && m.push != "" {
        db := UpsertContact(db, contact, Contact("", "", m.push));
      }
      inserted := m.id !in db.messages;
      db := InsertMessage(db, m.id, RowOf(m));
      var media := m.body.media;
      if media.Some? {
        // The foreign key holds: the row was inserted just above.
        db := UpsertMedia(db, m.id, media.value.(message := m.id)).value;
      }
      if !inserted {
        return;
      }
      db := UpdateChatLastMessage(db, m.chat, m.id, m.ts, Preview(m.body.text, m.body.kind));
      if !m.fromMe {
        db := IncrementUnread(db, m.chat);
      }
    }

    method Receipt(r: Receipt)
      modifies this
      ensures db == PersistReceipt(old(db), r)
      ensures published == old(published) +
        if r.ids == [] then []
        else [ReceiptUpdated(r.chat, r.ids, ReportedStatus(r))] + if ClearsUnread(r) then ChatEvent(db, r.chat) else []
    {
      if r.ids == [] {
        return;
      }
      var i := 0;
      while i < |r.ids|
        invariant i <= |r.ids| && db == InsertReceipts(old(db), r, i) && published == old(published)
      {
        db := InsertReceipt(db, r.ids[i], r.sender, KindName(r.kind), r.ts);
        i := i + 1;
      }
      var status, clearUnread := KindName(r.kind), false;
      if r.kind.ReadReceipt? || r.kind.ReadSelf? {
        status := READ;
        db := SetMessagesStatus(db, r.ids, READ);
        if r.fromMe || r.kind.ReadSelf? {
          db := MarkChatRead(db, r.chat);
          clearUnread := true;
        }
      } else if r.kind.DeliveredReceipt? {
        db := SetMessagesStatus(db, r.ids, DELIVERED);
      }
      published := published + [ReceiptUpdated(r.chat, r.ids, status)];
      if clearUnread {
        published := published + ChatEvent(db, r.chat);
      }
    }

    /** persistConversation inside WithTx, which `fails` stops before that one of its steps: the
        opening statement, the messages, the closing statements. Then the snapshot comes back,
        whatever had been written. */
    method Conversation(c: Conversation, fails: Option<nat>) returns (ok: bool)
      modifies this
      ensures ok <==> !(fails.Some? && fails.value < Steps(c))
      ensures db == if ok then PersistConversation(old(db), c) else old(db)
      ensures published == old(published)
    {
      var snapshot := db;
      if c.chat == "" {
        return true;
      }
      if fails == Some(0) {
        return false;
      }
      db := UpsertChat(db, c.chat, c.group, c.name);
      ghost var start := db;
      var i := 0;
      while i < |c.messages|
        invariant i <= |c.messages| && published == old(published) && snapshot == old(db)
        invariant fails.Some? ==> fails.value > i
        invariant PersistMessages(db, c.messages[i..]) == PersistMessages(start, c.messages)
      {
        if fails == Some(i + 1) {
          db := snapshot;
          return false;
        }
        assert c.messages[i..][1..] == c.messages[i + 1..];
        this.Message(c.messages[i], false);
        i := i + 1;
      }
      ok := Closing(c, fails, i + 1);
      if !ok {
        db := snapshot;
      }
    }

    /** The closing statements, from step `k` of the conversation on. */
    method Closing(c: Conversation, fails: Option<nat>, k: nat) returns (ok: bool)
      requires fails.Some? ==> fails.value >= k
      modifies this`db
      ensures ok <==> !(fails.Some? && fails.value < k + ClosingSteps(c))
      ensures ok ==> db == Closed(old(db), c)
    {
      var n := k;
      if c.name != "" {
        if fails == Some(n) {
          return false;
        }
        db := UpsertChat(db, c.chat, c.group, c.name);
        n := n + 1;
      }
      if c.lastTs > 0 {
        if fails == Some(n) {
          return false;
        }
        db := SetChatLastTimestamp(db, c.chat, c.lastTs * 1000);
        n := n + 1;
      }
      if fails == Some(n) {
        return false;
      }
      db := SetUnread(db, c.chat, c.unread);
      ok := true;
    }
  }
}
