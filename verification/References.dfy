/**
 Every single statement keeps the references between rows resolved and removes no
 row, in whatever order statements of several writers meet in the database.
 */
module References {
  import opened Wrappers
  import opened Tables
  import opened Persister
  import opened PersistFacts
  import opened Writers

  predicate Grows(a: Tables, b: Tables) { RowsKept(a, b) && a.chats.Keys <= b.chats.Keys }

  lemma GrowsThen(a: Tables, b: Tables, c: Tables)
    requires Grows(a, b) && Grows(b, c)
    ensures Grows(a, c)
  {
  }

  /** `b` has the rows of `a` and keeps references resolved if `a` does. */
  predicate Safe(a: Tables, b: Tables) { Grows(a, b) && (Resolved(a) ==> Resolved(b)) }

  lemma SafeThen(a: Tables, b: Tables, c: Tables)
    requires Safe(a, b) && Safe(b, c)
    ensures Safe(a, c)
  {
    GrowsThen(a, b, c);
  }

  /** Only chat rows change, and none goes. */
  lemma ChatsOnly(a: Tables, b: Tables)
    requires b == a.(chats := b.chats) && a.chats.Keys <= b.chats.Keys
    ensures Safe(a, b)
  {
  }

  /** Only message rows change or come, each new one in an existing chat. */
  lemma RowsOnly(a: Tables, b: Tables)
    requires b == a.(messages := b.messages) && RowsKept(a, b)
    requires forall x :: x in b.messages && x !in a.messages ==> b.messages[x].chat in a.chats
    ensures Safe(a, b)
  {
    if Resolved(a) {
      forall x | x in b.messages ensures b.messages[x].chat in b.chats {
        assert x in a.messages ==> a.messages[x].chat in a.chats;
      }
    }
  }

  lemma UpsertChatSafe(db: Tables, jid: Jid, group: bool, name: string)
    ensures Safe(db, UpsertChat(db, jid, group, name)) && jid in UpsertChat(db, jid, group, name).chats
  {
    ChatsOnly(db, UpsertChat(db, jid, group, name));
  }

  lemma LastMessageSafe(db: Tables, jid: Jid, id: Id, ts: int, preview: string)
    ensures Safe(db, UpdateChatLastMessage(db, jid, id, ts, preview))
  {
    ChatsOnly(db, UpdateChatLastMessage(db, jid, id, ts, preview));
  }

  lemma UnreadSafe(db: Tables, jid: Jid, count: int)
    ensures Safe(db, SetUnread(db, jid, count)) && Safe(db, IncrementUnread(db, jid))
  {
    ChatsOnly(db, SetUnread(db, jid, count));
    ChatsOnly(db, IncrementUnread(db, jid));
  }

  lemma LastTimestampSafe(db: Tables, jid: Jid, ts: int)
    ensures Safe(db, SetChatLastTimestamp(db, jid, ts))
  {
    ChatsOnly(db, SetChatLastTimestamp(db, jid, ts));
  }

  lemma NamesSafe(db: Tables, jid: Jid, c: Contact, name: string)
    ensures Safe(db, UpsertContact(db, jid, c)) && Safe(db, UpsertGroup(db, jid, name))
  {
    var byContact := UpsertContact(db, jid, c);
    assert byContact == db.(contacts := byContact.contacts);
    var byGroup := UpsertGroup(db, jid, name);
    assert byGroup == db.(groups := byGroup.groups);
  }

  lemma InsertSafe(db: Tables, id: Id, row: Message)
    requires row.chat in db.chats
    ensures Safe(db, InsertMessage(db, id, row)) && id in InsertMessage(db, id, row).messages
  {
    RowsOnly(db, InsertMessage(db, id, row));
  }

  lemma MediaSafe(db: Tables, id: Id, m: Media)
    ensures UpsertMedia(db, id, m).Some? <==> m.message in db.messages
    ensures UpsertMedia(db, id, m).Some? ==> Safe(db, UpsertMedia(db, id, m).value)
  {
    if m.message in db.messages {
      var db' := UpsertMedia(db, id, m).value;
      assert db' == db.(media := db'.media);
      forall x | x in db'.media && Resolved(db) ensures db'.media[x].message in db'.messages {
        assert x in db.media || x == id;
      }
    }
  }

  lemma DownloadedSafe(db: Tables, id: Id)
    ensures Safe(db, MarkMediaDownloaded(db, id))
  {
    var db' := MarkMediaDownloaded(db, id);
    assert db' == db.(media := db'.media);
    forall x | x in db'.media && Resolved(db) ensures db'.media[x].message in db'.messages {
      assert x in db.media && db'.media[x].message == db.media[x].message;
    }
  }

  lemma StatusSafe(db: Tables, ids: seq<Id>, status: string)
    ensures Safe(db, SetMessagesStatus(db, ids, status))
  {
    RowsOnly(db, SetMessagesStatus(db, ids, status));
  }

  lemma EditSafe(db: Tables, id: Id, text: string)
    ensures Safe(db, SetMessageEdited(db, id, text)) && Safe(db, SetMessageDeleted(db, id))
  {
    RowsOnly(db, SetMessageEdited(db, id, text));
    RowsOnly(db, SetMessageDeleted(db, id));
  }

  lemma ReactionSafe(db: Tables, id: Id, sender: Jid, emoji: Option<string>, chat: Jid, fromMe: bool, ts: int)
    ensures Safe(db, UpsertReaction(db, id, sender, emoji, chat, fromMe, ts))
  {
    var db' := UpsertReaction(db, id, sender, emoji, chat, fromMe, ts);
    assert db' == db.(reactions := db'.reactions);
    forall k | k in db'.reactions && Resolved(db) ensures k.0 in db'.messages {
      assert k in db.reactions || k == (id, sender);
    }
  }

  lemma ReceiptSafe(db: Tables, id: Id, user: Jid, kind: string, ts: int)
    ensures Safe(db, InsertReceipt(db, id, user, kind, ts))
  {
    var db' := InsertReceipt(db, id, user, kind, ts);
    assert db' == db.(receipts := db'.receipts);
    forall k | k in db'.receipts && Resolved(db) ensures k.0 in db'.messages {
      assert k in db.receipts || k == (id, user, kind);
    }
  }

  // ------------------------------------------------------------- whole operations

  lemma BookkeepingSafe(db: Tables, m: WaMessage)
    requires m.body.Content?
    ensures Safe(db, WithBookkeeping(db, m))
  {
    var db1 := UpdateChatLastMessage(db, m.chat, m.id, m.ts, Preview(m.body.text, m.body.kind));
    LastMessageSafe(db, m.chat, m.id, m.ts, Preview(m.body.text, m.body.kind));
    UnreadSafe(db1, m.chat, 0);
    SafeThen(db, db1, IncrementUnread(db1, m.chat));
  }

  lemma ContactSafe(db: Tables, m: WaMessage)
    ensures Safe(db, WithContact(db, m))
  {
    NamesSafe(db, if m.group then m.sender else m.chat, Contact("", "", m.push), "");
  }

  lemma MediaPartSafe(db: Tables, m: WaMessage)
    requires m.body.Content?
    ensures Safe(db, WithMedia(db, m))
  {
    if m.body.media.Some? {
      MediaSafe(db, m.id, m.body.media.value.(message := m.id));
    }
  }

  lemma ContentSafe(db: Tables, m: WaMessage)
    requires m.body.Content?
    ensures Safe(db, PersistContent(db, m))
  {
    var up := UpsertChat(db, m.chat, m.group, m.name);
    UpsertChatSafe(db, m.chat, m.group, m.name);
    var db1 := WithContact(up, m);
    ContactSafe(up, m);
    SafeThen(db, up, db1);
    var ins := InsertMessage(db1, m.id, RowOf(m));
    InsertSafe(db1, m.id, RowOf(m));
    SafeThen(db, db1, ins);
    var db2 := WithMedia(ins, m);
    MediaPartSafe(ins, m);
    SafeThen(db, ins, db2);
    BookkeepingSafe(db2, m);
    SafeThen(db, db2, WithBookkeeping(db2, m));
  }

  lemma MessageSafe(db: Tables, m: WaMessage)
    ensures Safe(db, PersistMessage(db, m))
  {
    if IsContent(m) {
      ContentSafe(db, m);
    } else if !Ignored(m) && m.body.React? {
      ReactionSafe(db, m.body.target, m.sender, m.body.emoji, m.chat, m.fromMe, m.ts);
    } else if !Ignored(m) && m.body.Revoke? {
      EditSafe(db, m.body.target, "");
    } else if !Ignored(m) && m.body.Edit? {
      EditSafe(db, m.body.target, m.body.newText);
    }
  }

  lemma {:induction false} BatchSafe(db: Tables, batch: seq<WaMessage>)
    ensures Safe(db, PersistMessages(db, batch))
    decreases |batch|
  {
    if batch != [] {
      MessageSafe(db, batch[0]);
      BatchSafe(PersistMessage(db, batch[0]), batch[1..]);
      SafeThen(db, PersistMessage(db, batch[0]), PersistMessages(db, batch));
    }
  }

  lemma ConversationSafe(db: Tables, c: Conversation)
    ensures Safe(db, PersistConversation(db, c))
  {
    if c.chat != "" {
      var db0 := UpsertChat(db, c.chat, c.group, c.name);
      UpsertChatSafe(db, c.chat, c.group, c.name);
      var db1 := PersistMessages(db0, c.messages);
      BatchSafe(db0, c.messages);
      SafeThen(db, db0, db1);
      var db2 := if c.name != "" then UpsertChat(db1, c.chat, c.group, c.name) else db1;
      UpsertChatSafe(db1, c.chat, c.group, c.name);
      SafeThen(db, db1, db2);
      var db3 := if c.lastTs > 0 then SetChatLastTimestamp(db2, c.chat, c.lastTs * 1000) else db2;
      LastTimestampSafe(db2, c.chat, c.lastTs * 1000);
      SafeThen(db, db2, db3);
      UnreadSafe(db3, c.chat, c.unread);
      SafeThen(db, db3, SetUnread(db3, c.chat, c.unread));
    }
  }

  /** The statements that any other work of the daemon may execute at any moment; a history
      conversation is one transaction. */
  datatype Statement =
    | ChatStatement(jid: Jid, group: bool, name: string)
    | LastStatement(jid: Jid, id: Id, ts: int, preview: string)
    | TimeStatement(jid: Jid, ts: int)
    | IncomingStatement(jid: Jid)
    | UnreadStatement(jid: Jid, count: int)
    | ContactStatement(jid: Jid, contact: Contact)
    | GroupStatement(jid: Jid, name: string)
    | InsertStatement(id: Id, row: Message)
    | MediaStatement(id: Id, media: Media)
    | DownloadedStatement(id: Id)
    | ReceiptStatement(id: Id, user: Jid, kind: string, ts: int)
    | StatusStatement(ids: seq<Id>, status: string)
    | EditStatement(id: Id, text: string)
    | RevokeStatement(id: Id)
    | ReactionStatement(id: Id, user: Jid, emoji: Option<string>, chat: Jid, fromMe: bool, ts: int)
    | History(c: Conversation)

  /** None is the error of a foreign key: the row refers to one that does not exist. */
  function Do(db: Tables, s: Statement): Option<Tables> {
    match s
    case ChatStatement(jid, group, name) => Some(UpsertChat(db, jid, group, name))
    case LastStatement(jid, id, ts, preview) => Some(UpdateChatLastMessage(db, jid, id, ts, preview))
    case TimeStatement(jid, ts) => Some(SetChatLastTimestamp(db, jid, ts))
    case IncomingStatement(jid) => Some(IncrementUnread(db, jid))
    case UnreadStatement(jid, count) => Some(SetUnread(db, jid, count))
    case ContactStatement(jid, contact) => Some(UpsertContact(db, jid, contact))
    case GroupStatement(jid, name) => Some(UpsertGroup(db, jid, name))
    case InsertStatement(id, row) =>
      if id !in db.messages && row.chat !in db.chats then None else Some(InsertMessage(db, id, row))
    case MediaStatement(id, media) => UpsertMedia(db, id, media)
    case DownloadedStatement(id) => Some(MarkMediaDownloaded(db, id))
    case ReceiptStatement(id, user, kind, ts) => Some(InsertReceipt(db, id, user, kind, ts))
    case StatusStatement(ids, status) => Some(SetMessagesStatus(db, ids, status))
    case EditStatement(id, text) => Some(SetMessageEdited(db, id, text))
    case RevokeStatement(id) => Some(SetMessageDeleted(db, id))
    case ReactionStatement(id, user, emoji, chat, fromMe, ts) => Some(UpsertReaction(db, id, user, emoji, chat, fromMe, ts))
    case History(c) => Some(PersistConversation(db, c))
  }

  /** A failing statement changes nothing. */
  function After(db: Tables, s: Statement): Tables { match Do(db, s) case Some(d) => d case None => db }

  /** What each kind of statement is there for. */
  lemma StatementActs(db: Tables, s: Statement)
    ensures var db' := After(db, s);
      && (s.ChatStatement? ==> s.jid in db'.chats && (s.name != "" ==> db'.chats[s.jid].name == s.name))
      && (s.LastStatement? && s.jid in db.chats && (db.chats[s.jid].lastTs.None? || s.ts >= db.chats[s.jid].lastTs.value) ==>
            s.jid in db'.chats && db'.chats[s.jid].lastId == Some(s.id) && db'.chats[s.jid].lastTs == Some(s.ts))
      && (s.TimeStatement? && s.jid in db.chats ==>
            s.jid in db'.chats && db'.chats[s.jid].lastTs.Some? && db'.chats[s.jid].lastTs.value >= s.ts)
      && (s.IncomingStatement? && s.jid in db.chats ==> s.jid in db'.chats && db'.chats[s.jid].unread == db.chats[s.jid].unread + 1)
      && (s.UnreadStatement? && s.jid in db.chats && s.count >= 0 ==> s.jid in db'.chats && db'.chats[s.jid].unread == s.count)
  {
  }

  lemma RowStatementActs(db: Tables, s: Statement)
    ensures var db' := After(db, s);
      && (s.InsertStatement? && s.id !in db.messages && s.row.chat in db.chats ==> s.id in db'.messages && db'.messages[s.id] == s.row)
      && (s.EditStatement? && s.id in db.messages ==> s.id in db'.messages && db'.messages[s.id].edited)
      && (s.RevokeStatement? && s.id in db.messages ==> s.id in db'.messages && db'.messages[s.id].deleted)
      && (s.StatusStatement? ==> forall x :: x in s.ids && x in db.messages && db.messages[x].status != "read" ==>
            x in db'.messages && db'.messages[x].status == s.status)
      && (s.MediaStatement? && s.media.message in db.messages ==> s.id in db'.media && db'.media[s.id].message == s.media.message)
      && (s.DownloadedStatement? ==> forall x :: x in db.media && db.media[x].message == s.id ==>
            x in db'.media && db'.media[x].downloaded)
  {
  }

  lemma ChatStatementSafe(db: Tables, s: Statement)
    requires s.ChatStatement? || s.LastStatement? || s.TimeStatement? || s.IncomingStatement? || s.UnreadStatement?
    ensures Safe(db, After(db, s)) && Do(db, s).Some?
  {
    match s
    case ChatStatement(jid, group, name) => UpsertChatSafe(db, jid, group, name);
    case LastStatement(jid, id, ts, preview) => LastMessageSafe(db, jid, id, ts, preview);
    case TimeStatement(jid, ts) => LastTimestampSafe(db, jid, ts);
    case IncomingStatement(jid) => UnreadSafe(db, jid, 0);
    case UnreadStatement(jid, count) => UnreadSafe(db, jid, count);
  }

  lemma RowStatementSafe(db: Tables, id: Id, row: Message)
    ensures Safe(db, After(db, InsertStatement(id, row)))
  {
    if id !in db.messages && row.chat in db.chats {
      InsertSafe(db, id, row);
    }
  }

  /** Every statement keeps all rows and keeps references resolved, and it fails exactly when
      it would add a row that refers to a missing one. */
  lemma StatementSafe(db: Tables, s: Statement)
    ensures Safe(db, After(db, s))
    ensures Do(db, s).None? <==>
      || (s.InsertStatement? && s.id !in db.messages && s.row.chat !in db.chats)
      || (s.MediaStatement? && s.media.message !in db.messages)
  {
    match s
    case ContactStatement(jid, contact) => NamesSafe(db, jid, contact, "");
    case GroupStatement(jid, name) => NamesSafe(db, jid, Contact("", "", ""), name);
    case InsertStatement(id, row) => RowStatementSafe(db, id, row);
    case MediaStatement(id, media) => MediaSafe(db, id, media);
    case DownloadedStatement(id) => DownloadedSafe(db, id);
    case ReceiptStatement(id, user, kind, ts) => ReceiptSafe(db, id, user, kind, ts);
    case StatusStatement(ids, status) => StatusSafe(db, ids, status);
    case EditStatement(id, text) => EditSafe(db, id, text);
    case RevokeStatement(id) => EditSafe(db, id, "");
    case ReactionStatement(id, user, emoji, chat, fromMe, ts) => ReactionSafe(db, id, user, emoji, chat, fromMe, ts);
    case History(c) => ConversationSafe(db, c);
    case _ => ChatStatementSafe(db, s);
  }
}
