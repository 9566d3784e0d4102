/**
 The cae_* tables as maps, and each repository statement as the table change its
 SQL makes. Columns no property below speaks about (pins, mute, update times,
 participants, file names) are left out.
 */
module Tables {
  import opened Wrappers

  type Jid = string
  type Id = string

  const DELIVERED: string := "delivered"
  const READ: string := "read"
  const SENT: string := "sent"

  /** `lastTs` and `lastId` are None where the column is NULL. */
  datatype Chat = Chat(group: bool, name: string, lastId: Option<Id>, lastTs: Option<int>, preview: string, unread: int)

  datatype Message = Message(
    chat: Jid, sender: Jid, fromMe: bool, ts: int, kind: string, text: Option<string>, quoted: string,
    edited: bool, deleted: bool, status: string, hasMedia: bool)

  datatype Reaction = Reaction(chat: Jid, emoji: string, fromMe: bool, ts: int)

  datatype Contact = Contact(firstName: string, fullName: string, pushName: string)

  datatype Media = Media(message: Id, kind: string, size: int, downloaded: bool)

  /** Receipts are keyed by message, user and type; reactions by message and sender. */
  datatype Tables = Tables(
    chats: map<Jid, Chat>,
    contacts: map<Jid, Contact>,
    groups: map<Jid, string>,
    messages: map<Id, Message>,
    receipts: map<(Id, Jid, string), int>,
    reactions: map<(Id, Jid), Reaction>,
    media: map<Id, Media>)

  const EMPTY: Tables := Tables(map[], map[], map[], map[], map[], map[], map[])

  function OrElse(value: string, known: string): string { if value != "" then value else known }

  // -------------------------------------------------------------------- cae_chats

  function PutChat(db: Tables, jid: Jid, row: Chat): Tables { db.(chats := db.chats[jid := row]) }

  function ChatRow(db: Tables, jid: Jid): Option<Chat> { if jid in db.chats then Some(db.chats[jid]) else None }

  /** An empty name never overwrites a known one, and a group never becomes a dm. */
  function UpsertedRow(known: Option<Chat>, group: bool, name: string): Chat {
    match known
    case Some(row) => row.(group := group || row.group, name := OrElse(name, row.name))
    case None => Chat(group, name, None, None, "", 0)
  }

  function UpsertChat(db: Tables, jid: Jid, group: bool, name: string): Tables {
    PutChat(db, jid, UpsertedRow(ChatRow(db, jid), group, name))
  }

  predicate NotOlder(ts: int, known: Option<int>) { known.None? || ts >= known.value }

  function LastMessageRow(row: Chat, id: Id, ts: int, preview: string): Chat {
    if NotOlder(ts, row.lastTs) then row.(lastId := Some(id), lastTs := Some(ts), preview := preview) else row
  }

  function UpdateChatLastMessage(db: Tables, jid: Jid, id: Id, ts: int, preview: string): Tables {
    if jid in db.chats then PutChat(db, jid, LastMessageRow(db.chats[jid], id, ts, preview)) else db
  }

  function LastTsRow(row: Chat, ts: int): Chat { if NotOlder(ts, row.lastTs) then row.(lastTs := Some(ts)) else row }

  function SetChatLastTimestamp(db: Tables, jid: Jid, ts: int): Tables {
    if jid in db.chats then PutChat(db, jid, LastTsRow(db.chats[jid], ts)) else db
  }

  function IncrementUnread(db: Tables, jid: Jid): Tables {
    if jid in db.chats then PutChat(db, jid, db.chats[jid].(unread := db.chats[jid].unread + 1)) else db
  }

  function UnreadRow(row: Chat, count: int): Chat { row.(unread := if count < 0 then 0 else count) }

  function SetUnread(db: Tables, jid: Jid, count: int): Tables {
    if jid in db.chats then PutChat(db, jid, UnreadRow(db.chats[jid], count)) else db
  }

  lemma PutChatTwice(db: Tables, jid: Jid, first: Chat, second: Chat)
    ensures PutChat(PutChat(db, jid, first), jid, second) == PutChat(db, jid, second)
  {
    assert db.chats[jid := first][jid := second] == db.chats[jid := second];
  }

  function MarkChatRead(db: Tables, jid: Jid): Tables { SetUnread(db, jid, 0) }

  // ------------------------------------------------------ cae_contacts, cae_groups

  function UpsertContact(db: Tables, jid: Jid, c: Contact): Tables {
    var row :=
      if jid in db.contacts then
        var known := db.contacts[jid];
        Contact(OrElse(c.firstName, known.firstName), OrElse(c.fullName, known.fullName), OrElse(c.pushName, known.pushName))
      else c;
    db.(contacts := db.contacts[jid := row])
  }

  function UpsertGroup(db: Tables, jid: Jid, name: string): Tables {
    db.(groups := db.groups[jid := if jid in db.groups then OrElse(name, db.groups[jid]) else name])
  }

  // ----------------------------------------------------------------- cae_messages

  /** ON CONFLICT DO NOTHING. */
  function InsertMessage(db: Tables, id: Id, m: Message): Tables {
    if id in db.messages then db else db.(messages := db.messages[id := m])
  }

  function PutMessage(db: Tables, id: Id, row: Message): Tables { db.(messages := db.messages[id := row]) }

  function Edited(m: Message, text: string): Message {
    m.(edited := true, deleted := false, text := if text != "" then Some(text) else m.text)
  }

  function Deleted(m: Message): Message { m.(deleted := true, text := None) }

  function SetMessageEdited(db: Tables, id: Id, text: string): Tables {
    if id in db.messages then PutMessage(db, id, Edited(db.messages[id], text)) else db
  }

  function SetMessageDeleted(db: Tables, id: Id): Tables {
    if id in db.messages then PutMessage(db, id, Deleted(db.messages[id])) else db
  }

  /** "delivered" never replaces "read"; every other status is written as it is. */
  function NewStatus(known: string, status: string): string {
    if status == DELIVERED && known == READ then known else status
  }

  function SetMessagesStatus(db: Tables, ids: seq<Id>, status: string): Tables {
    db.(messages := map id | id in db.messages ::
      if id in ids then db.messages[id].(status := NewStatus(db.messages[id].status, status)) else db.messages[id])
  }

  // -------------------------------------------------- rows that refer to a message

  function InsertReceipt(db: Tables, id: Id, user: Jid, kind: string, ts: int): Tables {
    if id == "" || user == "" || kind == "" || id !in db.messages then db
    else db.(receipts := db.receipts[(id, user, kind) := ts])
  }

  function DeleteReaction(db: Tables, id: Id, sender: Jid): Tables { db.(reactions := db.reactions - {(id, sender)}) }

  /** `emoji` is None when the text is blank, which removes the reaction. */
  function UpsertReaction(db: Tables, id: Id, sender: Jid, emoji: Option<string>, chat: Jid, fromMe: bool, ts: int): Tables {
    if id == "" || sender == "" then db
    else if emoji.None? then DeleteReaction(db, id, sender)
    else if id !in db.messages then db
    else db.(reactions := db.reactions[(id, sender) := Reaction(chat, emoji.value, fromMe, ts)])
  }

  /** None is the foreign-key error of a media row whose message does not exist. */
  function UpsertMedia(db: Tables, id: Id, m: Media): Option<Tables> {
    if m.message !in db.messages then None
    else
      var row :=
        if id in db.media then
          var known := db.media[id];
          Media(m.message, OrElse(m.kind, known.kind), if m.size > 0 then m.size else known.size, known.downloaded)
        else Media(m.message, m.kind, m.size, false);
      Some(db.(media := db.media[id := row]))
  }

  function MarkMediaDownloaded(db: Tables, message: Id): Tables {
    db.(media := map id | id in db.media ::
      if db.media[id].message == message then db.media[id].(downloaded := true) else db.media[id])
  }

  /** Every reference between rows is resolved. */
  predicate Resolved(db: Tables) {
    && (forall id :: id in db.messages ==> db.messages[id].chat in db.chats)
    && (forall id :: id in db.media ==> db.media[id].message in db.messages)
    && (forall k :: k in db.reactions ==> k.0 in db.messages)
    && (forall k :: k in db.receipts ==> k.0 in db.messages)
  }
}
