/**
 What one event stores, column by column and in the event's own terms: which columns
 of which rows change, to what, and that nothing else does.
 */
module StoredColumns {
  import opened Wrappers
  import opened Tables
  import opened Persister
  import opened PersistFacts
  import opened Writers

  /** A map with another value at one key, at most. */
  ghost predicate SameElsewhere<K(!new), V>(a: map<K, V>, b: map<K, V>, key: K) {
    forall k :: k != key ==> (k in b <==> k in a) && (k in a ==> b[k] == a[k])
  }

  /** The chat row as it was, an empty one if there was none. */
  function KnownChat(db: Tables, jid: Jid): Chat { if jid in db.chats then db.chats[jid] else Chat(false, "", None, None, "", 0) }

  predicate Named(m: WaMessage) { m.id != "" && m.chat != "" }

  // ------------------------------------------------------------- a content message

  /** A new row holds what the message says; it starts unedited, undeleted and, if ours, sent. */
  lemma NewRowColumns(db: Tables, m: WaMessage)
    requires Named(m) && m.body.Content? && m.id !in db.messages
    ensures var db' := PersistMessage(db, m);
      && m.id in db'.messages && SameElsewhere(db.messages, db'.messages, m.id)
      && var row := db'.messages[m.id];
      && row.chat == m.chat && row.sender == m.sender && row.fromMe == m.fromMe && row.ts == m.ts
      && row.kind == m.body.kind && row.quoted == m.body.quoted && row.hasMedia == m.body.media.Some?
      && (m.body.text == "" ==> row.text.None?) && (m.body.text != "" ==> row.text == Some(m.body.text))
      && row.status == (if m.fromMe then "sent" else "")
      && !row.edited && !row.deleted
  {
    ContentParts(db, m);
  }

  /** A message whose id is stored leaves every message row as it is. */
  lemma StoredRowStays(db: Tables, m: WaMessage)
    requires Named(m) && m.body.Content? && m.id in db.messages
    ensures PersistMessage(db, m).messages == db.messages
  {
    ContentParts(db, m);
  }

  /** A content message renames its chat at most to a name that is not empty, never turns a group
      into a dm, and books itself only when it is new: as the last message unless an older
      one, and as unread when it came in. No other chat row changes. */
  lemma ChatColumns(db: Tables, m: WaMessage)
    requires Named(m) && m.body.Content?
    ensures var db' := PersistMessage(db, m);
      && m.chat in db'.chats && SameElsewhere(db.chats, db'.chats, m.chat)
      && var was := KnownChat(db, m.chat);
      var row := db'.chats[m.chat];
      var isNew := m.id !in db.messages;
      && row.group == (m.group || was.group)
      && row.name == (if m.name == "" then was.name else m.name)
      && row.unread == was.unread + (if isNew && !m.fromMe then 1 else 0)
      && (isNew && (was.lastTs.None? || m.ts >= was.lastTs.value) ==>
            && row.lastId == Some(m.id) && row.lastTs == Some(m.ts)
            && row.preview == (if m.body.text != "" then m.body.text else "[" + m.body.kind + "]"))
      && (!isNew || (was.lastTs.Some? && m.ts < was.lastTs.value) ==>
            row.lastId == was.lastId && row.lastTs == was.lastTs && row.preview == was.preview)
  {
    ContentChats(db, m);
  }

  lemma ContentContacts(db: Tables, m: WaMessage)
    requires m.body.Content?
    ensures PersistContent(db, m).contacts == WithContact(UpsertChat(db, m.chat, m.group, m.name), m).contacts
  {
    var up := UpsertChat(db, m.chat, m.group, m.name);
    var ins := InsertMessage(WithContact(up, m), m.id, RowOf(m));
    WithMediaFrame(ins, m);
    WithContactFrame(up, m);
    BookkeepingFrame(WithMedia(ins, m), m);
  }

  /** The push name of an incoming message goes to its sender in a group and to the chat in a
      dm; saved names stay, and no other contact changes. */
  lemma PushNameGoesTo(db: Tables, m: WaMessage, to: Jid)
    requires Named(m) && m.body.Content?
    requires (m.group ==> to == m.sender) && (!m.group ==> to == m.chat)
    ensures var db' := PersistMessage(db, m);
      && SameElsewhere(db.contacts, db'.contacts, to)
      && (m.fromMe || to == "" || m.push == "" ==> db'.contacts == db.contacts)
      && (!m.fromMe && to != "" && m.push != "" ==>
            && to in db'.contacts && db'.contacts[to].pushName == m.push
            && db'.contacts[to].fullName == (if to in db.contacts then db.contacts[to].fullName else "")
            && db'.contacts[to].firstName == (if to in db.contacts then db.contacts[to].firstName else ""))
  {
    ContentContacts(db, m);
  }

  lemma ContentMedia(db: Tables, m: WaMessage) returns (ins: Tables)
    requires m.body.Content?
    ensures m.id in ins.messages && ins.media == db.media
    ensures PersistContent(db, m).media == WithMedia(ins, m).media
  {
    var db1 := WithContact(UpsertChat(db, m.chat, m.group, m.name), m);
    ins := InsertMessage(db1, m.id, RowOf(m));
    InsertKeepsMedia(db1, m);
    BookingKeepsMedia(WithMedia(ins, m), m);
  }

  lemma InsertKeepsMedia(db: Tables, m: WaMessage)
    requires m.body.Content?
    ensures var ins := InsertMessage(db, m.id, RowOf(m)); m.id in ins.messages && ins.media == db.media
  {
  }

  lemma BookingKeepsMedia(db: Tables, m: WaMessage)
    requires m.body.Content?
    ensures WithBookkeeping(db, m).media == db.media
  {
    var db1 := UpdateChatLastMessage(db, m.chat, m.id, m.ts, Preview(m.body.text, m.body.kind));
    LastKeepsMedia(db, m.chat, m.id, m.ts, Preview(m.body.text, m.body.kind));
    CountKeepsMedia(db1, m.chat);
  }

  lemma LastKeepsMedia(db: Tables, jid: Jid, id: Id, ts: int, preview: string)
    ensures UpdateChatLastMessage(db, jid, id, ts, preview).media == db.media
  {
  }

  lemma CountKeepsMedia(db: Tables, jid: Jid)
    ensures IncrementUnread(db, jid).media == db.media
  {
  }

  /** Media of a message are stored under its id, also when the row was there before; what is
      known and not said again stays, and a download is never forgotten. */
  lemma MediaColumns(db: Tables, m: WaMessage)
    requires Named(m) && m.body.Content?
    ensures var db' := PersistMessage(db, m);
      && (m.body.media.None? ==> db'.media == db.media)
      && (m.body.media.Some? ==>
            && m.id in db'.media && SameElsewhere(db.media, db'.media, m.id)
            && var row := db'.media[m.id]; var given := m.body.media.value; var known := m.id in db.media;
            && row.message == m.id
            && row.kind == (if given.kind == "" && known then db.media[m.id].kind else given.kind)
            && row.size == (if given.size <= 0 && known then db.media[m.id].size else given.size)
            && row.downloaded == (known && db.media[m.id].downloaded))
  {
    var ins := ContentMedia(db, m);
  }

  // ------------------------------------------------- edits, revokes and reactions

  /** An edit marks its target edited and undeletes it; an empty text keeps the known one. */
  lemma EditColumns(db: Tables, m: WaMessage)
    requires Named(m) && m.body.Edit? && m.body.target in db.messages && m.body.target != ""
    ensures var x := m.body.target; var db' := PersistMessage(db, m); var was := db.messages[x];
      && db' == db.(messages := db'.messages) && x in db'.messages && SameElsewhere(db.messages, db'.messages, x)
      && var row := db'.messages[x];
      && row.edited && !row.deleted
      && row.text == (if m.body.newText == "" then was.text else Some(m.body.newText))
      && row == was.(edited := row.edited, deleted := row.deleted, text := row.text)
  {
  }

  /** A revoke marks its target deleted and takes its text. */
  lemma RevokeColumns(db: Tables, m: WaMessage)
    requires Named(m) && m.body.Revoke? && m.body.target in db.messages && m.body.target != ""
    ensures var x := m.body.target; var db' := PersistMessage(db, m); var was := db.messages[x];
      && db' == db.(messages := db'.messages) && x in db'.messages && SameElsewhere(db.messages, db'.messages, x)
      && var row := db'.messages[x];
      && row.deleted && row.text.None? && row == was.(deleted := row.deleted, text := row.text)
  {
  }

  /** A reaction is kept under its target and its sender; a blank one removes that entry. */
  lemma ReactionColumns(db: Tables, m: WaMessage)
    requires Named(m) && m.body.React? && m.body.target != "" && m.sender != ""
    ensures var key := (m.body.target, m.sender); var db' := PersistMessage(db, m);
      && db' == db.(reactions := db'.reactions) && SameElsewhere(db.reactions, db'.reactions, key)
      && (m.body.emoji.None? ==> key !in db'.reactions)
      && (m.body.emoji.Some? && m.body.target !in db.messages ==> db' == db)
      && (m.body.emoji.Some? && m.body.target in db.messages ==>
            && key in db'.reactions && db'.reactions[key].emoji == m.body.emoji.value
            && db'.reactions[key].chat == m.chat && db'.reactions[key].fromMe == m.fromMe && db'.reactions[key].ts == m.ts)
  {
  }

  /** Without an id, a chat or a stored target, and for any other protocol message, nothing
      happens. */
  lemma NothingStored(db: Tables, m: WaMessage)
    requires m.id == "" || m.chat == "" || m.body.OtherProtocol? ||
      ((m.body.Edit? || m.body.Revoke?) && (m.body.target == "" || m.body.target !in db.messages)) ||
      (m.body.React? && (m.body.target == "" || m.sender == ""))
    ensures PersistMessage(db, m) == db
  {
  }

  // ---------------------------------------------------------------- published events

  /** A new message is announced with its id and chat; its chat, as stored now, follows when
      the message became its last one or came in. */
  lemma NewMessageEvents(db: Tables, m: WaMessage)
    requires Named(m) && m.body.Content? && m.id !in db.messages
    ensures var db' := PersistMessage(db, m); var events := EventsOf(db, db', m);
      && m.chat in db'.chats && events != [] && events[0] == MessageReceived(m.id, m.chat)
      && (!m.fromMe || db'.chats[m.chat].lastId == Some(m.id) ==>
            events[1..] == [ChatUpdated(m.chat, db'.chats[m.chat].unread, db'.chats[m.chat].lastTs)])
      && (m.fromMe && db'.chats[m.chat].lastId != Some(m.id) ==> |events| == 1)
  {
    ContentChats(db, m);
  }

  /** A revoke is told with the deleted flag, an edit without it; nothing else is told. */
  lemma OtherEvents(db: Tables, after: Tables, m: WaMessage)
    requires !(Named(m) && m.body.Content? && m.id !in db.messages)
    ensures var events := EventsOf(db, after, m); var told := Named(m) && (m.body.Revoke? || m.body.Edit?) && m.body.target != "";
      && |events| == (if told then 1 else 0)
      && (told && m.body.Revoke? ==> events[0] == MessageUpdated(m.body.target, m.chat, true))
      && (told && m.body.Edit? ==> events[0] == MessageUpdated(m.body.target, m.chat, false))
  {
  }

  // ------------------------------------------------------------- our own messages

  ghost predicate IsSentRow(row: Message, s: Sent) {
    && row.chat == s.chat && row.sender == s.self && row.fromMe && row.ts == s.ts
    && row.text == (if s.text == "" then None else Some(s.text)) && row.quoted == s.quoted
    && row.status == "sent" && !row.edited && !row.deleted
  }

  /** The chat row of a sent message, the books included if `booked`. */
  ghost predicate IsSentChat(before: Tables, after: Tables, s: Sent, booked: bool, preview: string) {
    && s.chat in after.chats && SameElsewhere(before.chats, after.chats, s.chat)
    && var was := KnownChat(before, s.chat);
    var row := after.chats[s.chat];
    && row.group == (s.group || was.group)
    && row.name == (if s.name == "" then was.name else s.name)
    && row.unread == was.unread
    && (if booked && (was.lastTs.None? || s.ts >= was.lastTs.value)
        then row.lastId == Some(s.id) && row.lastTs == Some(s.ts) && row.preview == preview
        else row.lastId == was.lastId && row.lastTs == was.lastTs && row.preview == was.preview)
  }

  /** A sent media message: a new row is ours and sent, its file is there already, and its chat is
      booked only with it. */
  lemma SentMediaColumns(db: Tables, s: Sent)
    ensures var db' := FinalizeSentMedia(db, s);
      && (s.id in db.messages ==> db'.messages == db.messages)
      && (s.id !in db.messages ==>
            && s.id in db'.messages && SameElsewhere(db.messages, db'.messages, s.id)
            && IsSentRow(db'.messages[s.id], s) && db'.messages[s.id].hasMedia && db'.messages[s.id].kind == s.kind)
      && IsSentChat(db, db', s, s.id !in db.messages, if s.text != "" then s.text else "[" + s.kind + "]")
  {
    SentMediaParts(db, s);
  }

  lemma MarkedDownloaded(db: Tables, id: Id, given: Media)
    requires id in db.messages && given.message == id
    ensures UpsertMedia(db, id, given).Some?
    ensures var db' := MarkMediaDownloaded(UpsertMedia(db, id, given).value, id);
      id in db'.media && db'.media[id].message == id && db'.media[id].downloaded
  {
  }

  lemma SentMediaIsDownloaded(db: Tables, s: Sent)
    ensures var db' := FinalizeSentMedia(db, s);
      s.id in db'.media && db'.media[s.id].message == s.id && db'.media[s.id].downloaded
  {
    var db1 := SentInserted(db, s, true);
    MarkedDownloaded(db1, s.id, Media(s.id, s.kind, 0, false));
    var db3 := MarkMediaDownloaded(UpsertMedia(db1, s.id, Media(s.id, s.kind, 0, false)).value, s.id);
    assert FinalizeSentMedia(db, s).media == db3.media;
  }

  /** A sent text is booked whether or not its row is new; its preview is the text itself. */
  lemma SentTextColumns(db: Tables, s: Sent)
    ensures var db' := StoreOutgoing(db, s);
      && (s.id in db.messages ==> db'.messages == db.messages)
      && (s.id !in db.messages ==>
            && s.id in db'.messages && SameElsewhere(db.messages, db'.messages, s.id)
            && IsSentRow(db'.messages[s.id], s) && !db'.messages[s.id].hasMedia && db'.messages[s.id].kind == "text")
  {
    SentTextParts(db, s);
  }

  lemma SentTextBooks(db: Tables, s: Sent)
    ensures IsSentChat(db, StoreOutgoing(db, s), s, true, s.text)
  {
    SentTextParts(db, s);
    var row := LastMessageRow(UpsertedRow(ChatRow(db, s.chat), s.group, s.name), s.id, s.ts, s.text);
    assert StoreOutgoing(db, s).chats == db.chats[s.chat := row];
  }

  // ------------------------------------------------------------ contacts and groups

  lemma UpsertedContact(db: Tables, jid: Jid, c: Contact, x: Jid)
    ensures var db' := UpsertContact(db, jid, c);
      && db' == db.(contacts := db'.contacts)
      && (x != jid ==> (x in db'.contacts <==> x in db.contacts) && (x in db.contacts ==> db'.contacts[x] == db.contacts[x]))
      && (x == jid ==> x in db'.contacts && Merged(KnownContact(db, x), c, db'.contacts[x]))
  {
  }

  function KnownContact(db: Tables, x: Jid): Contact { if x in db.contacts then db.contacts[x] else Contact("", "", "") }

  /** What the new contact leaves empty stays. */
  predicate Merged(was: Contact, given: Contact, row: Contact) {
    && row.fullName == (if given.fullName == "" then was.fullName else given.fullName)
    && row.firstName == (if given.firstName == "" then was.firstName else given.firstName)
    && row.pushName == (if given.pushName == "" then was.pushName else given.pushName)
  }

  /** A contact event fills in saved names, under the phone number too; what it leaves empty and
      every push name stay. */
  lemma ContactColumns(db: Tables, jid: Jid, pn: Jid, c: Contact, x: Jid)
    requires jid != ""
    ensures var db' := PersistContact(db, jid, pn, c);
      && db' == db.(contacts := db'.contacts)
      && (x == jid || (x == pn && pn != "") ==>
            x in db'.contacts && Merged(KnownContact(db, x), c.(pushName := ""), db'.contacts[x]))
      && (x != jid && (x != pn || pn == "") ==>
            (x in db'.contacts <==> x in db.contacts) && (x in db.contacts ==> db'.contacts[x] == db.contacts[x]))
  {
    var given := c.(pushName := "");
    UpsertedContact(db, jid, given, x);
    if pn != "" && pn != jid {
      UpsertedContact(UpsertContact(db, jid, given), pn, given, x);
    }
  }

  lemma UpsertedGroup(db: Tables, jid: Jid, name: string)
    ensures var db' := UpsertGroup(db, jid, name);
      && db' == db.(groups := db'.groups)
      && jid in db'.groups && SameElsewhere(db.groups, db'.groups, jid)
      && db'.groups[jid] == (if name == "" && jid in db.groups then db.groups[jid] else name)
  {
  }

  lemma NamedGroupChat(db: Tables, jid: Jid, name: string)
    requires name != ""
    ensures var db' := UpsertChat(db, jid, true, name);
      && db' == db.(chats := db'.chats) && SameElsewhere(db.chats, db'.chats, jid)
      && jid in db'.chats && db'.chats[jid].name == name && db'.chats[jid].group
  {
  }

  /** A group event stores the subject and names the chat after it, unless it is empty. */
  lemma GroupColumns(db: Tables, jid: Jid, name: string)
    requires jid != ""
    ensures var db' := PersistGroup(db, jid, name);
      && db' == db.(groups := db'.groups, chats := db'.chats)
      && jid in db'.groups && SameElsewhere(db.groups, db'.groups, jid) && SameElsewhere(db.chats, db'.chats, jid)
      && db'.groups[jid] == (if name == "" && jid in db.groups then db.groups[jid] else name)
      && (name == "" ==> db'.chats == db.chats)
      && (name != "" ==> jid in db'.chats && db'.chats[jid].name == name && db'.chats[jid].group)
  {
    UpsertedGroup(db, jid, name);
    if name != "" {
      NamedGroupChat(UpsertGroup(db, jid, name), jid, name);
    }
  }
}
