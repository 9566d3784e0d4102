/**
 What one persisted message does to each table separately.
 */
module PersistFacts {
  import opened Wrappers
  import opened Tables
  import opened Persister

  predicate IsContent(m: WaMessage) { !Ignored(m) && m.body.Content? }

  /** The row after the bookkeeping of a newly stored message. */
  function BookedRow(row: Chat, m: WaMessage): Chat
    requires m.body.Content?
  {
    var last := LastMessageRow(row, m.id, m.ts, Preview(m.body.text, m.body.kind));
    if m.fromMe then last else last.(unread := last.unread + 1)
  }

  function ContentRow(db: Tables, m: WaMessage): Chat
    requires m.body.Content?
  {
    var row := UpsertedRow(ChatRow(db, m.chat), m.group, m.name);
    if m.id in db.messages then row else BookedRow(row, m)
  }

  lemma WithContactFrame(db: Tables, m: WaMessage)
    ensures WithContact(db, m) == db.(contacts := WithContact(db, m).contacts)
  {
  }

  lemma WithMediaFrame(db: Tables, m: WaMessage)
    requires m.body.Content?
    ensures WithMedia(db, m) == db.(media := WithMedia(db, m).media)
  {
  }

  lemma BookkeepingFrame(db: Tables, m: WaMessage)
    requires m.body.Content? && m.chat in db.chats
    ensures WithBookkeeping(db, m) == PutChat(db, m.chat, BookedRow(db.chats[m.chat], m))
  {
    var last := LastMessageRow(db.chats[m.chat], m.id, m.ts, Preview(m.body.text, m.body.kind));
    assert PutChat(db, m.chat, last).chats[m.chat] == last;
    PutChatTwice(db, m.chat, last, last.(unread := last.unread + 1));
  }

  lemma ContentChats(db: Tables, m: WaMessage)
    requires m.body.Content?
    ensures PersistContent(db, m).chats == PutChat(db, m.chat, ContentRow(db, m)).chats
  {
    var up := UpsertChat(db, m.chat, m.group, m.name);
    var db1 := WithContact(up, m);
    var ins := InsertMessage(db1, m.id, RowOf(m));
    var db2 := WithMedia(ins, m);
    WithContactFrame(up, m);
    WithMediaFrame(ins, m);
    assert db2.chats == up.chats;
    BookkeepingFrame(db2, m);
    PutChatTwice(db, m.chat, up.chats[m.chat], BookedRow(up.chats[m.chat], m));
  }

  lemma ContentParts(db: Tables, m: WaMessage)
    requires m.body.Content?
    ensures var db' := PersistContent(db, m);
      && db'.messages == InsertMessage(db, m.id, RowOf(m)).messages
      && db'.reactions == db.reactions && db'.receipts == db.receipts && db'.groups == db.groups
  {
    var up := UpsertChat(db, m.chat, m.group, m.name);
    var db1 := WithContact(up, m);
    var ins := InsertMessage(db1, m.id, RowOf(m));
    var db2 := WithMedia(ins, m);
    WithContactFrame(up, m);
    WithMediaFrame(ins, m);
    BookkeepingFrame(db2, m);
  }

  /** The message that an edit, revoke or reaction refers to. */
  function Target(m: WaMessage): Option<Id> {
    if Ignored(m) || m.body.Content? || m.body.OtherProtocol? || m.body.target == "" then None
    else if m.body.React? && m.sender == "" then None
    else Some(m.body.target)
  }

  function RowStep(row: Message, x: Id, m: WaMessage): Message {
    if Target(m) != Some(x) then row
    else if m.body.Revoke? then Deleted(row)
    else if m.body.Edit? then Edited(row, m.body.newText)
    else row
  }

  lemma RevokeParts(db: Tables, m: WaMessage, x: Id)
    requires !Ignored(m) && m.body.Revoke?
    ensures var db' := PersistOther(db, m);
      && db' == db.(messages := db'.messages)
      && (x in db'.messages <==> x in db.messages)
      && (x in db.messages ==> db'.messages[x] == RowStep(db.messages[x], x, m))
  {
  }

  lemma EditParts(db: Tables, m: WaMessage, x: Id)
    requires !Ignored(m) && m.body.Edit?
    ensures var db' := PersistOther(db, m);
      && db' == db.(messages := db'.messages)
      && (x in db'.messages <==> x in db.messages)
      && (x in db.messages ==> db'.messages[x] == RowStep(db.messages[x], x, m))
  {
  }

  lemma ReactParts(db: Tables, m: WaMessage)
    requires !Ignored(m) && m.body.React?
    ensures PersistOther(db, m) == db.(reactions := PersistOther(db, m).reactions)
  {
  }

  /** A message that is no content touches at most the two tables it can refer into. */
  lemma OtherParts(db: Tables, m: WaMessage, x: Id)
    requires !Ignored(m) && !m.body.Content?
    ensures var db' := PersistOther(db, m);
      && db' == db.(messages := db'.messages, reactions := db'.reactions)
      && (x in db'.messages <==> x in db.messages)
      && (x in db.messages ==> db'.messages[x] == RowStep(db.messages[x], x, m))
  {
    if m.body.Revoke? {
      RevokeParts(db, m, x);
    } else if m.body.Edit? {
      EditParts(db, m, x);
    } else if m.body.React? {
      ReactParts(db, m);
    }
  }

  /** Message rows are never removed, and an insert adds exactly the row of a new content. */
  lemma MessageAfterOne(db: Tables, m: WaMessage, x: Id)
    ensures var db' := PersistMessage(db, m);
      && (x in db'.messages <==> x in db.messages || (IsContent(m) && m.id == x))
      && (x in db.messages ==> db'.messages[x] == RowStep(db.messages[x], x, m))
      && (x !in db.messages && IsContent(m) && m.id == x ==> db'.messages[x] == RowOf(m))
  {
    if IsContent(m) {
      ContentParts(db, m);
    } else if !Ignored(m) {
      OtherParts(db, m, x);
    }
  }

  lemma MessagesAfterOne(db: Tables, m: WaMessage)
    ensures var db' := PersistMessage(db, m);
      && (forall x :: x in db'.messages <==> x in db.messages || (IsContent(m) && m.id == x))
      && (forall x :: x in db.messages ==> db'.messages[x] == RowStep(db.messages[x], x, m))
      && (IsContent(m) && m.id !in db.messages ==> db'.messages[m.id] == RowOf(m))
  {
    var db' := PersistMessage(db, m);
    forall x
      ensures x in db'.messages <==> x in db.messages || (IsContent(m) && m.id == x)
      ensures x in db.messages ==> db'.messages[x] == RowStep(db.messages[x], x, m)
      ensures x !in db.messages && IsContent(m) && m.id == x ==> db'.messages[x] == RowOf(m)
    {
      MessageAfterOne(db, m, x);
    }
  }

  lemma ChatsAfterOne(db: Tables, m: WaMessage)
    ensures PersistMessage(db, m).chats == if IsContent(m) then PutChat(db, m.chat, ContentRow(db, m)).chats else db.chats
  {
    if IsContent(m) {
      ContentChats(db, m);
    } else if !Ignored(m) {
      OtherParts(db, m, m.id);
    }
  }

  // ------------------------------------------------------------ the rows of a batch

  function Known(known: set<Id>, m: WaMessage): set<Id> { if IsContent(m) then known + {m.id} else known }

  /** The ids stored once a batch is applied to tables with the ids `known`. */
  function Stored(known: set<Id>, batch: seq<WaMessage>): set<Id>
    decreases |batch|
  {
    if batch == [] then known else Stored(Known(known, batch[0]), batch[1..])
  }

  lemma SameIds(rows: map<Id, Message>, ids: set<Id>)
    requires forall x :: x in rows <==> x in ids
    ensures rows.Keys == ids
  {
  }

  lemma KnownAfterOne(db: Tables, m: WaMessage)
    ensures PersistMessage(db, m).messages.Keys == Known(db.messages.Keys, m)
  {
    MessagesAfterOne(db, m);
    SameIds(PersistMessage(db, m).messages, Known(db.messages.Keys, m));
  }

  lemma {:induction false} StoredKeys(db: Tables, batch: seq<WaMessage>)
    ensures PersistMessages(db, batch).messages.Keys == Stored(db.messages.Keys, batch)
    decreases |batch|
  {
    if batch != [] {
      KnownAfterOne(db, batch[0]);
      StoredKeys(PersistMessage(db, batch[0]), batch[1..]);
    }
  }

  /** Message `i` of the batch stores its row. */
  predicate Inserts(known: set<Id>, batch: seq<WaMessage>, i: nat)
    requires i < |batch|
  {
    IsContent(batch[i]) && batch[i].id !in Stored(known, batch[..i])
  }

  lemma InsertsBelow(known: set<Id>, batch: seq<WaMessage>, i: nat)
    requires 0 < i < |batch|
    ensures Inserts(known, batch, i) <==> Inserts(Known(known, batch[0]), batch[1..], i - 1)
  {
    assert batch[..i][1..] == batch[1..][..i - 1];
  }
}
