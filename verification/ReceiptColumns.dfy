/**
 What a receipt and a history conversation write, by the kind of the receipt and the
 fields of the conversation themselves.
 */
module ReceiptColumns {
  import opened Wrappers
  import opened Tables
  import opened Persister
  import opened Writers
  import opened StoredColumns

  // ---------------------------------------------------------------------- receipts

  /** A contact that has read or received our messages, and any other kind of receipt, leaves
      every chat row as it is. */
  lemma ForeignReceiptKeepsChats(db: Tables, r: Receipt)
    requires (r.kind.ReadReceipt? && !r.fromMe) || r.kind.DeliveredReceipt? || r.kind.OtherReceipt? || r.ids == []
    ensures PersistReceipt(db, r).chats == db.chats
  {
    ReceiptsTouchNoRow(db, r, |r.ids|);
  }

  /** What we have read ourselves, on another device or on this one, clears the counter of its
      chat and changes nothing else about chats. */
  lemma OwnReadClearsTheChat(db: Tables, r: Receipt)
    requires r.kind.ReadSelf? || (r.kind.ReadReceipt? && r.fromMe)
    requires r.ids != []
    ensures var db' := PersistReceipt(db, r);
      && db'.chats.Keys == db.chats.Keys && SameElsewhere(db.chats, db'.chats, r.chat)
      && (r.chat in db.chats ==> db'.chats[r.chat] == db.chats[r.chat].(unread := 0))
  {
    ReceiptsTouchNoRow(db, r, |r.ids|);
    var db1 := WithStatus(InsertReceipts(db, r, |r.ids|), r);
    assert db1.chats == db.chats;
    ClearedChat(db1, r.chat);
  }

  lemma ClearedChat(db: Tables, jid: Jid)
    ensures var db' := MarkChatRead(db, jid);
      && db'.chats.Keys == db.chats.Keys && SameElsewhere(db.chats, db'.chats, jid)
      && (jid in db.chats ==> db'.chats[jid] == db.chats[jid].(unread := 0))
  {
  }

  /** A read receipt of either kind makes the messages it names read; a delivered one makes them
      delivered, unless they are read already. No other column and no other message changes. */
  lemma ReceiptStatuses(db: Tables, r: Receipt, x: Id)
    requires x in db.messages
    ensures var db' := PersistReceipt(db, r); var was := db.messages[x];
      && db'.messages.Keys == db.messages.Keys
      && db'.messages[x] == was.(status := db'.messages[x].status)
      && var status := db'.messages[x].status;
      && (x !in r.ids || r.kind.OtherReceipt? ==> status == was.status)
      && (x in r.ids && (r.kind.ReadReceipt? || r.kind.ReadSelf?) ==> status == "read")
      && (x in r.ids && r.kind.DeliveredReceipt? ==> status == if was.status == "read" then "read" else "delivered")
  {
    ReceiptsTouchNoRow(db, r, |r.ids|);
    if r.ids != [] {
      var db1 := InsertReceipts(db, r, |r.ids|);
      assert PersistReceipt(db, r).messages == WithStatus(db1, r).messages;
      StatusColumn(db1, r, x);
    }
  }

  lemma StatusWritten(db: Tables, ids: seq<Id>, status: string, x: Id)
    requires x in db.messages
    ensures var db' := SetMessagesStatus(db, ids, status); var was := db.messages[x];
      && db'.messages.Keys == db.messages.Keys
      && (x !in ids ==> db'.messages[x] == was)
      && (x in ids ==> db'.messages[x] == was.(status := if status == "delivered" && was.status == "read" then "read" else status))
  {
  }

  lemma StatusColumn(db: Tables, r: Receipt, x: Id)
    requires x in db.messages
    ensures var db' := WithStatus(db, r); var was := db.messages[x];
      && db'.messages.Keys == db.messages.Keys
      && db'.messages[x] == was.(status := db'.messages[x].status)
      && var status := db'.messages[x].status;
      && (x !in r.ids || r.kind.OtherReceipt? ==> status == was.status)
      && (x in r.ids && (r.kind.ReadReceipt? || r.kind.ReadSelf?) ==> status == "read")
      && (x in r.ids && r.kind.DeliveredReceipt? ==> status == if was.status == "read" then "read" else "delivered")
  {
    StatusWritten(db, r.ids, "read", x);
    StatusWritten(db, r.ids, "delivered", x);
  }

  /** The name under which a receipt is recorded. */
  predicate RecordedAs(k: ReceiptKind, name: string) {
    && (k.ReadReceipt? ==> name == "read")
    && (k.ReadSelf? ==> name == "read-self")
    && (k.DeliveredReceipt? ==> name == "delivered")
    && (k.OtherReceipt? ==> name == k.name)
  }

  /** For each stored message it names, the receipt is recorded with its sender, kind and time;
      no other entry changes. */
  lemma ReceiptRows(db: Tables, r: Receipt, name: string, key: (Id, Jid, string))
    requires RecordedAs(r.kind, name)
    ensures var db' := PersistReceipt(db, r);
      var named := key.0 in r.ids && key.0 in db.messages && key.0 != "" && key.1 == r.sender != "" && key.2 == name != "";
      && (named ==> key in db'.receipts && db'.receipts[key] == r.ts)
      && (!named ==> (key in db'.receipts <==> key in db.receipts) && (key in db.receipts ==> db'.receipts[key] == db.receipts[key]))
  {
    FirstReceiptRows(db, r, |r.ids|, name, key);
    assert r.ids[..|r.ids|] == r.ids;
  }

  lemma {:induction false} FirstReceiptRows(db: Tables, r: Receipt, n: nat, name: string, key: (Id, Jid, string))
    requires n <= |r.ids| && RecordedAs(r.kind, name)
    ensures var db' := InsertReceipts(db, r, n);
      var named := key.0 in r.ids[..n] && key.0 in db.messages && key.0 != "" && key.1 == r.sender != "" && key.2 == name != "";
      && (named ==> key in db'.receipts && db'.receipts[key] == r.ts)
      && (!named ==> (key in db'.receipts <==> key in db.receipts) && (key in db.receipts ==> db'.receipts[key] == db.receipts[key]))
  {
    if n > 0 {
      FirstReceiptRows(db, r, n - 1, name, key);
      ReceiptsTouchNoRow(db, r, n - 1);
      assert r.ids[..n] == r.ids[..n - 1] + [r.ids[n - 1]];
      OneReceiptRow(InsertReceipts(db, r, n - 1), r.ids[n - 1], r.sender, name, r.ts, key);
    }
  }

  lemma OneReceiptRow(db: Tables, id: Id, user: Jid, name: string, ts: int, key: (Id, Jid, string))
    ensures var db' := InsertReceipt(db, id, user, name, ts);
      var named := key.0 == id && id in db.messages && key.0 != "" && key.1 == user != "" && key.2 == name != "";
      && (named ==> key in db'.receipts && db'.receipts[key] == ts)
      && (!named ==> (key in db'.receipts <==> key in db.receipts) && (key in db.receipts ==> db'.receipts[key] == db.receipts[key]))
  {
  }

  /** The status that is told: "read" also for what we have read elsewhere. */
  lemma ToldStatus(r: Receipt, name: string)
    requires RecordedAs(r.kind, name)
    ensures ReportedStatus(r) == if r.kind.ReadSelf? then "read" else name
  {
  }

  // ------------------------------------------------------------------------ history

  /** Only the chat row of `jid`, which is there, becomes `row`. */
  ghost predicate RowBecomes(a: Tables, b: Tables, jid: Jid, row: Chat) {
    b == a.(chats := b.chats) && SameElsewhere(a.chats, b.chats, jid) && jid in b.chats && b.chats[jid] == row
  }

  lemma Renamed(db: Tables, jid: Jid, group: bool, name: string)
    requires jid in db.chats && name != ""
    ensures RowBecomes(db, UpsertChat(db, jid, group, name), jid, db.chats[jid].(group := group || db.chats[jid].group, name := name))
  {
  }

  lemma Raised(db: Tables, jid: Jid, ts: int)
    requires jid in db.chats
    ensures var was := db.chats[jid];
      RowBecomes(db, SetChatLastTimestamp(db, jid, ts), jid,
                 if was.lastTs.None? || ts >= was.lastTs.value then was.(lastTs := Some(ts)) else was)
  {
  }

  lemma Counted(db: Tables, jid: Jid, count: int)
    requires jid in db.chats
    ensures RowBecomes(db, SetUnread(db, jid, count), jid, db.chats[jid].(unread := if count < 0 then 0 else count))
  {
  }

  lemma RowBecomesThen(a: Tables, b: Tables, c: Tables, jid: Jid, first: Chat, second: Chat)
    requires RowBecomes(a, b, jid, first) && RowBecomes(b, c, jid, second)
    ensures RowBecomes(a, c, jid, second)
  {
  }

  /** The chat row once the messages are stored, after the closing statements: a reported name
      and count are taken, a reported time only if it is not older. */
  lemma ClosedColumns(db: Tables, c: Conversation)
    requires c.chat in db.chats
    ensures var was := db.chats[c.chat];
      RowBecomes(db, Closed(db, c), c.chat, Chat(
        was.group || (c.name != "" && c.group),
        if c.name != "" then c.name else was.name,
        was.lastId,
        if c.lastTs > 0 && (was.lastTs.None? || c.lastTs * 1000 >= was.lastTs.value) then Some(c.lastTs * 1000) else was.lastTs,
        was.preview,
        if c.unread < 0 then 0 else c.unread))
  {
    var db2 := if c.name != "" then UpsertChat(db, c.chat, c.group, c.name) else db;
    if c.name != "" {
      Renamed(db, c.chat, c.group, c.name);
    }
    var db3 := if c.lastTs > 0 then SetChatLastTimestamp(db2, c.chat, c.lastTs * 1000) else db2;
    if c.lastTs > 0 {
      Raised(db2, c.chat, c.lastTs * 1000);
    }
    assert RowBecomes(db, db2, c.chat, db2.chats[c.chat]) && RowBecomes(db2, db3, c.chat, db3.chats[c.chat]);
    RowBecomesThen(db, db2, db3, c.chat, db2.chats[c.chat], db3.chats[c.chat]);
    Counted(db3, c.chat, c.unread);
    RowBecomesThen(db, db3, Closed(db, c), c.chat, db3.chats[c.chat], Closed(db, c).chats[c.chat]);
  }

  /** A conversation without messages still brings its chat. */
  lemma EmptyConversationColumns(db: Tables, c: Conversation)
    requires c.chat != "" && c.messages == []
    ensures var was := KnownChat(db, c.chat);
      RowBecomes(db, PersistConversation(db, c), c.chat, Chat(
        c.group || was.group,
        if c.name != "" then c.name else was.name,
        was.lastId,
        if c.lastTs > 0 && (was.lastTs.None? || c.lastTs * 1000 >= was.lastTs.value)
        then Some(c.lastTs * 1000) else was.lastTs,
        was.preview,
        if c.unread < 0 then 0 else c.unread))
  {
    var db1 := UpsertChat(db, c.chat, c.group, c.name);
    OpenedRow(db, c);
    ClosedColumns(db1, c);
    RowBecomesThen(db, db1, Closed(db1, c), c.chat, db1.chats[c.chat], Closed(db1, c).chats[c.chat]);
  }

  lemma OpenedRow(db: Tables, c: Conversation)
    ensures var was := KnownChat(db, c.chat);
      RowBecomes(db, UpsertChat(db, c.chat, c.group, c.name), c.chat,
                 was.(group := c.group || was.group, name := if c.name != "" then c.name else was.name))
  {
  }
}
