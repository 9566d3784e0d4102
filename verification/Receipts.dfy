/**
 Delivery status: over every run a stored message's status is its initial one
 joined with the marks that mention it, in whatever order and however often they
 came, so it never goes down and converges.
 */
module Receipts {
  import opened Tables
  import opened Persister
  import opened PersistFacts
  import opened Writers

  /** sent or unknown < delivered < read. */
  function Rank(status: string): nat { if status == READ then 2 else if status == DELIVERED then 1 else 0 }

  predicate MarksRead(op: Op, x: Id) {
    (op.OnReceipt? && (op.r.kind.ReadReceipt? || op.r.kind.ReadSelf?) && x in op.r.ids) || (op.ReadChat? && x in op.ids)
  }

  predicate MarksDelivered(op: Op, x: Id) { op.OnReceipt? && op.r.kind.DeliveredReceipt? && x in op.r.ids }

  /** The join of a status with every mark on `x`, whatever their order. */
  function Joined(status: string, ops: seq<Op>, x: Id): string {
    if exists op :: op in ops && MarksRead(op, x) then READ
    else if Rank(status) < 2 && exists op :: op in ops && MarksDelivered(op, x) then DELIVERED
    else status
  }

  // ---------------------------------------------------------------- one operation

  function Marked(status: string, op: Op, x: Id): string {
    if MarksRead(op, x) then READ else if MarksDelivered(op, x) then NewStatus(status, DELIVERED) else status
  }

  lemma SetStatusMarks(db: Tables, ids: seq<Id>, status: string, x: Id)
    requires x in db.messages
    ensures x in SetMessagesStatus(db, ids, status).messages
    ensures SetMessagesStatus(db, ids, status).messages[x].status
         == if x in ids then NewStatus(db.messages[x].status, status) else db.messages[x].status
  {
  }

  lemma WithStatusMarks(db: Tables, r: Receipt, x: Id)
    requires x in db.messages
    ensures var db' := WithStatus(db, r);
      x in db'.messages && db'.messages[x].status == Marked(db.messages[x].status, OnReceipt(r), x)
  {
    if r.kind.DeliveredReceipt? {
      SetStatusMarks(db, r.ids, DELIVERED, x);
    } else if !r.kind.OtherReceipt? {
      SetStatusMarks(db, r.ids, READ, x);
    }
  }

  lemma ReceiptMarks(db: Tables, r: Receipt, x: Id)
    requires x in db.messages
    ensures var db' := PersistReceipt(db, r);
      x in db'.messages && db'.messages[x].status == Marked(db.messages[x].status, OnReceipt(r), x)
  {
    if r.ids != [] {
      var db1 := InsertReceipts(db, r, |r.ids|);
      ReceiptsTouchNoRow(db, r, |r.ids|);
      assert db1.messages == db.messages;
      WithStatusMarks(db1, r, x);
      assert PersistReceipt(db, r).messages == WithStatus(db1, r).messages;
    }
  }

  lemma ReadMarks(db: Tables, jid: Jid, ids: seq<Id>, x: Id)
    requires x in db.messages
    ensures var db' := ReadPending(db, jid, ids);
      x in db'.messages && db'.messages[x].status == Marked(db.messages[x].status, ReadChat(jid, ids), x)
  {
    assert ids != [] ==> ReadPending(db, jid, ids).messages == SetMessagesStatus(db, ids, READ).messages;
  }

  lemma ContactKeepsMessages(db: Tables, jid: Jid, pn: Jid, c: Contact)
    ensures PersistContact(db, jid, pn, c).messages == db.messages
  {
    assert UpsertContact(db, jid, c.(pushName := "")).messages == db.messages;
  }

  lemma GroupKeepsMessages(db: Tables, jid: Jid, name: string)
    ensures PersistGroup(db, jid, name).messages == db.messages
  {
    assert UpsertGroup(db, jid, name).messages == db.messages;
  }

  lemma HistoryKeepsStatus(db: Tables, c: Conversation, x: Id)
    requires x in db.messages
    ensures var db' := PersistConversation(db, c); x in db'.messages && db'.messages[x].status == db.messages[x].status
  {
    if c.chat != "" {
      BatchKeepsStatus(UpsertChat(db, c.chat, c.group, c.name), c.messages, x);
    }
  }

  lemma {:induction false} BatchKeepsStatus(db: Tables, batch: seq<WaMessage>, x: Id)
    requires x in db.messages
    ensures var db' := PersistMessages(db, batch); x in db'.messages && db'.messages[x].status == db.messages[x].status
    decreases |batch|
  {
    if batch != [] {
      MessageAfterOne(db, batch[0], x);
      BatchKeepsStatus(PersistMessage(db, batch[0]), batch[1..], x);
    }
  }

  lemma OpMarks(db: Tables, op: Op, x: Id)
    requires x in db.messages
    ensures var db' := Apply(db, op);
      x in db'.messages && db'.messages[x].status == Marked(db.messages[x].status, op, x)
  {
    if op.OnReceipt? {
      ReceiptMarks(db, op.r, x);
    } else if op.OnMessage? {
      MessageAfterOne(db, op.m, x);
    } else if op.OnHistory? {
      HistoryKeepsStatus(db, op.c, x);
    } else if op.SendMedia? {
      SentMediaParts(db, op.sent);
    } else if op.SendText? {
      SentTextParts(db, op.sent);
    } else if op.ReadChat? {
      ReadMarks(db, op.jid, op.ids, x);
    } else if op.OnContact? {
      ContactKeepsMessages(db, op.jid, op.pn, op.contact);
    } else if op.OnGroup? {
      GroupKeepsMessages(db, op.jid, op.name);
    }
  }

  // ------------------------------------------------------------------- whole runs

  lemma JoinedStep(status: string, ops: seq<Op>, x: Id)
    requires ops != []
    ensures Joined(status, ops, x) == Marked(Joined(status, ops[..|ops| - 1], x), ops[|ops| - 1], x)
  {
    var rest, last := ops[..|ops| - 1], ops[|ops| - 1];
    assert forall op :: op in ops <==> op in rest || op == last;
  }

  /** The status is the join of the marks, through every writer of the tables. */
  lemma {:induction false} StatusIsJoin(db: Tables, ops: seq<Op>, x: Id)
    requires x in db.messages
    ensures var db' := Exec(db, ops);
      x in db'.messages && db'.messages[x].status == Joined(db.messages[x].status, ops, x)
    decreases |ops|
  {
    if ops != [] {
      var n := |ops| - 1;
      StatusIsJoin(db, ops[..n], x);
      OpMarks(Exec(db, ops[..n]), ops[n], x);
      JoinedStep(db.messages[x].status, ops, x);
    }
  }

  /** A status that changes goes up. */
  lemma StatusNeverGoesDown(db: Tables, ops: seq<Op>, x: Id)
    requires x in db.messages
    ensures x in Exec(db, ops).messages
    ensures var before, after := db.messages[x].status, Exec(db, ops).messages[x].status;
      after == before || Rank(after) > Rank(before)
  {
    StatusIsJoin(db, ops, x);
  }

  predicate IsMark(op: Op) { op.OnReceipt? || op.ReadChat? }

  /** Two runs with the same receipts and read requests, reordered and repeated at will and
      mixed with any other operations, end in the same status. */
  lemma StatusesConverge(db: Tables, a: seq<Op>, b: seq<Op>, x: Id)
    requires x in db.messages
    requires forall op :: IsMark(op) ==> (op in a <==> op in b)
    ensures x in Exec(db, a).messages && x in Exec(db, b).messages
    ensures Exec(db, a).messages[x].status == Exec(db, b).messages[x].status
  {
    StatusIsJoin(db, a, x);
    StatusIsJoin(db, b, x);
    assert forall op :: MarksRead(op, x) ==> IsMark(op);
    assert forall op :: MarksDelivered(op, x) ==> IsMark(op);
  }

  // ----------------------------------------------------------------- message.read

  function Pending(db: Tables, chat: Jid): set<Id> {
    set x | x in db.messages && db.messages[x].chat == chat && !db.messages[x].fromMe && db.messages[x].status != READ
  }

  /** message.read leaves nothing pending in its chat and no other chat's messages changed. */
  lemma NothingPendingAfterRead(db: Tables, chat: Jid, ids: seq<Id>)
    requires forall x :: x in ids <==> x in Pending(db, chat)
    ensures Pending(ReadPending(db, chat, ids), chat) == {}
    ensures forall x :: x in db.messages && db.messages[x].chat != chat ==>
      x in ReadPending(db, chat, ids).messages && ReadPending(db, chat, ids).messages[x] == db.messages[x]
    ensures ids != [] ==> UnreadOf(ReadPending(db, chat, ids), chat) == 0
  {
    var db' := ReadPending(db, chat, ids);
    if ids != [] {
      assert db'.messages == SetMessagesStatus(db, ids, READ).messages;
      assert forall x :: x in ids ==> x in Pending(db, chat);
    } else {
      assert forall x :: x !in Pending(db, chat);
    }
    forall x ensures x !in Pending(db', chat) {
      assert x in ids <==> x in Pending(db, chat);
    }
  }
}
