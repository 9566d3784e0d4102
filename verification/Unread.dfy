/**
 The unread counter of a chat: the last value that something authoritative set,
 plus the incoming messages stored since, over every run of the writers.
 */
module Unread {
  import opened Wrappers
  import opened Tables
  import opened Persister
  import opened PersistFacts
  import opened Writers
  import opened Columns

  /** The incoming rows of `j` that `b` has and `a` had not. */
  function NewIncoming(a: Tables, b: Tables, j: Jid): set<Id> {
    set x | x in b.messages && x !in a.messages && b.messages[x].chat == j && !b.messages[x].fromMe
  }

  lemma NewIncomingAdds(a: Tables, b: Tables, c: Tables, j: Jid)
    requires RowsKept(a, b) && RowsKept(b, c)
    ensures RowsKept(a, c)
    ensures |NewIncoming(a, c, j)| == |NewIncoming(a, b, j)| + |NewIncoming(b, c, j)|
  {
    var first, second := NewIncoming(a, b, j), NewIncoming(b, c, j);
    assert NewIncoming(a, c, j) == first + second;
    assert first !! second;
  }

  /** From `a` to `b` the counter of `j` rose by the incoming rows stored in between. */
  predicate Counts(a: Tables, b: Tables, j: Jid) {
    RowsKept(a, b) && UnreadOf(b, j) == UnreadOf(a, j) + |NewIncoming(a, b, j)|
  }

  lemma CountsThen(a: Tables, b: Tables, c: Tables, j: Jid)
    requires Counts(a, b, j) && Counts(b, c, j)
    ensures Counts(a, c, j)
  {
    NewIncomingAdds(a, b, c, j);
  }

  lemma NoRowNoCount(a: Tables, b: Tables, j: Jid)
    requires RowsKept(a, b) && SameKeys(a, b) && UnreadOf(a, j) == UnreadOf(b, j)
    ensures Counts(a, b, j)
  {
    assert NewIncoming(a, b, j) == {};
  }

  // ---------------------------------------------------------------- one operation

  /** One more row, and one more unread if it came in for `j`. */
  lemma OneRowCounts(a: Tables, b: Tables, x: Id, row: Message, j: Jid)
    requires x !in a.messages && b.messages == a.messages[x := row]
    requires UnreadOf(b, j) == UnreadOf(a, j) + if row.chat == j && !row.fromMe then 1 else 0
    ensures Counts(a, b, j)
  {
    assert NewIncoming(a, b, j) == if row.chat == j && !row.fromMe then {x} else {};
  }

  lemma BookedUnread(db: Tables, m: WaMessage)
    requires m.body.Content?
    ensures BookedRow(UpsertedRow(ChatRow(db, m.chat), m.group, m.name), m).unread
         == UnreadOf(db, m.chat) + if m.fromMe then 0 else 1
  {
  }

  lemma MessageCounts(db: Tables, m: WaMessage, j: Jid)
    ensures Counts(db, PersistMessage(db, m), j)
  {
    var db' := PersistMessage(db, m);
    if IsContent(m) && m.id !in db.messages {
      NewMessageParts(db, m);
      BookedUnread(db, m);
      OneRowCounts(db, db', m.id, RowOf(m), j);
    } else {
      OldMessageIsQuiet(db, m);
      assert UnreadOf(db', j) == UnreadOf(db, j);
      NoRowNoCount(db, db', j);
    }
  }

  lemma {:induction false} BatchCounts(db: Tables, batch: seq<WaMessage>, j: Jid)
    ensures Counts(db, PersistMessages(db, batch), j)
    decreases |batch|
  {
    if batch == [] {
      NoRowNoCount(db, db, j);
    } else {
      var db1 := PersistMessage(db, batch[0]);
      MessageCounts(db, batch[0], j);
      BatchCounts(db1, batch[1..], j);
      CountsThen(db, db1, PersistMessages(db1, batch[1..]), j);
    }
  }

  lemma UpsertCounts(db: Tables, jid: Jid, group: bool, name: string, j: Jid)
    ensures Counts(db, UpsertChat(db, jid, group, name), j)
  {
    UpsertIsQuiet(db, jid, group, name);
    assert UnreadOf(UpsertChat(db, jid, group, name), j) == UnreadOf(db, j);
    NoRowNoCount(db, UpsertChat(db, jid, group, name), j);
  }

  lemma ReplayedCounts(db: Tables, c: Conversation, j: Jid)
    ensures Counts(db, Replayed(db, c), j) && c.chat in Replayed(db, c).chats
  {
    var db0 := UpsertChat(db, c.chat, c.group, c.name);
    UpsertCounts(db, c.chat, c.group, c.name, j);
    var db1 := PersistMessages(db0, c.messages);
    BatchCounts(db0, c.messages, j);
    CountsThen(db, db0, db1, j);
    UpsertCounts(db1, c.chat, c.group, c.name, j);
    CountsThen(db, db1, UpsertChat(db1, c.chat, c.group, c.name), j);
    ReplayedKeeps(db, c);
  }

  lemma RaisedTsUnread(db: Tables, jid: Jid, ts: int, j: Jid)
    ensures var db' := SetChatLastTimestamp(db, jid, ts);
      db' == db.(chats := db'.chats) && db'.chats.Keys == db.chats.Keys && UnreadOf(db', j) == UnreadOf(db, j)
  {
  }

  lemma ClosingUnread(db: Tables, c: Conversation, j: Jid)
    requires c.chat != ""
    ensures var db2 := Replayed(db, c); var db' := PersistConversation(db, c);
      && db'.messages == db2.messages
      && UnreadOf(db', j) == if j == c.chat then (if c.unread < 0 then 0 else c.unread) else UnreadOf(db2, j)
  {
    ReplayedKeeps(db, c);
    var db2 := Replayed(db, c);
    var db3 := if c.lastTs > 0 then SetChatLastTimestamp(db2, c.chat, c.lastTs * 1000) else db2;
    RaisedTsUnread(db2, c.chat, c.lastTs * 1000, j);
    var shown := if c.unread < 0 then 0 else c.unread;
    assert SetUnread(db3, c.chat, c.unread) == SetUnread(db3, c.chat, shown);
    SetUnreadParts(db3, c.chat, shown);
  }

  /** The value `op` sets the counter of `j` to, if it is authoritative about it. */
  function Sets(op: Op, j: Jid): Option<nat> {
    if op.OnReceipt? && op.r.chat == j && op.r.ids != [] && (op.r.kind.ReadSelf? || (op.r.kind.ReadReceipt? && op.r.fromMe))
    then Some(0)
    else if op.ReadChat? && op.jid == j && op.ids != [] then Some(0)
    else if op.OnHistory? && op.c.chat == j && j != "" then Some(if op.c.unread < 0 then 0 else op.c.unread)
    else None
  }

  lemma HistoryUnread(db: Tables, c: Conversation, j: Jid)
    ensures RowsKept(db, PersistConversation(db, c))
    ensures if c.chat == j && j != "" then UnreadOf(PersistConversation(db, c), j) == (if c.unread < 0 then 0 else c.unread)
            else Counts(db, PersistConversation(db, c), j)
  {
    if c.chat == "" {
      NoRowNoCount(db, db, j);
    } else {
      ReplayedCounts(db, c, j);
      ClosingUnread(db, c, j);
      assert NewIncoming(db, PersistConversation(db, c), j) == NewIncoming(db, Replayed(db, c), j);
    }
  }

  lemma SentMediaCounts(db: Tables, s: Sent, j: Jid)
    ensures Counts(db, FinalizeSentMedia(db, s), j)
  {
    var db' := FinalizeSentMedia(db, s);
    SentMediaParts(db, s);
    assert UnreadOf(db', j) == UnreadOf(db, j);
    if s.id in db.messages {
      NoRowNoCount(db, db', j);
    } else {
      OneRowCounts(db, db', s.id, SentRow(s, true), j);
    }
  }

  lemma SentTextCounts(db: Tables, s: Sent, j: Jid)
    ensures Counts(db, StoreOutgoing(db, s), j)
  {
    var db' := StoreOutgoing(db, s);
    SentTextParts(db, s);
    assert UnreadOf(db', j) == UnreadOf(db, j);
    if s.id in db.messages {
      NoRowNoCount(db, db', j);
    } else {
      OneRowCounts(db, db', s.id, SentRow(s, false), j);
    }
  }

  lemma OpCounts(db: Tables, op: Op, j: Jid)
    ensures RowsKept(db, Apply(db, op))
    ensures if Sets(op, j).Some? then UnreadOf(Apply(db, op), j) == Sets(op, j).value else Counts(db, Apply(db, op), j)
  {
    if AlwaysQuiet(op) {
      OpIsQuiet(db, op);
      assert UnreadOf(Apply(db, op), j) == if ReadBy(op) == Some(j) then 0 else UnreadOf(db, j);
      if Sets(op, j).None? {
        NoRowNoCount(db, Apply(db, op), j);
      }
    } else if op.OnMessage? {
      MessageCounts(db, op.m, j);
    } else if op.OnHistory? {
      HistoryUnread(db, op.c, j);
    } else if op.SendMedia? {
      SentMediaCounts(db, op.sent, j);
    } else {
      SentTextCounts(db, op.sent, j);
    }
  }

  // ------------------------------------------------------------------- whole runs

  /** Position after the last operation that is authoritative about `j`; 0 if there is none. */
  function LastSet(ops: seq<Op>, j: Jid): (n: nat)
    ensures n <= |ops|
    ensures n > 0 ==> Sets(ops[n - 1], j).Some?
    ensures forall i :: n <= i < |ops| ==> Sets(ops[i], j).None?
    decreases |ops|
  {
    if ops == [] then 0
    else if Sets(ops[|ops| - 1], j).Some? then |ops|
    else LastSet(ops[..|ops| - 1], j)
  }

  /** The counter at the moment it was last set, or at the start of the run. */
  function SetValue(db: Tables, ops: seq<Op>, j: Jid): int {
    var n := LastSet(ops, j);
    if n == 0 then UnreadOf(db, j) else Sets(ops[n - 1], j).value
  }

  /** The counter at the end of `ops` is what it was after `n` of them plus the rows since. */
  ghost predicate CountsSince(db: Tables, ops: seq<Op>, n: nat, value: int, j: Jid)
    requires n <= |ops|
  {
    var since, now := Exec(db, ops[..n]), Exec(db, ops);
    RowsKept(since, now) && UnreadOf(now, j) == value + |NewIncoming(since, now, j)|
  }

  lemma CountsHere(db: Tables, ops: seq<Op>, j: Jid)
    ensures CountsSince(db, ops, |ops|, UnreadOf(Exec(db, ops), j), j)
  {
    assert ops[..|ops|] == ops;
    assert NewIncoming(Exec(db, ops), Exec(db, ops), j) == {};
  }

  lemma CountsOneMore(db: Tables, ops: seq<Op>, n: nat, value: int, j: Jid)
    requires n < |ops| && Sets(ops[|ops| - 1], j).None? && CountsSince(db, ops[..|ops| - 1], n, value, j)
    ensures CountsSince(db, ops, n, value, j)
  {
    var last := |ops| - 1;
    assert ops[..last][..n] == ops[..n];
    OpCounts(Exec(db, ops[..last]), ops[last], j);
    NewIncomingAdds(Exec(db, ops[..n]), Exec(db, ops[..last]), Exec(db, ops), j);
  }

  lemma {:induction false} CountsAlong(db: Tables, ops: seq<Op>, j: Jid)
    ensures CountsSince(db, ops, LastSet(ops, j), SetValue(db, ops, j), j)
    decreases |ops|
  {
    var n := LastSet(ops, j);
    if n < |ops| {
      CountsAlong(db, ops[..|ops| - 1], j);
      CountsOneMore(db, ops, n, SetValue(db, ops, j), j);
    } else {
      CountsHere(db, ops, j);
      if ops != [] {
        OpCounts(Exec(db, ops[..n - 1]), ops[n - 1], j);
      }
    }
  }

  /** unread_count is the last authoritative value plus the new incoming rows since. */
  lemma UnreadOverRuns(db: Tables, ops: seq<Op>, j: Jid)
    ensures var since := Exec(db, ops[..LastSet(ops, j)]);
      && RowsKept(since, Exec(db, ops))
      && UnreadOf(Exec(db, ops), j) == SetValue(db, ops, j) + |NewIncoming(since, Exec(db, ops), j)|
  {
    CountsAlong(db, ops, j);
  }
}
