/**
 The denormalised columns of cae_chats agree with the messages they summarise,
 over every run of the writers.
 */
module Columns {
  import opened Wrappers
  import opened Tables
  import opened Persister
  import opened PersistFacts
  import opened Writers

  // ------------------------------------------------------------------ invariants

  /** Every row's chat exists and its last_message_ts is not below the row's time. */
  predicate Bounded(db: Tables) {
    forall x :: x in db.messages ==> RowBounded(db, db.messages[x])
  }

  predicate RowBounded(db: Tables, row: Message) {
    row.chat in db.chats && db.chats[row.chat].lastTs.Some? && row.ts <= db.chats[row.chat].lastTs.value
  }

  /** last_message_id, when set, names a row of that chat. */
  predicate Named(db: Tables) { forall j :: j in db.chats ==> LastIsRow(db, j, db.chats[j]) }

  predicate LastIsRow(db: Tables, j: Jid, c: Chat) {
    c.lastId.Some? ==> c.lastId.value in db.messages && db.messages[c.lastId.value].chat == j
  }

  /** last_message_ts, when set, is the time of the row that last_message_id names. */
  predicate Attained(db: Tables) { forall j :: j in db.chats ==> LastIsAttained(db, j, db.chats[j]) }

  predicate LastIsAttained(db: Tables, j: Jid, c: Chat) {
    && LastIsRow(db, j, c) && (c.lastTs.Some? <==> c.lastId.Some?)
    && (c.lastTs.Some? ==> db.messages[c.lastId.value].ts == c.lastTs.value)
  }

  function LastTs(db: Tables, j: Jid): Option<int> { if j in db.chats then db.chats[j].lastTs else None }

  /** No chat disappears and no last_message_ts goes down. */
  predicate TsGrows(a: Tables, b: Tables) {
    && a.chats.Keys <= b.chats.Keys
    && forall j :: j in a.chats && a.chats[j].lastTs.Some? ==>
         b.chats[j].lastTs.Some? && b.chats[j].lastTs.value >= a.chats[j].lastTs.value
  }

  // ------------------------------------------------------------------ quiet steps

  lemma QuietKeeps(a: Tables, b: Tables)
    requires RowsKept(a, b) && SameKeys(a, b) && LastKept(a, b)
    ensures TsGrows(a, b)
    ensures Bounded(a) ==> Bounded(b)
    ensures Named(a) ==> Named(b)
    ensures Attained(a) ==> Attained(b)
  {
    if Bounded(a) {
      forall x | x in b.messages ensures RowBounded(b, b.messages[x]) {
        assert RowBounded(a, a.messages[x]);
      }
    }
    forall j | j in b.chats
      ensures Named(a) ==> LastIsRow(b, j, b.chats[j])
      ensures Attained(a) ==> LastIsAttained(b, j, b.chats[j])
    {
      if j in a.chats && Named(a) {
        assert LastIsRow(a, j, a.chats[j]);
      }
      if j in a.chats && Attained(a) {
        assert LastIsAttained(a, j, a.chats[j]);
      }
    }
  }

  // -------------------------------------------------------------------- new rows

  /** `b` stores the row `x` and books it as the last message of its chat when it is not
      older than the known one. */
  predicate Books(a: Tables, b: Tables, x: Id, row: Message) {
    && x !in a.messages && b.messages == a.messages[x := row]
    && a.chats.Keys <= b.chats.Keys && row.chat in b.chats
    && (forall j :: j in b.chats && j != row.chat ==> j in a.chats && b.chats[j] == a.chats[j])
    && var c := b.chats[row.chat];
       if NotOlder(row.ts, LastTs(a, row.chat)) then c.lastTs == Some(row.ts) && c.lastId == Some(x)
       else row.chat in a.chats && SameLast(a.chats[row.chat], c)
  }

  lemma BooksKeepsBounded(a: Tables, b: Tables, x: Id, row: Message)
    requires Books(a, b, x, row)
    ensures TsGrows(a, b)
    ensures Bounded(a) ==> Bounded(b)
  {
    if Bounded(a) {
      forall y | y in b.messages ensures RowBounded(b, b.messages[y]) {
        if y != x {
          assert RowBounded(a, a.messages[y]);
        }
      }
    }
  }

  lemma BooksKeepsLast(a: Tables, b: Tables, x: Id, row: Message)
    requires Books(a, b, x, row)
    ensures Named(a) ==> Named(b)
    ensures Attained(a) ==> Attained(b)
  {
    forall j | j in b.chats
      ensures Named(a) ==> LastIsRow(b, j, b.chats[j])
      ensures Attained(a) ==> LastIsAttained(b, j, b.chats[j])
    {
      if j in a.chats && Named(a) {
        assert LastIsRow(a, j, a.chats[j]);
      }
      if j in a.chats && Attained(a) {
        assert LastIsAttained(a, j, a.chats[j]);
      }
    }
  }

  lemma NewMessageBooks(db: Tables, m: WaMessage)
    requires IsContent(m) && m.id !in db.messages
    ensures Books(db, PersistMessage(db, m), m.id, RowOf(m))
  {
    NewMessageParts(db, m);
  }

  lemma NewSentMediaBooks(db: Tables, s: Sent)
    requires s.id !in db.messages
    ensures Books(db, FinalizeSentMedia(db, s), s.id, SentRow(s, true))
  {
    SentMediaParts(db, s);
  }

  lemma NewSentTextBooks(db: Tables, s: Sent)
    requires s.id !in db.messages
    ensures Books(db, StoreOutgoing(db, s), s.id, SentRow(s, false))
  {
    SentTextParts(db, s);
  }

  // ---------------------------------------------------------------- one operation

  lemma MessageKeeps(db: Tables, m: WaMessage)
    ensures var db' := PersistMessage(db, m);
      TsGrows(db, db') && (Bounded(db) ==> Bounded(db')) && (Named(db) ==> Named(db')) && (Attained(db) ==> Attained(db'))
  {
    var db' := PersistMessage(db, m);
    if IsContent(m) && m.id !in db.messages {
      NewMessageBooks(db, m);
      BooksKeepsBounded(db, db', m.id, RowOf(m));
      BooksKeepsLast(db, db', m.id, RowOf(m));
    } else {
      OldMessageIsQuiet(db, m);
      QuietKeeps(db, db');
    }
  }

  lemma TsGrowsThen(a: Tables, b: Tables, c: Tables)
    requires TsGrows(a, b) && TsGrows(b, c)
    ensures TsGrows(a, c)
  {
  }

  lemma {:induction false} BatchKeeps(db: Tables, batch: seq<WaMessage>)
    ensures var db' := PersistMessages(db, batch);
      TsGrows(db, db') && (Bounded(db) ==> Bounded(db')) && (Named(db) ==> Named(db')) && (Attained(db) ==> Attained(db'))
    decreases |batch|
  {
    if batch != [] {
      var db1 := PersistMessage(db, batch[0]);
      MessageKeeps(db, batch[0]);
      BatchKeeps(db1, batch[1..]);
      TsGrowsThen(db, db1, PersistMessages(db1, batch[1..]));
    }
  }

  /** Only last_message_ts of one chat is raised. */
  predicate Raises(a: Tables, b: Tables, j: Jid) {
    && b.messages == a.messages && j in a.chats && j in b.chats
    && b.chats == a.chats[j := b.chats[j]] && b.chats[j].lastId == a.chats[j].lastId
    && (a.chats[j].lastTs.Some? ==> b.chats[j].lastTs.Some? && b.chats[j].lastTs.value >= a.chats[j].lastTs.value)
  }

  lemma RaisesKeepsBounded(a: Tables, b: Tables, j: Jid)
    requires Raises(a, b, j)
    ensures TsGrows(a, b) && (Bounded(a) ==> Bounded(b))
  {
    if Bounded(a) {
      forall x | x in b.messages ensures RowBounded(b, b.messages[x]) {
        assert RowBounded(a, a.messages[x]);
      }
    }
  }

  lemma RaisesKeepsNamed(a: Tables, b: Tables, j: Jid)
    requires Raises(a, b, j) && Named(a)
    ensures Named(b)
  {
    forall k | k in b.chats ensures LastIsRow(b, k, b.chats[k]) {
      assert LastIsRow(a, k, a.chats[k]);
    }
  }

  /** Raising the time keeps the columns exact iff it is no raise. */
  lemma RaiseTsIsExactIff(db: Tables, j: Jid, ts: int)
    requires Attained(db) && j in db.chats
    ensures Attained(SetChatLastTimestamp(db, j, ts)) <==> LastTs(db, j).Some? && ts <= LastTs(db, j).value
  {
    var db' := SetChatLastTimestamp(db, j, ts);
    assert LastIsAttained(db, j, db.chats[j]);
    if LastTs(db, j).Some? && ts <= LastTs(db, j).value {
      assert LastTsRow(db.chats[j], ts) == db.chats[j];
      assert db'.chats == db.chats;
    } else {
      assert !LastIsAttained(db', j, db'.chats[j]);
    }
  }

  lemma RaiseTsKeeps(db: Tables, j: Jid, ts: int)
    ensures var db' := SetChatLastTimestamp(db, j, ts);
      TsGrows(db, db') && (Bounded(db) ==> Bounded(db')) && (Named(db) ==> Named(db'))
  {
    if j in db.chats {
      var db' := SetChatLastTimestamp(db, j, ts);
      assert Raises(db, db', j);
      RaisesKeepsBounded(db, db', j);
      if Named(db) {
        RaisesKeepsNamed(db, db', j);
      }
    }
  }

  lemma SetUnreadKeeps(db: Tables, j: Jid, count: int)
    ensures var db' := SetUnread(db, j, count);
      TsGrows(db, db') && (Bounded(db) ==> Bounded(db')) && (Named(db) ==> Named(db')) && (Attained(db) <==> Attained(db'))
  {
    var shown := if count < 0 then 0 else count;
    var db' := SetUnread(db, j, count);
    assert db' == SetUnread(db, j, shown);
    SetUnreadParts(db, j, shown);
    QuietKeeps(db, db');
    if Attained(db') {
      forall k | k in db.chats ensures LastIsAttained(db, k, db.chats[k]) {
        assert LastIsAttained(db', k, db'.chats[k]) && SameLast(db.chats[k], db'.chats[k]);
      }
    }
  }

  /** The tables of a conversation when its closing statements begin. */
  function Replayed(db: Tables, c: Conversation): Tables {
    var db1 := PersistMessages(UpsertChat(db, c.chat, c.group, c.name), c.messages);
    if c.name != "" then UpsertChat(db1, c.chat, c.group, c.name) else db1
  }

  lemma ReplayedKeeps(db: Tables, c: Conversation)
    ensures var db' := Replayed(db, c);
      TsGrows(db, db') && (Bounded(db) ==> Bounded(db')) && (Named(db) ==> Named(db')) && (Attained(db) ==> Attained(db'))
    ensures c.chat in Replayed(db, c).chats
  {
    var db0 := UpsertChat(db, c.chat, c.group, c.name);
    UpsertIsQuiet(db, c.chat, c.group, c.name);
    QuietKeeps(db, db0);
    var db1 := PersistMessages(db0, c.messages);
    BatchKeeps(db0, c.messages);
    TsGrowsThen(db, db0, db1);
    UpsertIsQuiet(db1, c.chat, c.group, c.name);
    QuietKeeps(db1, UpsertChat(db1, c.chat, c.group, c.name));
    TsGrowsThen(db, db1, Replayed(db, c));
  }

  lemma HistoryKeeps(db: Tables, c: Conversation)
    ensures var db' := PersistConversation(db, c);
      TsGrows(db, db') && (Bounded(db) ==> Bounded(db')) && (Named(db) ==> Named(db'))
  {
    if c.chat != "" {
      var db2 := Replayed(db, c);
      ReplayedKeeps(db, c);
      RaiseTsKeeps(db2, c.chat, c.lastTs * 1000);
      var db3 := if c.lastTs > 0 then SetChatLastTimestamp(db2, c.chat, c.lastTs * 1000) else db2;
      TsGrowsThen(db, db2, db3);
      SetUnreadKeeps(db3, c.chat, c.unread);
      TsGrowsThen(db, db3, SetUnread(db3, c.chat, c.unread));
    }
  }

  /** A message of the batch that stores its row in the chat has a time not below `ts`. */
  predicate SomeNewRow(known: set<Id>, batch: seq<WaMessage>, j: Jid, ts: int) {
    exists i :: 0 <= i < |batch| && Inserts(known, batch, i) && batch[i].chat == j && ts <= batch[i].ts
  }

  predicate AtLeast(known: Option<int>, ts: int) { known.Some? && ts <= known.value }

  lemma TsAfterOne(db: Tables, m: WaMessage, j: Jid, ts: int)
    ensures AtLeast(LastTs(PersistMessage(db, m), j), ts)
      <==> AtLeast(LastTs(db, j), ts) || (IsContent(m) && m.id !in db.messages && m.chat == j && ts <= m.ts)
  {
    ChatsAfterOne(db, m);
  }

  lemma SomeNewRowBelow(known: set<Id>, batch: seq<WaMessage>, j: Jid, ts: int)
    requires batch != []
    ensures var here := Inserts(known, batch, 0) && batch[0].chat == j && ts <= batch[0].ts;
      SomeNewRow(known, batch, j, ts) <==> here || SomeNewRow(Known(known, batch[0]), batch[1..], j, ts)
  {
    var rest, next := batch[1..], Known(known, batch[0]);
    if i :| 0 < i < |batch| && Inserts(known, batch, i) && batch[i].chat == j && ts <= batch[i].ts {
      InsertsBelow(known, batch, i);
      assert rest[i - 1] == batch[i];
    }
    if i :| 0 <= i < |rest| && Inserts(next, rest, i) && rest[i].chat == j && ts <= rest[i].ts {
      InsertsBelow(known, batch, i + 1);
      assert rest[i] == batch[i + 1];
    }
  }

  /** After a batch the time is the maximum of the old one and those of the new rows. */
  lemma {:induction false} BatchTs(db: Tables, batch: seq<WaMessage>, j: Jid, ts: int)
    ensures AtLeast(LastTs(PersistMessages(db, batch), j), ts)
      <==> AtLeast(LastTs(db, j), ts) || SomeNewRow(db.messages.Keys, batch, j, ts)
    decreases |batch|
  {
    if batch != [] {
      KnownAfterOne(db, batch[0]);
      TsAfterOne(db, batch[0], j, ts);
      BatchTs(PersistMessage(db, batch[0]), batch[1..], j, ts);
      SomeNewRowBelow(db.messages.Keys, batch, j, ts);
      assert batch[..0] == [];
    }
  }

  /** The conversation reports no time beyond the chat's last one and the rows it adds. */
  predicate NoNewerTime(db: Tables, c: Conversation) {
    c.chat == "" || c.lastTs == 0
    || AtLeast(LastTs(db, c.chat), c.lastTs * 1000)
    || SomeNewRow(db.messages.Keys, c.messages, c.chat, c.lastTs * 1000)
  }

  lemma ReplayedTs(db: Tables, c: Conversation)
    requires c.chat != "" && c.lastTs > 0
    ensures NoNewerTime(db, c) <==> AtLeast(LastTs(Replayed(db, c), c.chat), c.lastTs * 1000)
  {
    BatchTs(UpsertChat(db, c.chat, c.group, c.name), c.messages, c.chat, c.lastTs * 1000);
  }

  lemma HistoryIsExactIff(db: Tables, c: Conversation)
    requires Attained(db)
    ensures Attained(PersistConversation(db, c)) <==> NoNewerTime(db, c)
  {
    if c.chat != "" {
      var db2 := Replayed(db, c);
      ReplayedKeeps(db, c);
      RaiseTsIsExactIff(db2, c.chat, c.lastTs * 1000);
      if c.lastTs > 0 {
        ReplayedTs(db, c);
      }
      var db3 := if c.lastTs > 0 then SetChatLastTimestamp(db2, c.chat, c.lastTs * 1000) else db2;
      SetUnreadKeeps(db3, c.chat, c.unread);
    }
  }

  lemma SentMediaKeeps(db: Tables, s: Sent)
    ensures var db' := FinalizeSentMedia(db, s);
      TsGrows(db, db') && (Bounded(db) ==> Bounded(db')) && (Named(db) ==> Named(db')) && (Attained(db) ==> Attained(db'))
  {
    var db' := FinalizeSentMedia(db, s);
    if s.id in db.messages {
      SentMediaParts(db, s);
      QuietParts(db, db');
      QuietKeeps(db, db');
    } else {
      NewSentMediaBooks(db, s);
      BooksKeepsBounded(db, db', s.id, SentRow(s, true));
      BooksKeepsLast(db, db', s.id, SentRow(s, true));
    }
  }

  /** storeOutgoing when the echo was stored first: it can only raise the time. */
  lemma SentTextKeeps(db: Tables, s: Sent)
    ensures var db' := StoreOutgoing(db, s); TsGrows(db, db') && (Bounded(db) ==> Bounded(db'))
  {
    var db' := StoreOutgoing(db, s);
    SentTextParts(db, s);
    if s.id !in db.messages {
      NewSentTextBooks(db, s);
      BooksKeepsBounded(db, db', s.id, SentRow(s, false));
    } else if Bounded(db) {
      forall x | x in db'.messages ensures RowBounded(db', db'.messages[x]) {
        assert RowBounded(db, db.messages[x]);
      }
    }
  }

  /** storeOutgoing books its own id and time also when the row was already there. */
  predicate Rebooks(db: Tables, s: Sent) { s.id in db.messages && NotOlder(s.ts, LastTs(db, s.chat)) }

  /** The row stored before it, if it rebooks one, is of the chat it is sent to. */
  predicate SameChat(db: Tables, s: Sent) { Rebooks(db, s) ==> db.messages[s.id].chat == s.chat }

  predicate SameChatAndTime(db: Tables, s: Sent) { SameChat(db, s) && (Rebooks(db, s) ==> db.messages[s.id].ts == s.ts) }

  lemma RebookedRow(db: Tables, s: Sent, j: Jid)
    requires s.id in db.messages && j in StoreOutgoing(db, s).chats
    ensures var db' := StoreOutgoing(db, s);
      && db'.messages == db.messages
      && (j != s.chat ==> j in db.chats && db'.chats[j] == db.chats[j])
      && (j == s.chat && Rebooks(db, s) ==> db'.chats[j].lastId == Some(s.id) && db'.chats[j].lastTs == Some(s.ts))
      && (j == s.chat && !Rebooks(db, s) ==> j in db.chats && SameLast(db'.chats[j], db.chats[j]))
  {
    SentTextParts(db, s);
  }

  lemma SentTextIsNamedIff(db: Tables, s: Sent)
    requires Named(db)
    ensures Named(StoreOutgoing(db, s)) <==> SameChat(db, s)
  {
    var db' := StoreOutgoing(db, s);
    if s.id !in db.messages {
      NewSentTextBooks(db, s);
      BooksKeepsLast(db, db', s.id, SentRow(s, false));
    } else {
      SentTextParts(db, s);
      forall j | j in db'.chats ensures j != s.chat || !Rebooks(db, s) ==> LastIsRow(db', j, db'.chats[j]) {
        RebookedRow(db, s, j);
        assert j in db.chats ==> LastIsRow(db, j, db.chats[j]);
      }
      RebookedRow(db, s, s.chat);
      assert Rebooks(db, s) ==> (LastIsRow(db', s.chat, db'.chats[s.chat]) <==> SameChat(db, s));
    }
  }

  lemma SentTextIsExactIff(db: Tables, s: Sent)
    requires Attained(db)
    ensures Attained(StoreOutgoing(db, s)) <==> SameChatAndTime(db, s)
  {
    var db' := StoreOutgoing(db, s);
    if s.id !in db.messages {
      NewSentTextBooks(db, s);
      BooksKeepsLast(db, db', s.id, SentRow(s, false));
    } else {
      SentTextParts(db, s);
      forall j | j in db'.chats ensures j != s.chat || !Rebooks(db, s) ==> LastIsAttained(db', j, db'.chats[j]) {
        RebookedRow(db, s, j);
        assert j in db.chats ==> LastIsAttained(db, j, db.chats[j]);
      }
      RebookedRow(db, s, s.chat);
      assert Rebooks(db, s) ==> (LastIsAttained(db', s.chat, db'.chats[s.chat]) <==> SameChatAndTime(db, s));
    }
  }

  /** Operations that are quiet on every table state. */
  predicate AlwaysQuiet(op: Op) { op.OnReceipt? || op.OnContact? || op.OnGroup? || op.ReadChat? || op.NameChat? }

  function ReadBy(op: Op): Option<Jid> {
    match op
    case OnReceipt(r) => Cleared(r)
    case ReadChat(jid, ids) => if ids == [] then None else Some(jid)
    case _ => None
  }

  lemma OpIsQuiet(db: Tables, op: Op)
    requires AlwaysQuiet(op)
    ensures Quiet(db, Apply(db, op), ReadBy(op))
  {
    match op
    case OnReceipt(r) => ReceiptIsQuiet(db, r);
    case OnContact(jid, pn, contact) => ContactIsQuiet(db, jid, pn, contact);
    case OnGroup(jid, name) => GroupIsQuiet(db, jid, name);
    case ReadChat(jid, ids) => ReadIsQuiet(db, jid, ids);
    case NameChat(jid, group, name) => UpsertIsQuiet(db, jid, group, name);
    case _ =>
  }

  /** What `op` must meet so that last_message_id keeps naming a row of its chat. */
  predicate KeepsNames(db: Tables, op: Op) { op.SendText? ==> SameChat(db, op.sent) }

  /** What `op` must meet so that the last-message columns stay exact. */
  predicate KeepsExact(db: Tables, op: Op) {
    if op.SendText? then SameChatAndTime(db, op.sent)
    else op.OnHistory? ==> NoNewerTime(db, op.c)
  }

  lemma OpKeepsBounded(db: Tables, op: Op)
    ensures TsGrows(db, Apply(db, op)) && (Bounded(db) ==> Bounded(Apply(db, op)))
  {
    if AlwaysQuiet(op) {
      OpIsQuiet(db, op);
      QuietKeeps(db, Apply(db, op));
    } else if op.OnMessage? {
      MessageKeeps(db, op.m);
    } else if op.OnHistory? {
      HistoryKeeps(db, op.c);
    } else if op.SendMedia? {
      SentMediaKeeps(db, op.sent);
    } else {
      SentTextKeeps(db, op.sent);
    }
  }

  lemma OpKeepsNamedIff(db: Tables, op: Op)
    requires Named(db)
    ensures Named(Apply(db, op)) <==> KeepsNames(db, op)
  {
    if AlwaysQuiet(op) {
      OpIsQuiet(db, op);
      QuietKeeps(db, Apply(db, op));
    } else if op.OnMessage? {
      MessageKeeps(db, op.m);
    } else if op.OnHistory? {
      HistoryKeeps(db, op.c);
    } else if op.SendMedia? {
      SentMediaKeeps(db, op.sent);
    } else {
      SentTextIsNamedIff(db, op.sent);
    }
  }

  lemma OpKeepsExactIff(db: Tables, op: Op)
    requires Attained(db)
    ensures Attained(Apply(db, op)) <==> KeepsExact(db, op)
  {
    if AlwaysQuiet(op) {
      OpIsQuiet(db, op);
      QuietKeeps(db, Apply(db, op));
    } else if op.OnMessage? {
      MessageKeeps(db, op.m);
    } else if op.OnHistory? {
      HistoryIsExactIff(db, op.c);
    } else if op.SendMedia? {
      SentMediaKeeps(db, op.sent);
    } else {
      SentTextIsExactIff(db, op.sent);
    }
  }

  // ------------------------------------------------------------------ whole runs

  /** last_message_ts never goes down and never falls below a row of its chat. */
  lemma {:induction false} LastTimestampOverRuns(db: Tables, ops: seq<Op>)
    requires Bounded(db)
    ensures Bounded(Exec(db, ops)) && TsGrows(db, Exec(db, ops))
    decreases |ops|
  {
    if ops != [] {
      var n := |ops| - 1;
      LastTimestampOverRuns(db, ops[..n]);
      OpKeepsBounded(Exec(db, ops[..n]), ops[n]);
      TsGrowsThen(db, Exec(db, ops[..n]), Exec(db, ops));
    }
  }

  /** Each operation of the run meets its condition in the state it is applied to. */
  predicate AllKeepNames(db: Tables, ops: seq<Op>)
    decreases |ops|
  {
    ops != [] ==>
      AllKeepNames(db, ops[..|ops| - 1]) && KeepsNames(Exec(db, ops[..|ops| - 1]), ops[|ops| - 1])
  }

  predicate AllKeepExact(db: Tables, ops: seq<Op>)
    decreases |ops|
  {
    ops != [] ==>
      AllKeepExact(db, ops[..|ops| - 1]) && KeepsExact(Exec(db, ops[..|ops| - 1]), ops[|ops| - 1])
  }

  /** last_message_id always names a row of its chat. */
  lemma {:induction false} LastIdOverRuns(db: Tables, ops: seq<Op>)
    requires Named(db) && AllKeepNames(db, ops)
    ensures Named(Exec(db, ops))
    decreases |ops|
  {
    if ops != [] {
      var n := |ops| - 1;
      LastIdOverRuns(db, ops[..n]);
      OpKeepsNamedIff(Exec(db, ops[..n]), ops[n]);
    }
  }

  /** The newest row of a chat. */
  predicate IsNewest(db: Tables, j: Jid, x: Id) {
    && x in db.messages && db.messages[x].chat == j
    && forall y :: y in db.messages && db.messages[y].chat == j ==> db.messages[y].ts <= db.messages[x].ts
  }

  lemma {:induction false} AttainedOverRuns(db: Tables, ops: seq<Op>)
    requires Attained(db) && AllKeepExact(db, ops)
    ensures Attained(Exec(db, ops))
    decreases |ops|
  {
    if ops != [] {
      var n := |ops| - 1;
      AttainedOverRuns(db, ops[..n]);
      OpKeepsExactIff(Exec(db, ops[..n]), ops[n]);
    }
  }

  /** Runs without history sync and storeOutgoing meet the condition everywhere. */
  lemma {:induction false} PlainRunsKeepExact(db: Tables, ops: seq<Op>)
    requires forall i :: 0 <= i < |ops| ==> !ops[i].SendText? && !ops[i].OnHistory?
    ensures AllKeepExact(db, ops)
    decreases |ops|
  {
    if ops != [] {
      PlainRunsKeepExact(db, ops[..|ops| - 1]);
    }
  }

  /** The columns are exact: a chat has a last message iff it has rows, and then its id is a
      newest row and its time that row's. */
  lemma LastMessageIsExact(db: Tables, ops: seq<Op>, j: Jid)
    requires Bounded(db) && Attained(db) && AllKeepExact(db, ops)
    ensures var s := Exec(db, ops);
      && (LastTs(s, j).Some? <==> exists x :: x in s.messages && s.messages[x].chat == j)
      && (LastTs(s, j).Some? ==>
            && s.chats[j].lastId.Some? && IsNewest(s, j, s.chats[j].lastId.value)
            && s.messages[s.chats[j].lastId.value].ts == LastTs(s, j).value)
  {
    LastTimestampOverRuns(db, ops);
    AttainedOverRuns(db, ops);
    var s := Exec(db, ops);
    if LastTs(s, j).Some? {
      assert LastIsAttained(s, j, s.chats[j]);
      var x := s.chats[j].lastId.value;
      forall y | y in s.messages && s.messages[y].chat == j ensures s.messages[y].ts <= s.messages[x].ts {
        assert RowBounded(s, s.messages[y]);
      }
    }
    if y :| y in s.messages && s.messages[y].chat == j {
      assert RowBounded(s, s.messages[y]);
    }
  }

  /** storeOutgoing after the server's echo breaks exactness: it books its own time for a row
      that keeps the echo's. */
  lemma StoreOutgoingBreaksExactness() returns (echo: WaMessage, sent: Sent)
    ensures var db1 := PersistMessage(EMPTY, echo); Attained(db1) && !Attained(StoreOutgoing(db1, sent))
  {
    echo := WaMessage("x", "c", "me", true, false, 5, "", "", Content("hi", "text", "", None));
    sent := Sent("x", "c", "me", false, "", 9, "text", "hi", "");
    MessageKeeps(EMPTY, echo);
    NewMessageParts(EMPTY, echo);
    SentTextIsExactIff(PersistMessage(EMPTY, echo), sent);
  }

  /** A conversation that reports a later time than the one message it has. */
  lemma HistoryBreaksExactness() returns (c: Conversation)
    ensures Attained(EMPTY) && !Attained(PersistConversation(EMPTY, c))
  {
    var text := WaMessage("m", "c", "s", false, false, 1000, "", "", Content("hi", "text", "", None));
    c := Conversation("c", false, "", 2, 0, [text]);
    assert !SomeNewRow({}, [text], "c", 2000);
    assert EMPTY.messages.Keys == {};
    HistoryIsExactIff(EMPTY, c);
  }
}
