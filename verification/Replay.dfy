/**
 Replaying a history conversation: applying it a second time, with whatever names
 the resolver then answers, leaves messages, reactions, unread counts and last
 messages as the first application left them.
 */
module Replay {
  import opened Wrappers
  import opened Tables
  import opened Persister
  import opened PersistFacts

  // ------------------------------------------------- what a batch does to one row

  function RowFold(row: Message, x: Id, batch: seq<WaMessage>): Message
    decreases |batch|
  {
    if batch == [] then row else RowFold(RowStep(row, x, batch[0]), x, batch[1..])
  }

  /** Edits and revokes only ever set a column or keep it; this is their joint effect. */
  datatype Effect = Effect(edited: bool, deleted: Option<bool>, text: Option<Option<string>>)

  function EffectOf(x: Id, m: WaMessage): Effect {
    if Target(m) != Some(x) then Effect(false, None, None)
    else if m.body.Revoke? then Effect(false, Some(true), Some(None))
    else if m.body.Edit? then Effect(true, Some(false), if m.body.newText != "" then Some(Some(m.body.newText)) else None)
    else Effect(false, None, None)
  }

  function Then(e: Effect, f: Effect): Effect {
    Effect(e.edited || f.edited, if f.deleted.Some? then f.deleted else e.deleted, if f.text.Some? then f.text else e.text)
  }

  function EffectOfAll(x: Id, batch: seq<WaMessage>): Effect
    decreases |batch|
  {
    if batch == [] then Effect(false, None, None) else Then(EffectOf(x, batch[0]), EffectOfAll(x, batch[1..]))
  }

  function Run(e: Effect, row: Message): Message {
    row.(edited := row.edited || e.edited,
         deleted := if e.deleted.Some? then e.deleted.value else row.deleted,
         text := if e.text.Some? then e.text.value else row.text)
  }

  lemma {:induction false} FoldIsEffect(row: Message, x: Id, batch: seq<WaMessage>)
    ensures RowFold(row, x, batch) == Run(EffectOfAll(x, batch), row)
    decreases |batch|
  {
    if batch != [] {
      FoldIsEffect(RowStep(row, x, batch[0]), x, batch[1..]);
    }
  }

  lemma FoldTwiceIsOnce(row: Message, x: Id, batch: seq<WaMessage>)
    ensures RowFold(RowFold(row, x, batch), x, batch) == RowFold(row, x, batch)
  {
    FoldIsEffect(row, x, batch);
    FoldIsEffect(RowFold(row, x, batch), x, batch);
  }

  // --------------------------------------------------------- the messages table

  lemma {:induction false} StoredRowIsFolded(db: Tables, batch: seq<WaMessage>, x: Id)
    requires x in db.messages
    ensures x in PersistMessages(db, batch).messages
    ensures PersistMessages(db, batch).messages[x] == RowFold(db.messages[x], x, batch)
    decreases |batch|
  {
    if batch != [] {
      MessagesAfterOne(db, batch[0]);
      StoredRowIsFolded(PersistMessage(db, batch[0]), batch[1..], x);
    }
  }

  lemma {:induction false} NewRowIsFolded(db: Tables, batch: seq<WaMessage>, i: nat)
    requires i < |batch| && Inserts(db.messages.Keys, batch, i)
    ensures batch[i].id in PersistMessages(db, batch).messages
    ensures PersistMessages(db, batch).messages[batch[i].id] == RowFold(RowOf(batch[i]), batch[i].id, batch[i + 1..])
    decreases |batch|
  {
    var db' := PersistMessage(db, batch[0]);
    MessagesAfterOne(db, batch[0]);
    if i == 0 {
      StoredRowIsFolded(db', batch[1..], batch[0].id);
    } else {
      KnownAfterOne(db, batch[0]);
      InsertsBelow(db.messages.Keys, batch, i);
      NewRowIsFolded(db', batch[1..], i - 1);
    }
  }

  lemma {:induction false} InsertedAt(db: Tables, batch: seq<WaMessage>, x: Id) returns (i: nat)
    requires x !in db.messages && x in PersistMessages(db, batch).messages
    ensures i < |batch| && Inserts(db.messages.Keys, batch, i) && batch[i].id == x
    decreases |batch|
  {
    i := 0;
    if !IsContent(batch[0]) || batch[0].id != x {
      KnownAfterOne(db, batch[0]);
      i := InsertedAt(PersistMessage(db, batch[0]), batch[1..], x);
      i := i + 1;
      InsertsBelow(db.messages.Keys, batch, i);
    }
  }

  lemma {:induction false} EffectSplits(x: Id, batch: seq<WaMessage>, i: nat)
    requires i < |batch|
    ensures EffectOfAll(x, batch)
      == Then(EffectOfAll(x, batch[..i]), Then(EffectOf(x, batch[i]), EffectOfAll(x, batch[i + 1..])))
    decreases i
  {
    if i > 0 {
      EffectSplits(x, batch[1..], i - 1);
      assert batch[..i][1..] == batch[1..][..i - 1];
    }
  }

  /** What the changes in front of an insertion would do to the row shows neither in the text
      it is stored with nor behind the changes that come later. */
  predicate Covered(early: Effect, late: Effect, text: Option<string>) {
    && (early.edited ==> late.edited)
    && (early.deleted == Some(true) ==> late.deleted.Some?)
    && (early.text.Some? && early.text.value != text ==> late.text.Some?)
  }

  predicate RowSettles(batch: seq<WaMessage>, i: nat)
    requires i < |batch| && IsContent(batch[i])
  {
    var x := batch[i].id;
    Covered(EffectOfAll(x, batch[..i]), EffectOfAll(x, batch[i + 1..]), RowOf(batch[i]).text)
  }

  /** A new row is a fixed point of the whole batch iff the early changes are covered. */
  lemma RowSettlesIff(db: Tables, batch: seq<WaMessage>, i: nat)
    requires i < |batch| && Inserts(db.messages.Keys, batch, i)
    ensures batch[i].id in PersistMessages(db, batch).messages
    ensures var row := PersistMessages(db, batch).messages[batch[i].id];
      RowFold(row, batch[i].id, batch) == row <==> RowSettles(batch, i)
  {
    var x := batch[i].id;
    NewRowIsFolded(db, batch, i);
    var row := PersistMessages(db, batch).messages[x];
    FoldIsEffect(RowOf(batch[i]), x, batch[i + 1..]);
    FoldIsEffect(row, x, batch);
    EffectSplits(x, batch, i);
  }

  predicate RowsSettle(known: set<Id>, batch: seq<WaMessage>) {
    forall i :: 0 <= i < |batch| && Inserts(known, batch, i) ==> RowSettles(batch, i)
  }

  /** After a batch every row is a fixed point of the batch's edits and revokes. */
  lemma RowsAreSettled(db: Tables, batch: seq<WaMessage>, x: Id)
    requires RowsSettle(db.messages.Keys, batch)
    requires x in PersistMessages(db, batch).messages
    ensures var row := PersistMessages(db, batch).messages[x]; RowFold(row, x, batch) == row
  {
    if x in db.messages {
      StoredRowIsFolded(db, batch, x);
      FoldTwiceIsOnce(db.messages[x], x, batch);
    } else {
      var i := InsertedAt(db, batch, x);
      RowSettlesIff(db, batch, i);
    }
  }

  // -------------------------------------------------------- the reactions table

  function Current(db: Tables, k: (Id, Jid)): Option<Reaction> {
    if k in db.reactions then Some(db.reactions[k]) else None
  }

  /** What `m` sets the reaction `k` to, when it sets it. */
  function ReactionSet(m: WaMessage, k: (Id, Jid), stored: set<Id>): Option<Option<Reaction>> {
    if Ignored(m) || !m.body.React? || k.0 == "" || k.1 == "" || m.body.target != k.0 || m.sender != k.1 then None
    else if m.body.emoji.None? then Some(None)
    else if k.0 in stored then Some(Some(Reaction(m.chat, m.body.emoji.value, m.fromMe, m.ts)))
    else None
  }

  function LastSet(batch: seq<WaMessage>, k: (Id, Jid), stored: set<Id>): Option<Option<Reaction>>
    decreases |batch|
  {
    if batch == [] then None
    else
      var later := LastSet(batch[1..], k, stored);
      if later.Some? then later else ReactionSet(batch[0], k, stored)
  }

  lemma ReactSets(db: Tables, m: WaMessage, k: (Id, Jid))
    requires !Ignored(m) && m.body.React?
    ensures var set1 := ReactionSet(m, k, db.messages.Keys);
      Current(PersistOther(db, m), k) == if set1.Some? then set1.value else Current(db, k)
  {
  }

  lemma ReactionAfterOne(db: Tables, m: WaMessage, k: (Id, Jid))
    ensures var set1 := ReactionSet(m, k, db.messages.Keys);
      Current(PersistMessage(db, m), k) == if set1.Some? then set1.value else Current(db, k)
  {
    if IsContent(m) {
      ContentParts(db, m);
    } else if !Ignored(m) && m.body.Revoke? {
      RevokeParts(db, m, k.0);
    } else if !Ignored(m) && m.body.Edit? {
      EditParts(db, m, k.0);
    } else if !Ignored(m) && m.body.React? {
      ReactSets(db, m, k);
    }
  }

  function Key(m: WaMessage): (Id, Jid)
    requires m.body.React?
  {
    (m.body.target, m.sender)
  }

  /** A reaction to a message that is stored only later: it has no effect now. */
  predicate ReactsEarly(known: set<Id>, m: WaMessage, stored: set<Id>) {
    && !Ignored(m) && m.body.React? && m.body.target != "" && m.sender != "" && m.body.emoji.Some?
    && m.body.target !in known && m.body.target in stored
  }

  /** Each early reaction is followed by another one of the same sender to the same message. */
  predicate ReactionsSettle(known: set<Id>, batch: seq<WaMessage>, stored: set<Id>)
    decreases |batch|
  {
    batch != [] ==>
      && (ReactsEarly(known, batch[0], stored) ==> LastSet(batch[1..], Key(batch[0]), stored).Some?)
      && ReactionsSettle(Known(known, batch[0]), batch[1..], stored)
  }

  lemma {:induction false} ReactionIsLastSet(db: Tables, batch: seq<WaMessage>, k: (Id, Jid), stored: set<Id>)
    requires ReactionsSettle(db.messages.Keys, batch, stored) && PersistMessages(db, batch).messages.Keys <= stored
    ensures var last := LastSet(batch, k, stored);
      Current(PersistMessages(db, batch), k) == if last.Some? then last.value else Current(db, k)
    decreases |batch|
  {
    if batch != [] {
      var db' := PersistMessage(db, batch[0]);
      ReactionAfterOne(db, batch[0], k);
      MessagesAfterOne(db, batch[0]);
      KnownAfterOne(db, batch[0]);
      MessagesGrow(db, batch);
      ReactionIsLastSet(db', batch[1..], k, stored);
    }
  }

  /** A reaction that a batch does not set stays. */
  lemma {:induction false} ReactionStays(db: Tables, batch: seq<WaMessage>, k: (Id, Jid), stored: set<Id>)
    requires LastSet(batch, k, stored).None? && PersistMessages(db, batch).messages.Keys <= stored
    ensures Current(PersistMessages(db, batch), k) == Current(db, k)
    decreases |batch|
  {
    if batch != [] {
      ReactionAfterOne(db, batch[0], k);
      MessagesGrow(db, batch);
      ReactionStays(PersistMessage(db, batch[0]), batch[1..], k, stored);
    }
  }

  /** The foreign key of the reactions. */
  predicate ReactionsResolved(db: Tables) { forall k :: k in db.reactions ==> k.0 in db.messages }

  lemma ReactionsStayResolved(db: Tables, m: WaMessage)
    requires ReactionsResolved(db)
    ensures ReactionsResolved(PersistMessage(db, m))
  {
    var db' := PersistMessage(db, m);
    MessagesAfterOne(db, m);
    forall k | k in db'.reactions ensures k.0 in db'.messages {
      ReactionAfterOne(db, m, k);
      assert Current(db', k).Some?;
      assert k !in db.reactions ==> Current(db, k).None?;
    }
  }

  /** An early reaction that no other one follows is not in the tables after the batch. */
  lemma {:induction false} LostReaction(db: Tables, batch: seq<WaMessage>, stored: set<Id>) returns (k: (Id, Jid))
    requires ReactionsResolved(db) && !ReactionsSettle(db.messages.Keys, batch, stored)
    requires PersistMessages(db, batch).messages.Keys <= stored
    ensures LastSet(batch, k, stored).Some? && LastSet(batch, k, stored).value.Some?
    ensures Current(PersistMessages(db, batch), k).None?
    decreases |batch|
  {
    var m, db' := batch[0], PersistMessage(db, batch[0]);
    MessagesAfterOne(db, m);
    if ReactsEarly(db.messages.Keys, m, stored) && LastSet(batch[1..], Key(m), stored).None? {
      k := Key(m);
      ReactionAfterOne(db, m, k);
      ReactionStays(db', batch[1..], k, stored);
    } else {
      KnownAfterOne(db, m);
      ReactionsStayResolved(db, m);
      k := LostReaction(db', batch[1..], stored);
    }
  }

  /** With all targets stored no reaction is early. */
  lemma {:induction false} NothingIsEarly(known: set<Id>, batch: seq<WaMessage>, stored: set<Id>)
    requires stored <= known
    ensures ReactionsSettle(known, batch, stored)
    decreases |batch|
  {
    if batch != [] {
      NothingIsEarly(Known(known, batch[0]), batch[1..], stored);
    }
  }

  lemma {:induction false} MessagesGrow(db: Tables, batch: seq<WaMessage>)
    ensures db.messages.Keys <= PersistMessages(db, batch).messages.Keys
    decreases |batch|
  {
    if batch != [] {
      MessagesAfterOne(db, batch[0]);
      MessagesGrow(PersistMessage(db, batch[0]), batch[1..]);
    }
  }

  // ------------------------------------------------------------ the chats table

  /** The chat rows agree on everything but the display name. */
  predicate SameChats(a: map<Jid, Chat>, b: map<Jid, Chat>) {
    a.Keys == b.Keys && forall j :: j in a ==> a[j].(name := "") == b[j].(name := "")
  }

  /** Applying `m` again cannot insert a row nor change the kind of its chat. */
  predicate Settled(db: Tables, m: WaMessage) {
    IsContent(m) ==>
      m.id in db.messages && m.chat in db.chats && (m.group ==> db.chats[m.chat].group)
  }

  lemma SettledAfterOne(db: Tables, m: WaMessage)
    ensures Settled(PersistMessage(db, m), m)
  {
    MessagesAfterOne(db, m);
    ChatsAfterOne(db, m);
  }

  lemma SettledStays(db: Tables, m: WaMessage, n: WaMessage)
    requires Settled(db, m)
    ensures Settled(PersistMessage(db, n), m)
  {
    MessagesAfterOne(db, n);
    ChatsAfterOne(db, n);
  }

  lemma {:induction false} SettledStaysForAll(db: Tables, m: WaMessage, batch: seq<WaMessage>)
    requires Settled(db, m)
    ensures Settled(PersistMessages(db, batch), m)
    decreases |batch|
  {
    if batch != [] {
      SettledStays(db, m, batch[0]);
      SettledStaysForAll(PersistMessage(db, batch[0]), m, batch[1..]);
    }
  }

  lemma {:induction false} BatchIsSettled(db: Tables, batch: seq<WaMessage>, i: nat)
    requires i < |batch|
    ensures Settled(PersistMessages(db, batch), batch[i])
    decreases |batch|
  {
    var db' := PersistMessage(db, batch[0]);
    if i == 0 {
      SettledAfterOne(db, batch[0]);
      SettledStaysForAll(db', batch[0], batch[1..]);
    } else {
      BatchIsSettled(db', batch[1..], i - 1);
    }
  }

  lemma SettledLeavesChats(db: Tables, m: WaMessage)
    requires Settled(db, m)
    ensures SameChats(PersistMessage(db, m).chats, db.chats)
  {
    ChatsAfterOne(db, m);
  }

  // ------------------------------------------------------------------ the replay

  /** `again` is the same batch, as the resolver names its chats the second time. */
  predicate SameButNames(batch: seq<WaMessage>, again: seq<WaMessage>) {
    |batch| == |again| && forall i :: 0 <= i < |batch| ==> batch[i].(name := "") == again[i].(name := "")
  }

  lemma {:induction false} NamesDoNotMatter(row: Message, x: Id, batch: seq<WaMessage>, again: seq<WaMessage>)
    requires SameButNames(batch, again)
    ensures RowFold(row, x, batch) == RowFold(row, x, again)
    decreases |batch|
  {
    if batch != [] {
      assert batch[0].(name := "") == again[0].(name := "");
      assert RowStep(row, x, batch[0]) == RowStep(row, x, again[0]);
      NamesDoNotMatter(RowStep(row, x, batch[0]), x, batch[1..], again[1..]);
    }
  }

  lemma {:induction false} LastSetIgnoresNames(batch: seq<WaMessage>, again: seq<WaMessage>, k: (Id, Jid), stored: set<Id>)
    requires SameButNames(batch, again)
    ensures LastSet(batch, k, stored) == LastSet(again, k, stored)
    decreases |batch|
  {
    if batch != [] {
      assert batch[0].(name := "") == again[0].(name := "");
      assert ReactionSet(batch[0], k, stored) == ReactionSet(again[0], k, stored);
      LastSetIgnoresNames(batch[1..], again[1..], k, stored);
    }
  }

  /** A settled batch inserts nothing and leaves the chats alone. */
  lemma {:induction false} SettledBatch(db: Tables, batch: seq<WaMessage>)
    requires forall i :: 0 <= i < |batch| ==> Settled(db, batch[i])
    ensures PersistMessages(db, batch).messages.Keys == db.messages.Keys
    ensures SameChats(PersistMessages(db, batch).chats, db.chats)
    decreases |batch|
  {
    if batch != [] {
      var db' := PersistMessage(db, batch[0]);
      MessagesAfterOne(db, batch[0]);
      SettledLeavesChats(db, batch[0]);
      forall i | 0 <= i < |batch[1..]| ensures Settled(db', batch[1..][i]) {
        SettledStays(db, batch[i + 1], batch[0]);
      }
      SettledBatch(db', batch[1..]);
    }
  }

  ghost predicate SameCore(a: Tables, b: Tables) {
    a.messages == b.messages && a.reactions == b.reactions && SameChats(a.chats, b.chats)
  }

  /** What a batch must meet so that a second time changes nothing: the edits and revokes in
      front of a new row are covered by later ones, and the reactions in front of it are
      followed by others. */
  predicate Settles(known: set<Id>, batch: seq<WaMessage>) {
    RowsSettle(known, batch) && ReactionsSettle(known, batch, Stored(known, batch))
  }

  /** `db1` has the rows and reactions that `batch` leaves and may differ in names. */
  ghost predicate HasBatch(db: Tables, batch: seq<WaMessage>, again: seq<WaMessage>, db1: Tables) {
    && SameButNames(batch, again)
    && db1.messages == PersistMessages(db, batch).messages
    && db1.reactions == PersistMessages(db, batch).reactions
    && forall i :: 0 <= i < |again| ==> Settled(db1, again[i])
  }

  lemma RowAgain(db: Tables, batch: seq<WaMessage>, again: seq<WaMessage>, db1: Tables, x: Id)
    requires HasBatch(db, batch, again, db1) && x in db1.messages
    ensures x in PersistMessages(db1, again).messages
    ensures PersistMessages(db1, again).messages[x] == RowFold(db1.messages[x], x, batch)
  {
    StoredRowIsFolded(db1, again, x);
    NamesDoNotMatter(db1.messages[x], x, batch, again);
  }

  lemma ReactionAgain(db: Tables, batch: seq<WaMessage>, again: seq<WaMessage>, db1: Tables, k: (Id, Jid))
    requires HasBatch(db, batch, again, db1)
    ensures var last := LastSet(batch, k, Stored(db.messages.Keys, batch));
      Current(PersistMessages(db1, again), k) == if last.Some? then last.value else Current(db1, k)
  {
    var stored := db1.messages.Keys;
    StoredKeys(db, batch);
    SettledBatch(db1, again);
    NothingIsEarly(stored, again, stored);
    ReactionIsLastSet(db1, again, k, stored);
    LastSetIgnoresNames(batch, again, k, stored);
  }

  lemma SameReactions(a: Tables, b: Tables)
    requires forall k :: Current(a, k) == Current(b, k)
    ensures a.reactions == b.reactions
  {
    forall k | k in a.reactions ensures k in b.reactions && a.reactions[k] == b.reactions[k] {
      assert Current(a, k) == Current(b, k);
    }
    forall k | k in b.reactions ensures k in a.reactions {
      assert Current(a, k) == Current(b, k);
    }
  }

  /** Once a batch is in the tables, applying it again changes no message, reaction, unread
      counter or last-message column. */
  lemma BatchAgain(db: Tables, batch: seq<WaMessage>, again: seq<WaMessage>, db1: Tables)
    requires HasBatch(db, batch, again, db1) && Settles(db.messages.Keys, batch)
    ensures SameCore(PersistMessages(db1, again), db1)
  {
    var twice := PersistMessages(db1, again);
    SettledBatch(db1, again);
    forall x | x in db1.messages ensures twice.messages[x] == db1.messages[x] {
      RowAgain(db, batch, again, db1, x);
      RowsAreSettled(db, batch, x);
    }
    StoredKeys(db, batch);
    forall k ensures Current(twice, k) == Current(db1, k) {
      ReactionAgain(db, batch, again, db1, k);
      ReactionIsLastSet(db, batch, k, db1.messages.Keys);
    }
    SameReactions(twice, db1);
  }

  /** And if the batch does not meet the condition, a row or a reaction changes. */
  lemma BatchChanges(db: Tables, batch: seq<WaMessage>, again: seq<WaMessage>, db1: Tables)
    requires HasBatch(db, batch, again, db1) && !Settles(db.messages.Keys, batch) && ReactionsResolved(db)
    ensures PersistMessages(db1, again).messages != db1.messages || PersistMessages(db1, again).reactions != db1.reactions
  {
    var twice := PersistMessages(db1, again);
    if RowsSettle(db.messages.Keys, batch) {
      StoredKeys(db, batch);
      var k := LostReaction(db, batch, db1.messages.Keys);
      ReactionAgain(db, batch, again, db1, k);
      assert Current(twice, k) != Current(db1, k);
    } else {
      var i :| 0 <= i < |batch| && Inserts(db.messages.Keys, batch, i) && !RowSettles(batch, i);
      RowSettlesIff(db, batch, i);
      RowAgain(db, batch, again, db1, batch[i].id);
    }
  }

  /** The state in which the messages of a conversation are applied. */
  function Opened(db: Tables, c: Conversation): Tables { UpsertChat(db, c.chat, c.group, c.name) }

  predicate Finished(db: Tables, c: Conversation) {
    && c.chat in db.chats
    && (c.group ==> db.chats[c.chat].group)
    && (c.lastTs > 0 ==> db.chats[c.chat].lastTs.Some? && db.chats[c.chat].lastTs.value >= c.lastTs * 1000)
    && db.chats[c.chat].unread == (if c.unread < 0 then 0 else c.unread)
  }

  function FinishedRow(row: Chat, c: Conversation): Chat {
    var row2 := if c.name != "" then UpsertedRow(Some(row), c.group, c.name) else row;
    var row3 := if c.lastTs > 0 then LastTsRow(row2, c.lastTs * 1000) else row2;
    UnreadRow(row3, c.unread)
  }

  lemma FinishTail(db: Tables, c: Conversation)
    requires c.chat in db.chats
    ensures var row3 := if c.lastTs > 0 then LastTsRow(db.chats[c.chat], c.lastTs * 1000) else db.chats[c.chat];
      SetUnread(if c.lastTs > 0 then SetChatLastTimestamp(db, c.chat, c.lastTs * 1000) else db, c.chat, c.unread)
        == PutChat(db, c.chat, UnreadRow(row3, c.unread))
  {
    var row3 := LastTsRow(db.chats[c.chat], c.lastTs * 1000);
    PutChatTwice(db, c.chat, row3, UnreadRow(row3, c.unread));
  }

  lemma FinishParts(db: Tables, c: Conversation)
    requires c.chat in db.chats
    ensures Closed(db, c) == PutChat(db, c.chat, FinishedRow(db.chats[c.chat], c))
  {
    var row := db.chats[c.chat];
    var row2 := UpsertedRow(Some(row), c.group, c.name);
    FinishTail(if c.name != "" then PutChat(db, c.chat, row2) else db, c);
    PutChatTwice(db, c.chat, row2, FinishedRow(row, c));
  }

  lemma FinishIsFinished(db: Tables, c: Conversation)
    requires c.chat in db.chats && (c.group ==> db.chats[c.chat].group)
    ensures Finished(Closed(db, c), c)
    ensures Closed(db, c) == PutChat(db, c.chat, FinishedRow(db.chats[c.chat], c))
  {
    FinishParts(db, c);
  }

  lemma FinishedStays(db: Tables, c: Conversation)
    requires Finished(db, c)
    ensures SameCore(Closed(db, c), db)
  {
    FinishParts(db, c);
  }

  lemma FinishedStaysOpen(db: Tables, c: Conversation)
    requires Finished(db, c)
    ensures SameCore(Opened(db, c), db) && Finished(Opened(db, c), c)
  {
  }

  lemma FinishedIgnoresNames(a: Tables, b: Tables, c: Conversation)
    requires Finished(a, c) && SameChats(a.chats, b.chats)
    ensures Finished(b, c)
  {
    assert a.chats[c.chat].(name := "") == b.chats[c.chat].(name := "");
  }

  lemma {:induction false} ChatStays(db: Tables, batch: seq<WaMessage>, c: Conversation)
    requires c.chat in db.chats && (c.group ==> db.chats[c.chat].group)
    ensures c.chat in PersistMessages(db, batch).chats && (c.group ==> PersistMessages(db, batch).chats[c.chat].group)
    decreases |batch|
  {
    if batch != [] {
      ChatsAfterOne(db, batch[0]);
      ChatStays(PersistMessage(db, batch[0]), batch[1..], c);
    }
  }

  lemma SettledIgnoresTheRest(a: Tables, b: Tables, m: WaMessage, n: WaMessage)
    requires Settled(a, m) && a.messages.Keys == b.messages.Keys && m.(name := "") == n.(name := "")
    requires forall j :: j in a.chats ==> j in b.chats && (a.chats[j].group ==> b.chats[j].group)
    ensures Settled(b, n)
  {
  }

  lemma ReadyAgain(db: Tables, c: Conversation, again: Conversation)
    requires c.chat != ""
    requires again == c.(name := again.name, messages := again.messages) && SameButNames(c.messages, again.messages)
    ensures var once := PersistConversation(db, c);
      && Finished(once, again)
      && once.messages == PersistMessages(Opened(db, c), c.messages).messages
      && once.reactions == PersistMessages(Opened(db, c), c.messages).reactions
      && forall i :: 0 <= i < |again.messages| ==> Settled(once, again.messages[i])
  {
    var ready := Opened(db, c);
    var applied := PersistMessages(ready, c.messages);
    var once := PersistConversation(db, c);
    ChatStays(ready, c.messages, c);
    FinishIsFinished(applied, c);
    assert once == Closed(applied, c);
    forall i | 0 <= i < |again.messages| ensures Settled(once, again.messages[i]) {
      BatchIsSettled(ready, c.messages, i);
      SettledIgnoresTheRest(applied, once, c.messages[i], again.messages[i]);
    }
  }

  lemma AppliedAgain(db: Tables, c: Conversation, again: Conversation)
    requires c.chat != ""
    requires again == c.(name := again.name, messages := again.messages) && SameButNames(c.messages, again.messages)
    ensures var once := PersistConversation(db, c);
      && HasBatch(Opened(db, c), c.messages, again.messages, Opened(once, again))
      && Finished(once, again) && SameCore(Opened(once, again), once)
  {
    ReadyAgain(db, c, again);
    var once := PersistConversation(db, c);
    var readyAgain := Opened(once, again);
    FinishedStaysOpen(once, again);
    forall i | 0 <= i < |again.messages| ensures Settled(readyAgain, again.messages[i]) {
      SettledIgnoresTheRest(once, readyAgain, again.messages[i], again.messages[i]);
    }
  }

  /** Applying a history conversation twice equals applying it once, up to display names and
      contacts, for any starting tables and whatever the resolver answers each time. */
  lemma ReplayIsIdempotent(db: Tables, c: Conversation, again: Conversation)
    requires c.chat == "" || Settles(db.messages.Keys, c.messages)
    requires again == c.(name := again.name, messages := again.messages) && SameButNames(c.messages, again.messages)
    ensures var once := PersistConversation(db, c); SameCore(PersistConversation(once, again), once)
  {
    if c.chat != "" {
      AppliedAgain(db, c, again);
      var once := PersistConversation(db, c);
      var readyAgain := Opened(once, again);
      BatchAgain(Opened(db, c), c.messages, again.messages, readyAgain);
      var applied := PersistMessages(readyAgain, again.messages);
      FinishedStaysOpen(once, again);
      FinishedIgnoresNames(readyAgain, applied, again);
      FinishedStays(applied, again);
      assert PersistConversation(once, again) == Closed(applied, again);
    }
  }

  /** Exactly then, when every reaction's message is stored. */
  lemma ReplayIsIdempotentIff(db: Tables, c: Conversation, again: Conversation)
    requires ReactionsResolved(db)
    requires again == c.(name := again.name, messages := again.messages) && SameButNames(c.messages, again.messages)
    ensures var once := PersistConversation(db, c);
      SameCore(PersistConversation(once, again), once) <==> c.chat == "" || Settles(db.messages.Keys, c.messages)
  {
    if c.chat == "" || Settles(db.messages.Keys, c.messages) {
      ReplayIsIdempotent(db, c, again);
    } else {
      AppliedAgain(db, c, again);
      var once := PersistConversation(db, c);
      var readyAgain := Opened(once, again);
      BatchChanges(Opened(db, c), c.messages, again.messages, readyAgain);
      var applied := PersistMessages(readyAgain, again.messages);
      SettledBatch(readyAgain, again.messages);
      FinishLeavesRows(applied, again);
      assert PersistConversation(once, again) == Closed(applied, again);
    }
  }

  lemma FinishLeavesRows(db: Tables, c: Conversation)
    requires c.chat in db.chats
    ensures Closed(db, c).messages == db.messages && Closed(db, c).reactions == db.reactions
  {
    FinishParts(db, c);
  }

  // ------------------------------------------------- a plainer condition, and a failure

  /** Each edit, revoke and reaction finds its target stored, or it is not stored at all. */
  predicate TargetsReady(known: set<Id>, batch: seq<WaMessage>, stored: set<Id>)
    decreases |batch|
  {
    batch != [] ==>
      && (Target(batch[0]).Some? && Target(batch[0]).value in stored ==> Target(batch[0]).value in known)
      && TargetsReady(Known(known, batch[0]), batch[1..], stored)
  }

  lemma {:induction false} StoredGrows(known: set<Id>, batch: seq<WaMessage>)
    ensures known <= Stored(known, batch)
    decreases |batch|
  {
    if batch != [] {
      StoredGrows(Known(known, batch[0]), batch[1..]);
    }
  }

  lemma {:induction false} InsertedIsStored(known: set<Id>, batch: seq<WaMessage>, i: nat)
    requires i < |batch| && IsContent(batch[i])
    ensures batch[i].id in Stored(known, batch)
    decreases |batch|
  {
    if i == 0 {
      StoredGrows(Known(known, batch[0]), batch[1..]);
    } else {
      InsertedIsStored(Known(known, batch[0]), batch[1..], i - 1);
    }
  }

  lemma {:induction false} NothingInFront(known: set<Id>, batch: seq<WaMessage>, stored: set<Id>, i: nat)
    requires TargetsReady(known, batch, stored) && i < |batch| && Inserts(known, batch, i) && batch[i].id in stored
    ensures EffectOfAll(batch[i].id, batch[..i]) == Effect(false, None, None)
    decreases |batch|
  {
    if i > 0 {
      InsertsBelow(known, batch, i);
      NothingInFront(Known(known, batch[0]), batch[1..], stored, i - 1);
      assert batch[..i][1..] == batch[1..][..i - 1];
      StoredGrows(known, batch[..i]);
    }
  }

  lemma {:induction false} ReadyReactions(known: set<Id>, batch: seq<WaMessage>, stored: set<Id>)
    requires TargetsReady(known, batch, stored)
    ensures ReactionsSettle(known, batch, stored)
    decreases |batch|
  {
    if batch != [] {
      ReadyReactions(Known(known, batch[0]), batch[1..], stored);
    }
  }

  /** With every target stored in time a batch meets the condition. */
  lemma ReadyBatchSettles(known: set<Id>, batch: seq<WaMessage>)
    requires TargetsReady(known, batch, Stored(known, batch))
    ensures Settles(known, batch)
  {
    ReadyReactions(known, batch, Stored(known, batch));
    forall i | 0 <= i < |batch| && Inserts(known, batch, i) ensures RowSettles(batch, i) {
      InsertedIsStored(known, batch, i);
      NothingInFront(known, batch, Stored(known, batch), i);
    }
  }

  /** The condition matters: an edit that arrives before the message it edits is lost the
      first time and takes effect the second time. */
  lemma EarlyEditBreaksReplay() returns (c: Conversation)
    ensures !SameCore(PersistConversation(PersistConversation(EMPTY, c), c), PersistConversation(EMPTY, c))
  {
    var edit := WaMessage("e", "c", "s", false, false, 1, "", "", Edit("m", "new"));
    var text := WaMessage("m", "c", "s", false, false, 2, "", "", Content("old", "text", "", None));
    c := Conversation("c", false, "", 0, 0, [edit, text]);
    var batch := [edit, text];
    assert batch[..1] == [edit] && [edit][1..] == [] && batch[2..] == [];
    assert EffectOf("m", edit).edited && EffectOfAll("m", [edit]).edited && !EffectOfAll("m", []).edited;
    assert Stored({}, [edit]) == Known({}, edit) == {};
    assert EMPTY.messages.Keys == {} && Inserts({}, batch, 1) && !RowSettles(batch, 1);
    assert !Settles(EMPTY.messages.Keys, batch);
    ReplayIsIdempotentIff(EMPTY, c, c);
  }
}
