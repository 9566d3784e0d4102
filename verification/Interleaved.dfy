/**
 The columns of cae_chats while several writers are at work, statement by statement: between
 the statement that stores a row and those that book it the columns lag behind, and when all
 writers are done they agree with the rows again.
 */
module Interleaved {
  import opened Wrappers
  import opened Tables
  import opened Persister
  import opened PersistFacts
  import opened Writers
  import opened Columns
  import opened Unread
  import opened References
  import opened Publishing

  /** The statements that store and book messages are those of the works and of history. */
  predicate Allowed(a: Action) {
    a.Other? ==>
      !a.statement.InsertStatement? && !a.statement.LastStatement? && !a.statement.TimeStatement?
      && !a.statement.IncomingStatement?
  }

  predicate IsBookedRun(trace: seq<State>, acts: seq<Action>) {
    IsRun(trace, acts) && forall i :: 0 <= i < |acts| ==> Allowed(acts[i])
  }

  // ------------------------------------------------------- what single statements keep

  /** Rows stay, times only grow, and each new row is within the time of its chat. */
  predicate Grown(a: Tables, b: Tables) {
    RowsKept(a, b) && TsGrows(a, b)
    && forall x :: x in b.messages && x !in a.messages ==> RowBounded(b, b.messages[x])
  }

  lemma BoundedStays(a: Tables, b: Tables, x: Id)
    requires x in a.messages && RowBounded(a, a.messages[x]) && RowsKept(a, b) && TsGrows(a, b)
    ensures RowBounded(b, b.messages[x])
  {
  }

  lemma GrownThen(a: Tables, b: Tables, c: Tables)
    requires Grown(a, b) && Grown(b, c)
    ensures Grown(a, c)
  {
    TsGrowsThen(a, b, c);
    forall x | x in c.messages && x !in a.messages ensures RowBounded(c, c.messages[x]) {
      if x in b.messages {
        BoundedStays(b, c, x);
      }
    }
  }

  lemma QuietGrows(a: Tables, b: Tables, read: Option<Jid>)
    requires Quiet(a, b, read)
    ensures Grown(a, b)
  {
    QuietKeeps(a, b);
  }

  lemma MessageGrows(db: Tables, m: WaMessage)
    ensures Grown(db, PersistMessage(db, m))
  {
    var db' := PersistMessage(db, m);
    if IsContent(m) && m.id !in db.messages {
      NewMessageBooks(db, m);
      BooksKeepsBounded(db, db', m.id, RowOf(m));
    } else {
      OldMessageIsQuiet(db, m);
      QuietGrows(db, db', None);
    }
  }

  lemma {:induction false} BatchGrows(db: Tables, batch: seq<WaMessage>)
    ensures Grown(db, PersistMessages(db, batch))
    decreases |batch|
  {
    if batch != [] {
      MessageGrows(db, batch[0]);
      BatchGrows(PersistMessage(db, batch[0]), batch[1..]);
      GrownThen(db, PersistMessage(db, batch[0]), PersistMessages(db, batch));
    }
  }

  lemma UpsertGrows(db: Tables, jid: Jid, group: bool, name: string)
    ensures Grown(db, UpsertChat(db, jid, group, name))
  {
    UpsertIsQuiet(db, jid, group, name);
    QuietGrows(db, UpsertChat(db, jid, group, name), None);
  }

  lemma TailGrows(db: Tables, c: Conversation)
    ensures var db3 := if c.lastTs > 0 then SetChatLastTimestamp(db, c.chat, c.lastTs * 1000) else db;
      TsGrows(db, SetUnread(db3, c.chat, c.unread)) && SetUnread(db3, c.chat, c.unread).messages == db.messages
  {
    var db3 := if c.lastTs > 0 then SetChatLastTimestamp(db, c.chat, c.lastTs * 1000) else db;
    RaiseTsKeeps(db, c.chat, c.lastTs * 1000);
    SetUnreadKeeps(db3, c.chat, c.unread);
    TsGrowsThen(db, db3, SetUnread(db3, c.chat, c.unread));
  }

  lemma ClosedGrows(db: Tables, c: Conversation)
    ensures Grown(db, Closed(db, c))
  {
    var db2 := if c.name != "" then UpsertChat(db, c.chat, c.group, c.name) else db;
    UpsertGrows(db, c.chat, c.group, c.name);
    TailGrows(db2, c);
    GrownThen(db, db2, Closed(db, c));
  }

  lemma ConversationGrows(db: Tables, c: Conversation)
    ensures Grown(db, PersistConversation(db, c))
  {
    if c.chat != "" {
      var db1 := UpsertChat(db, c.chat, c.group, c.name);
      UpsertGrows(db, c.chat, c.group, c.name);
      BatchGrows(db1, c.messages);
      GrownThen(db, db1, PersistMessages(db1, c.messages));
      ClosedGrows(PersistMessages(db1, c.messages), c);
      GrownThen(db, PersistMessages(db1, c.messages), PersistConversation(db, c));
    }
  }

  /** Rows and chats as they were, up to columns that are not the booked ones. */
  predicate Still(a: Tables, b: Tables) { RowsKept(a, b) && SameKeys(a, b) && b.chats == a.chats }

  lemma StillGrows(a: Tables, b: Tables)
    requires Still(a, b)
    ensures Grown(a, b) && forall j :: UnreadOf(b, j) == UnreadOf(a, j)
    ensures Attained(a) ==> Attained(b)
  {
    QuietKeeps(a, b);
  }

  predicate IsStill(st: Statement) {
    st.ContactStatement? || st.GroupStatement? || st.MediaStatement? || st.DownloadedStatement? || st.ReceiptStatement?
    || st.StatusStatement? || st.EditStatement? || st.RevokeStatement? || st.ReactionStatement?
  }

  predicate IsRowChange(st: Statement) { st.StatusStatement? || st.EditStatement? || st.RevokeStatement? }

  lemma StatusIsStill(db: Tables, ids: seq<Id>, status: string)
    ensures Still(db, SetMessagesStatus(db, ids, status))
  {
    StatusIsQuiet(db, ids, status);
  }

  lemma RowIsStill(db: Tables, id: Id, row: Message)
    requires id in db.messages
    requires row.chat == db.messages[id].chat && row.ts == db.messages[id].ts && row.fromMe == db.messages[id].fromMe
    ensures Still(db, PutMessage(db, id, row))
  {
  }

  lemma EditIsStill(db: Tables, id: Id, text: string)
    ensures Still(db, SetMessageEdited(db, id, text)) && Still(db, SetMessageDeleted(db, id))
  {
    if id in db.messages {
      RowIsStill(db, id, Edited(db.messages[id], text));
      RowIsStill(db, id, Deleted(db.messages[id]));
    }
  }

  lemma RowChangeIsStill(db: Tables, st: Statement)
    requires IsRowChange(st)
    ensures Still(db, After(db, st))
  {
    match st
    case StatusStatement(ids, status) => StatusIsStill(db, ids, status);
    case EditStatement(id, text) => EditIsStill(db, id, text);
    case RevokeStatement(id) => EditIsStill(db, id, "");
  }

  lemma ElsewhereIsStill(db: Tables, st: Statement)
    requires IsStill(st) && !IsRowChange(st)
    ensures After(db, st).messages == db.messages && After(db, st).chats == db.chats
  {
  }

  lemma StatementIsStill(db: Tables, st: Statement)
    requires IsStill(st)
    ensures Still(db, After(db, st))
  {
    if IsRowChange(st) {
      RowChangeIsStill(db, st);
    } else {
      ElsewhereIsStill(db, st);
    }
  }

  lemma OtherGrows(db: Tables, st: Statement)
    requires Allowed(Other(st))
    ensures Grown(db, After(db, st))
  {
    match st
    case ChatStatement(jid, group, name) => UpsertGrows(db, jid, group, name);
    case UnreadStatement(jid, count) => SetUnreadKeeps(db, jid, count);
    case History(c) => ConversationGrows(db, c);
    case _ =>
      StatementIsStill(db, st);
      StillGrows(db, After(db, st));
  }

  // ------------------------------------------------------------- one statement of a work

  function TsOf(w: Work): int { if w.Live? then w.m.ts else w.s.ts }

  predicate Incoming(w: Work) { w.Live? && !w.m.fromMe }

  lemma LastGrows(db: Tables, jid: Jid, id: Id, ts: int, preview: string)
    ensures TsGrows(db, UpdateChatLastMessage(db, jid, id, ts, preview))
    ensures forall j :: UnreadOf(UpdateChatLastMessage(db, jid, id, ts, preview), j) == UnreadOf(db, j)
  {
  }

  lemma IncrementParts(db: Tables, jid: Jid)
    requires jid in db.chats
    ensures var db' := IncrementUnread(db, jid);
      && Quiet(db, db'.(chats := db.chats), None) && TsGrows(db, db') && db'.messages == db.messages
      && (forall j :: UnreadOf(db', j) == UnreadOf(db, j) + if j == jid then 1 else 0)
      && (Attained(db) ==> Attained(db'))
  {
    var db' := IncrementUnread(db, jid);
    assert LastKept(db, db');
    QuietKeeps(db, db');
  }

  lemma LastStageGrows(db: Tables, w: Work, inserted: bool)
    requires Wellformed(w)
    ensures TsGrows(db, LastWritten(db, w, inserted)) && LastWritten(db, w, inserted).messages == db.messages
    ensures forall j :: UnreadOf(LastWritten(db, w, inserted), j) == UnreadOf(db, j)
  {
    if w.Live? {
      LastGrows(db, w.m.chat, w.m.id, w.m.ts, Preview(w.m.body.text, w.m.body.kind));
    } else {
      LastGrows(db, w.s.chat, w.s.id, w.s.ts, Preview(w.s.text, w.s.kind));
      LastGrows(db, w.s.chat, w.s.id, w.s.ts, w.s.text);
    }
  }

  predicate IsStillStage(st: Stage) { st.AtContact? || st.AtMedia? || st.AtDownloaded? || st.AtReceived? || st.AtUpdated? }

  lemma StageIsStill(db: Tables, th: Thread)
    requires Wellformed(th.work) && IsStillStage(th.stage)
    ensures Execute(db, th).messages == db.messages && Execute(db, th).chats == db.chats
  {
    var w := th.work;
    if w.Live? {
      WithContactFrame(db, w.m);
      WithMediaFrame(db, w.m);
    }
  }

  lemma ChatStage(db: Tables, th: Thread)
    requires Wellformed(th.work) && th.stage.AtChat?
    ensures Quiet(db, Execute(db, th), None)
  {
    var w := th.work;
    if w.Live? {
      UpsertIsQuiet(db, w.m.chat, w.m.group, w.m.name);
    } else {
      UpsertIsQuiet(db, w.s.chat, w.s.group, w.s.name);
    }
  }

  /** Each statement of a work keeps the rows; times only grow. */
  lemma ExecuteGrows(db: Tables, th: Thread)
    requires Grounded(db, th)
    ensures TsGrows(db, Execute(db, th)) && RowsKept(db, Execute(db, th))
    ensures !th.stage.AtInsert? ==> SameKeys(db, Execute(db, th))
  {
    match th.stage
    case AtChat => ChatStage(db, th); QuietKeeps(db, Execute(db, th));
    case AtInsert =>
    case AtLast => LastStageGrows(db, th.work, th.inserted);
    case AtUnread => if th.work.Live? { IncrementParts(db, th.work.m.chat); }
    case _ => StageIsStill(db, th);
  }

  // ----------------------------------------------------------------- rows and their books

  /** The row that a thread inserted is as its work says. */
  predicate OwnRow(db: Tables, th: Thread) {
    var x := IdOf(th.work);
    th.inserted ==>
      && x in db.messages && db.messages[x].ts == TsOf(th.work)
      && db.messages[x].chat == ChatOf(th.work) && db.messages[x].fromMe == !Incoming(th.work)
  }

  /** The thread has inserted the row `x` and not booked it as the last message yet. */
  predicate ToBook(th: Thread, x: Id) { th.inserted && Order(th.stage) <= Order(AtLast) && IdOf(th.work) == x }

  predicate BookedBy(s: State, t: nat, x: Id) { t in s.threads && ToBook(s.threads[t], x) }

  ghost predicate Booked(s: State, x: Id)
    requires x in s.db.messages
  {
    RowBounded(s.db, s.db.messages[x]) || exists t :: BookedBy(s, t, x)
  }

  predicate OwnRows(s: State) {
    forall t :: t in s.threads ==> OwnRow(s.db, s.threads[t]) && (s.threads[t].work.Live? ==> t == 0)
  }

  ghost predicate AllBooked(s: State) { forall x :: x in s.db.messages ==> Booked(s, x) }

  lemma OwnRowStays(a: Tables, b: Tables, th: Thread)
    requires OwnRow(a, th) && RowsKept(a, b)
    ensures OwnRow(b, th)
  {
  }

  lemma OwnRowMoves(s: State, t: nat)
    requires Inv(s) && Publishing.Enabled(s, Step(t)) && OwnRow(s.db, s.threads[t]) && !s.threads[t].stage.AtUpdated?
    ensures OwnRow(Execute(s.db, s.threads[t]), Moved(s, t)[t])
  {
    ExecuteGrows(s.db, s.threads[t]);
  }

  lemma RaisedTo(db: Tables, jid: Jid, id: Id, ts: int, preview: string)
    requires jid in db.chats
    ensures var db' := UpdateChatLastMessage(db, jid, id, ts, preview);
      jid in db'.chats && db'.chats[jid].lastTs.Some? && ts <= db'.chats[jid].lastTs.value
  {
  }

  lemma LastReaches(db: Tables, w: Work)
    requires Wellformed(w) && ChatOf(w) in db.chats
    ensures var db' := LastWritten(db, w, true);
      ChatOf(w) in db'.chats && db'.chats[ChatOf(w)].lastTs.Some? && TsOf(w) <= db'.chats[ChatOf(w)].lastTs.value
  {
    match w
    case Live(m) => RaisedTo(db, m.chat, m.id, m.ts, Preview(m.body.text, m.body.kind));
    case SentMedia(s) => RaisedTo(db, s.chat, s.id, s.ts, Preview(s.text, s.kind));
    case SentText(s) => RaisedTo(db, s.chat, s.id, s.ts, s.text);
  }

  /** The statement that books a row: it is within the time of its chat from then on. */
  lemma BooksItsRow(db: Tables, th: Thread)
    requires Grounded(db, th) && OwnRow(db, th) && th.stage.AtLast? && th.inserted
    ensures var db' := Execute(db, th);
      IdOf(th.work) in db'.messages && RowBounded(db', db'.messages[IdOf(th.work)])
  {
    LastReaches(db, th.work);
    LastStageGrows(db, th.work, true);
  }

  lemma StepBooksRow(s: State, t: nat, x: Id)
    requires Inv(s) && OwnRows(s) && AllBooked(s) && Publishing.Enabled(s, Step(t)) && x in Next(s, Step(t)).db.messages
    ensures Booked(Next(s, Step(t)), x)
  {
    var s', th := Next(s, Step(t)), s.threads[t];
    ExecuteGrows(s.db, th);
    if x in s.db.messages {
      assert Booked(s, x);
      if RowBounded(s.db, s.db.messages[x]) {
        BoundedStays(s.db, s'.db, x);
      } else {
        var u :| BookedBy(s, u, x);
        if u == t && th.stage.AtLast? {
          BooksItsRow(s.db, th);
        } else {
          assert BookedBy(s', u, x);
        }
      }
    } else {
      assert BookedBy(s', t, x);
    }
  }

  lemma StepOwns(s: State, t: nat)
    requires Inv(s) && OwnRows(s) && Publishing.Enabled(s, Step(t))
    ensures OwnRows(Next(s, Step(t))) && TsGrows(s.db, Next(s, Step(t)).db)
  {
    var s' := Next(s, Step(t));
    ExecuteGrows(s.db, s.threads[t]);
    forall u | u in s'.threads ensures OwnRow(s'.db, s'.threads[u]) && (s'.threads[u].work.Live? ==> u == 0) {
      if u == t {
        OwnRowMoves(s, t);
      } else {
        OwnRowStays(s.db, s'.db, s.threads[u]);
      }
    }
  }

  lemma OtherOwns(s: State, a: Action)
    requires Inv(s) && OwnRows(s) && Publishing.Enabled(s, a) && Allowed(a) && !a.Step?
    ensures OwnRows(Next(s, a)) && Grown(s.db, Next(s, a).db)
  {
    var s' := Next(s, a);
    if a.Other? {
      OtherGrows(s.db, a.statement);
    }
    forall t | t in s'.threads ensures OwnRow(s'.db, s'.threads[t]) && (s'.threads[t].work.Live? ==> t == 0) {
      if t in s.threads {
        OwnRowStays(s.db, s'.db, s.threads[t]);
      }
    }
  }

  lemma OtherBooks(s: State, a: Action)
    requires Inv(s) && OwnRows(s) && AllBooked(s) && Publishing.Enabled(s, a) && Allowed(a) && !a.Step?
    ensures AllBooked(Next(s, a))
  {
    var s' := Next(s, a);
    OtherOwns(s, a);
    forall x | x in s'.db.messages ensures Booked(s', x) {
      if x in s.db.messages {
        assert Booked(s, x);
        if RowBounded(s.db, s.db.messages[x]) {
          BoundedStays(s.db, s'.db, x);
        } else {
          var u :| BookedBy(s, u, x);
          assert BookedBy(s', u, x);
        }
      }
    }
  }

  lemma {:induction false} OwnOverRuns(trace: seq<State>, acts: seq<Action>, n: nat)
    requires IsBookedRun(trace, acts) && n < |trace|
    ensures Inv(trace[n]) && OwnRows(trace[n])
  {
    RunKeeps(trace, acts, n);
    if n > 0 {
      OwnOverRuns(trace, acts, n - 1);
      assert Publishing.StepAt(trace, acts, n - 1);
      if acts[n - 1].Step? {
        StepOwns(trace[n - 1], acts[n - 1].t);
      } else {
        OtherOwns(trace[n - 1], acts[n - 1]);
      }
    }
  }

  lemma {:induction false} BooksOverRuns(trace: seq<State>, acts: seq<Action>, n: nat)
    requires IsBookedRun(trace, acts) && n < |trace| && Bounded(trace[0].db)
    ensures AllBooked(trace[n])
  {
    if n > 0 {
      var s, a := trace[n - 1], acts[n - 1];
      BooksOverRuns(trace, acts, n - 1);
      OwnOverRuns(trace, acts, n - 1);
      assert Publishing.StepAt(trace, acts, n - 1);
      if a.Step? {
        forall x | x in trace[n].db.messages ensures Booked(trace[n], x) {
          StepBooksRow(s, a.t, x);
        }
      } else {
        OtherBooks(s, a);
      }
    }
  }

  /** At no statement of anyone does a last_message_ts go down. */
  lemma {:induction false} TimesOnlyGrow(trace: seq<State>, acts: seq<Action>, k: nat, n: nat)
    requires IsBookedRun(trace, acts) && k <= n < |trace|
    ensures TsGrows(trace[k].db, trace[n].db)
    decreases n
  {
    if k < n {
      var s, a := trace[n - 1], acts[n - 1];
      TimesOnlyGrow(trace, acts, k, n - 1);
      OwnOverRuns(trace, acts, n - 1);
      assert Publishing.StepAt(trace, acts, n - 1);
      if a.Step? {
        StepOwns(s, a.t);
      } else {
        OtherOwns(s, a);
      }
      TsGrowsThen(trace[k].db, s.db, trace[n].db);
    }
  }

  /** When no writer is at work, last_message_ts is not below any row of its chat. */
  lemma BoundedWhenDone(trace: seq<State>, acts: seq<Action>, n: nat)
    requires IsBookedRun(trace, acts) && n < |trace| && Bounded(trace[0].db) && trace[n].threads == map[]
    ensures Bounded(trace[n].db)
  {
    BooksOverRuns(trace, acts, n);
    forall x | x in trace[n].db.messages ensures RowBounded(trace[n].db, trace[n].db.messages[x]) {
      assert Booked(trace[n], x);
    }
  }

  /** At any moment before, only a row that a writer is about to book can be later. */
  lemma LateRowsAreBeingBooked(trace: seq<State>, acts: seq<Action>, n: nat, x: Id)
    requires IsBookedRun(trace, acts) && n < |trace| && Bounded(trace[0].db) && x in trace[n].db.messages
    ensures RowBounded(trace[n].db, trace[n].db.messages[x]) || exists t :: BookedBy(trace[n], t, x)
  {
    BooksOverRuns(trace, acts, n);
    assert Booked(trace[n], x);
  }

  // ----------------------------------------------------------------------- the counter

  /** The counter of `j` is written by something that knows it. */
  predicate Sets(a: Action, j: Jid) {
    a.Other? &&
    match a.statement
    case UnreadStatement(jid, _) => jid == j
    case History(c) => c.chat == j && j != ""
    case _ => false
  }

  /** The worker has stored an incoming row of `j` and not counted it yet. */
  predicate Uncounted(th: Thread, j: Jid) {
    th.inserted && Incoming(th.work) && ChatOf(th.work) == j && Order(th.stage) <= Order(AtUnread)
  }

  function ToCount(s: State, j: Jid): nat { if 0 in s.threads && Uncounted(s.threads[0], j) then 1 else 0 }

  /** From `s` to `s'` counter and debt together rose by the new incoming rows. */
  predicate CountsTo(s: State, s': State, j: Jid) {
    RowsKept(s.db, s'.db)
    && UnreadOf(s'.db, j) + ToCount(s', j) == UnreadOf(s.db, j) + ToCount(s, j) + |NewIncoming(s.db, s'.db, j)|
  }

  lemma CountsToThen(s: State, s': State, s'': State, j: Jid)
    requires CountsTo(s, s', j) && CountsTo(s', s'', j)
    ensures CountsTo(s, s'', j)
  {
    NewIncomingAdds(s.db, s'.db, s''.db, j);
  }

  lemma OtherCounts(s: State, a: Action, j: Jid)
    requires Publishing.Enabled(s, a) && a.Other? && Allowed(a) && !Sets(a, j)
    ensures CountsTo(s, Next(s, a), j)
  {
    var st, db' := a.statement, After(s.db, a.statement);
    if st.ChatStatement? {
      UpsertCounts(s.db, st.jid, st.group, st.name, j);
    } else if st.UnreadStatement? {
      SetUnreadLeaves(s.db, st.jid, st.count, j);
      NoRowNoCount(s.db, db', j);
    } else if st.History? {
      HistoryUnread(s.db, st.c, j);
    } else {
      StatementIsStill(s.db, st);
      StillGrows(s.db, db');
      NoRowNoCount(s.db, db', j);
    }
  }

  lemma SetUnreadLeaves(db: Tables, jid: Jid, count: int, j: Jid)
    requires jid != j
    ensures SetUnread(db, jid, count).messages == db.messages && UnreadOf(SetUnread(db, jid, count), j) == UnreadOf(db, j)
  {
  }

  lemma BeginCounts(s: State, a: Action, j: Jid)
    requires Publishing.Enabled(s, a) && a.Begin?
    ensures CountsTo(s, Next(s, a), j)
  {
    NoRowNoCount(s.db, s.db, j);
  }

  /** What a statement of a work does to the counter and the rows of `j`. */
  lemma ExecuteCounts(db: Tables, th: Thread, j: Jid)
    requires Grounded(db, th) && !th.stage.AtInsert?
    ensures UnreadOf(Execute(db, th), j)
         == UnreadOf(db, j) + if th.stage.AtUnread? && Uncounted(th, j) then 1 else 0
    ensures NewIncoming(db, Execute(db, th), j) == {}
  {
    ExecuteGrows(db, th);
    match th.stage
    case AtChat => ChatStage(db, th); assert UnreadOf(Execute(db, th), j) == UnreadOf(db, j);
    case AtLast => LastStageGrows(db, th.work, th.inserted);
    case AtUnread => if th.work.Live? { IncrementParts(db, th.work.m.chat); }
    case _ => StageIsStill(db, th);
  }

  lemma InsertCounts(db: Tables, th: Thread, j: Jid)
    requires Grounded(db, th) && th.stage.AtInsert?
    ensures var x, db' := IdOf(th.work), Execute(db, th);
      && UnreadOf(db', j) == UnreadOf(db, j)
      && NewIncoming(db, db', j) == if x !in db.messages && Incoming(th.work) && ChatOf(th.work) == j then {x} else {}
  {
  }

  /** Stepping thread `t` changes only its own debt. */
  lemma DebtAfterStep(s: State, t: nat, j: Jid)
    requires Inv(s) && OwnRows(s) && Publishing.Enabled(s, Step(t))
    ensures var th := s.threads[t];
      ToCount(Next(s, Step(t)), j) == ToCount(s, j)
        + (if th.stage.AtInsert? && IdOf(th.work) !in s.db.messages && Incoming(th.work) && ChatOf(th.work) == j then 1 else 0)
        - (if th.stage.AtUnread? && Uncounted(th, j) then 1 else 0)
  {
    assert Grounded(s.db, s.threads[t]);
  }

  lemma StepCounts(s: State, t: nat, j: Jid)
    requires Inv(s) && OwnRows(s) && Publishing.Enabled(s, Step(t))
    ensures CountsTo(s, Next(s, Step(t)), j)
  {
    var th := s.threads[t];
    ExecuteGrows(s.db, th);
    DebtAfterStep(s, t, j);
    if th.stage.AtInsert? {
      InsertCounts(s.db, th, j);
    } else {
      ExecuteCounts(s.db, th, j);
    }
  }

  lemma {:induction false} CountsOverRuns(trace: seq<State>, acts: seq<Action>, k: nat, n: nat, j: Jid)
    requires IsBookedRun(trace, acts) && k <= n < |trace|
    requires forall i :: k <= i < n ==> !Sets(acts[i], j)
    ensures CountsTo(trace[k], trace[n], j)
    decreases n
  {
    if k == n {
      assert NewIncoming(trace[k].db, trace[k].db, j) == {};
    } else {
      var s, a := trace[n - 1], acts[n - 1];
      CountsOverRuns(trace, acts, k, n - 1, j);
      OwnOverRuns(trace, acts, n - 1);
      assert Publishing.StepAt(trace, acts, n - 1);
      match a {
        case Begin(_, _) => BeginCounts(s, a, j);
        case Step(t) => StepCounts(s, t, j);
        case Other(_) => OtherCounts(s, a, j);
      }
      CountsToThen(trace[k], s, trace[n], j);
    }
  }

  /** When no writer is at work, unread_count is what it was at moment `k`, with the row that
      was then stored and not counted, and the incoming rows stored since, unless something
      wrote the counter in between. */
  lemma UnreadWhenDone(trace: seq<State>, acts: seq<Action>, k: nat, n: nat, j: Jid)
    requires IsBookedRun(trace, acts) && k <= n < |trace| && trace[n].threads == map[]
    requires forall i :: k <= i < n ==> !Sets(acts[i], j)
    ensures UnreadOf(trace[n].db, j)
         == UnreadOf(trace[k].db, j) + ToCount(trace[k], j) + |NewIncoming(trace[k].db, trace[n].db, j)|
  {
    CountsOverRuns(trace, acts, k, n, j);
  }

  // -------------------------------------------------------------------- exact columns

  /** A booking of a row as it is stored, whenever it is not older than the last one. */
  predicate BooksStored(db: Tables, jid: Jid, id: Id, ts: int) {
    NotOlder(ts, LastTs(db, jid)) ==> id in db.messages && db.messages[id].chat == jid && db.messages[id].ts == ts
  }

  lemma BookingKeepsAttained(db: Tables, jid: Jid, id: Id, ts: int, preview: string)
    requires Attained(db) && jid in db.chats && BooksStored(db, jid, id, ts)
    ensures Attained(UpdateChatLastMessage(db, jid, id, ts, preview))
  {
    var db' := UpdateChatLastMessage(db, jid, id, ts, preview);
    forall k | k in db'.chats ensures LastIsAttained(db', k, db'.chats[k]) {
      assert LastIsAttained(db, k, db.chats[k]);
    }
  }

  /** What a step must meet: a sent text that finds its row stored before books it as it is,
      and a conversation reports no time beyond its rows. */
  predicate KeepsExactly(s: State, a: Action)
    requires Publishing.Enabled(s, a)
  {
    match a
    case Step(t) =>
      var th := s.threads[t];
      th.stage.AtLast? && th.work.SentText? && !th.inserted ==> BooksStored(s.db, ChatOf(th.work), IdOf(th.work), TsOf(th.work))
    case Other(st) => st.History? ==> NoNewerTime(s.db, st.c)
    case Begin(_, _) => true
  }

  lemma LastKeepsAttained(db: Tables, th: Thread)
    requires Attained(db) && Grounded(db, th) && OwnRow(db, th) && th.stage.AtLast?
    requires th.work.SentText? && !th.inserted ==> BooksStored(db, ChatOf(th.work), IdOf(th.work), TsOf(th.work))
    ensures Attained(Execute(db, th))
  {
    match th.work
    case Live(m) => if th.inserted { BookingKeepsAttained(db, m.chat, m.id, m.ts, Preview(m.body.text, m.body.kind)); }
    case SentMedia(s) => if th.inserted { BookingKeepsAttained(db, s.chat, s.id, s.ts, Preview(s.text, s.kind)); }
    case SentText(s) => BookingKeepsAttained(db, s.chat, s.id, s.ts, s.text);
  }

  lemma SameChatsKeepAttained(a: Tables, b: Tables)
    requires Attained(a) && b.chats == a.chats && RowsKept(a, b)
    ensures Attained(b)
  {
    forall k | k in b.chats ensures LastIsAttained(b, k, b.chats[k]) {
      assert LastIsAttained(a, k, a.chats[k]);
    }
  }

  lemma ExecuteKeepsAttained(db: Tables, th: Thread)
    requires Attained(db) && Grounded(db, th) && OwnRow(db, th)
    requires th.stage.AtLast? && th.work.SentText? && !th.inserted ==>
      BooksStored(db, ChatOf(th.work), IdOf(th.work), TsOf(th.work))
    ensures Attained(Execute(db, th))
  {
    ExecuteGrows(db, th);
    match th.stage
    case AtChat => ChatStage(db, th); QuietKeeps(db, Execute(db, th));
    case AtInsert => SameChatsKeepAttained(db, Execute(db, th));
    case AtLast => LastKeepsAttained(db, th);
    case AtUnread => if th.work.Live? { IncrementParts(db, th.work.m.chat); }
    case _ => StageIsStill(db, th); SameChatsKeepAttained(db, Execute(db, th));
  }

  lemma OtherKeepsAttained(db: Tables, st: Statement)
    requires Attained(db) && Allowed(Other(st)) && (st.History? ==> NoNewerTime(db, st.c))
    ensures Attained(After(db, st))
  {
    if st.ChatStatement? {
      UpsertIsQuiet(db, st.jid, st.group, st.name);
      QuietKeeps(db, After(db, st));
    } else if st.UnreadStatement? {
      SetUnreadKeeps(db, st.jid, st.count);
    } else if st.History? {
      HistoryIsExactIff(db, st.c);
    } else {
      StatementIsStill(db, st);
      StillGrows(db, After(db, st));
    }
  }

  lemma {:induction false} AttainedOverInterleavings(trace: seq<State>, acts: seq<Action>, n: nat)
    requires IsBookedRun(trace, acts) && n < |trace| && Attained(trace[0].db)
    requires forall i :: 0 <= i < n && Publishing.StepAt(trace, acts, i) ==> KeepsExactly(trace[i], acts[i])
    ensures Attained(trace[n].db)
  {
    if n > 0 {
      var s, a := trace[n - 1], acts[n - 1];
      AttainedOverInterleavings(trace, acts, n - 1);
      OwnOverRuns(trace, acts, n - 1);
      assert Publishing.StepAt(trace, acts, n - 1);
      if a.Step? {
        assert Grounded(s.db, s.threads[a.t]);
        ExecuteKeepsAttained(s.db, s.threads[a.t]);
      } else if a.Other? {
        OtherKeepsAttained(s.db, a.statement);
      }
    }
  }

  /** When no writer is at work, the last-message columns are exact: the time is set iff the
      chat has a row, it is the maximum, and the named row attains it. */
  lemma ColumnsAreExactWhenDone(trace: seq<State>, acts: seq<Action>, n: nat, j: Jid)
    requires IsBookedRun(trace, acts) && n < |trace| && trace[n].threads == map[]
    requires Bounded(trace[0].db) && Attained(trace[0].db)
    requires forall i :: 0 <= i < n && Publishing.StepAt(trace, acts, i) ==> KeepsExactly(trace[i], acts[i])
    ensures var db := trace[n].db;
      && (LastTs(db, j).Some? <==> exists x :: x in db.messages && db.messages[x].chat == j)
      && (LastTs(db, j).Some? ==>
            && db.chats[j].lastId.Some? && IsNewest(db, j, db.chats[j].lastId.value)
            && db.messages[db.chats[j].lastId.value].ts == LastTs(db, j).value)
  {
    BoundedWhenDone(trace, acts, n);
    AttainedOverInterleavings(trace, acts, n);
    LastMessageIsExact(trace[n].db, [], j);
  }
}
