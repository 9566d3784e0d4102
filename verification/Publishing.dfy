/**
 Two writers of messages and of message.received: the persistence worker and any
 number of handlers that store a message this device just sent. Their statements
 interleave freely with each other and with every other statement of the daemon.
 */
module Publishing {
  import opened Tables
  import opened Persister
  import opened PersistFacts
  import opened Writers
  import opened References

  /** Live is a content message in the worker; the others are handlers after the send. */
  datatype Work = Live(m: WaMessage) | SentMedia(s: Sent) | SentText(s: Sent)

  function IdOf(w: Work): Id { if w.Live? then w.m.id else w.s.id }
  function ChatOf(w: Work): Jid { if w.Live? then w.m.chat else w.s.chat }

  /** storeOutgoing publishes nothing. */
  predicate Announces(w: Work) { !w.SentText? }

  predicate Wellformed(w: Work) { w.Live? ==> IsContent(w.m) }

  function NewRow(w: Work): Message
    requires Wellformed(w)
  {
    if w.Live? then RowOf(w.m) else SentRow(w.s, w.SentMedia?)
  }

  /** The next statement of a work; one that a kind of work does not have changes nothing. */
  datatype Stage = AtChat | AtContact | AtInsert | AtMedia | AtDownloaded | AtLast | AtUnread | AtReceived | AtUpdated

  function Order(st: Stage): nat {
    match st
    case AtChat => 0 case AtContact => 1 case AtInsert => 2 case AtMedia => 3 case AtDownloaded => 4
    case AtLast => 5 case AtUnread => 6 case AtReceived => 7 case AtUpdated => 8
  }

  function Following(st: Stage): Stage
    requires !st.AtUpdated?
    ensures Order(Following(st)) == Order(st) + 1
  {
    match st
    case AtChat => AtContact case AtContact => AtInsert case AtInsert => AtMedia case AtMedia => AtDownloaded
    case AtDownloaded => AtLast case AtLast => AtUnread case AtUnread => AtReceived case AtReceived => AtUpdated
  }

  datatype Thread = Thread(work: Work, stage: Stage, inserted: bool)

  function MediaWritten(db: Tables, w: Work): Tables
    requires Wellformed(w)
  {
    match w
    case Live(m) => WithMedia(db, m)
    case SentMedia(s) => (match UpsertMedia(db, s.id, Media(s.id, s.kind, 0, false)) case Some(d) => d case None => db)
    case SentText(_) => db
  }

  function LastWritten(db: Tables, w: Work, inserted: bool): Tables
    requires Wellformed(w)
  {
    match w
    case Live(m) => if inserted then UpdateChatLastMessage(db, m.chat, m.id, m.ts, Preview(m.body.text, m.body.kind)) else db
    case SentMedia(s) => if inserted then UpdateChatLastMessage(db, s.chat, s.id, s.ts, Preview(s.text, s.kind)) else db
    case SentText(s) => UpdateChatLastMessage(db, s.chat, s.id, s.ts, s.text)
  }

  function Execute(db: Tables, t: Thread): Tables
    requires Wellformed(t.work)
  {
    var w := t.work;
    match t.stage
    case AtChat => if w.Live? then UpsertChat(db, w.m.chat, w.m.group, w.m.name) else UpsertChat(db, w.s.chat, w.s.group, w.s.name)
    case AtContact => if w.Live? then WithContact(db, w.m) else db
    case AtInsert => InsertMessage(db, IdOf(w), NewRow(w))
    case AtMedia => MediaWritten(db, w)
    case AtDownloaded => if w.SentMedia? then MarkMediaDownloaded(db, w.s.id) else db
    case AtLast => LastWritten(db, w, t.inserted)
    case AtUnread => if w.Live? && t.inserted && !w.m.fromMe then IncrementUnread(db, w.m.chat) else db
    case AtReceived => db
    case AtUpdated => db
  }

  function Emitted(db: Tables, t: Thread): seq<Domain>
    requires Wellformed(t.work)
  {
    var w := t.work;
    if !t.inserted || !Announces(w) then []
    else if t.stage.AtReceived? then [MessageReceived(IdOf(w), ChatOf(w))]
    else if t.stage.AtUpdated? then (if w.Live? then AfterInsert(db, w.m) else ChatEvent(db, w.s.chat))
    else []
  }

  /** Run without interruption, the statements are those of the operation. */
  lemma TogetherTheyPersist(db: Tables, m: WaMessage)
    requires IsContent(m)
    ensures var ins := m.id !in db.messages; var w := Live(m);
      var db1 := Execute(Execute(db, Thread(w, AtChat, false)), Thread(w, AtContact, false));
      var db2 := Execute(Execute(db1, Thread(w, AtInsert, false)), Thread(w, AtMedia, ins));
      Execute(Execute(db2, Thread(w, AtLast, ins)), Thread(w, AtUnread, ins)) == PersistMessage(db, m)
  {
  }

  /** The same for a handler that finishes a sent media message. */
  lemma TogetherTheyFinalize(db: Tables, s: Sent)
    ensures var ins := s.id !in db.messages; var w := SentMedia(s);
      var db1 := Execute(Execute(db, Thread(w, AtChat, false)), Thread(w, AtInsert, false));
      var db2 := Execute(Execute(db1, Thread(w, AtMedia, ins)), Thread(w, AtDownloaded, ins));
      Execute(db2, Thread(w, AtLast, ins)) == FinalizeSentMedia(db, s)
  {
  }

  /** And for one that stores a sent text. */
  lemma TogetherTheyStore(db: Tables, s: Sent)
    ensures var ins := s.id !in db.messages; var w := SentText(s);
      Execute(Execute(Execute(db, Thread(w, AtChat, false)), Thread(w, AtInsert, false)), Thread(w, AtLast, ins))
      == StoreOutgoing(db, s)
  {
  }

  /** What the last two steps publish: for a live message the events of the operation, for a
      sent media message its id and then its chat, for a sent text nothing; and only if the row
      was new. */
  lemma TogetherTheyPublish(db: Tables, t: Thread)
    requires Wellformed(t.work)
    ensures var told := Emitted(db, t.(stage := AtReceived)) + Emitted(db, t.(stage := AtUpdated));
      && (!t.inserted || t.work.SentText? ==> told == [])
      && (t.inserted && t.work.Live? ==>
            forall before: Tables :: t.work.m.id !in before.messages ==> told == EventsOf(before, db, t.work.m))
      && (t.inserted && t.work.SentMedia? ==>
            told == [MessageReceived(t.work.s.id, t.work.s.chat)]
                    + if t.work.s.chat in db.chats
                      then [ChatUpdated(t.work.s.chat, db.chats[t.work.s.chat].unread, db.chats[t.work.s.chat].lastTs)]
                      else [])
  {
  }

  // ------------------------------------------------------------------- the machine

  /** `due` records the ids whose row was inserted by a work that announces it. */
  datatype State = State(db: Tables, published: seq<Domain>, threads: map<nat, Thread>, due: set<Id>)

  datatype Action = Begin(t: nat, w: Work) | Step(t: nat) | Other(statement: Statement)

  /** Thread 0 is the worker, one event at a time. */
  predicate Enabled(s: State, a: Action) {
    match a
    case Begin(t, w) => t !in s.threads && Wellformed(w) && (w.Live? <==> t == 0)
    case Step(t) => t in s.threads && Wellformed(s.threads[t].work)
    case Other(_) => true
  }

  function Inserts(s: State, t: Thread): bool { t.stage.AtInsert? && IdOf(t.work) !in s.db.messages }

  function Moved(s: State, t: nat): map<nat, Thread>
    requires t in s.threads
  {
    var th := s.threads[t];
    if th.stage.AtUpdated? then s.threads - {t}
    else s.threads[t := Thread(th.work, Following(th.stage), th.inserted || Inserts(s, th))]
  }

  function Next(s: State, a: Action): State
    requires Enabled(s, a)
  {
    match a
    case Begin(t, w) => s.(threads := s.threads[t := Thread(w, AtChat, false)])
    case Step(t) =>
      var th := s.threads[t];
      State(Execute(s.db, th), s.published + Emitted(s.db, th), Moved(s, t),
            if Inserts(s, th) && Announces(th.work) then s.due + {IdOf(th.work)} else s.due)
    case Other(st) => s.(db := After(s.db, st))
  }

  predicate StepAt(trace: seq<State>, acts: seq<Action>, i: nat)
    requires i < |acts| < |trace|
  {
    Enabled(trace[i], acts[i]) && trace[i + 1] == Next(trace[i], acts[i])
  }

  /** Runs start from any tables whose references are resolved, with nothing published. */
  predicate IsRun(trace: seq<State>, acts: seq<Action>) {
    && |trace| == |acts| + 1
    && Resolved(trace[0].db) && trace[0] == State(trace[0].db, [], map[], {})
    && forall i :: 0 <= i < |acts| ==> StepAt(trace, acts, i)
  }

  // ----------------------------------------------------------------- the invariant

  /** Where a thread stands, its chat and its row exist. */
  predicate Grounded(db: Tables, t: Thread) {
    && Wellformed(t.work)
    && (Order(t.stage) > 0 ==> ChatOf(t.work) in db.chats)
    && (Order(t.stage) > 2 ==> IdOf(t.work) in db.messages)
    && (t.inserted ==> Order(t.stage) > 2 && db.messages[IdOf(t.work)].chat == ChatOf(t.work))
  }

  predicate AllGrounded(s: State) { forall t :: t in s.threads ==> Grounded(s.db, s.threads[t]) }

  /** The thread still has to publish the row it inserted. */
  predicate Owes(t: Thread) { t.inserted && Announces(t.work) && Order(t.stage) <= 7 }

  /** At most one thread owes an id, and none that was published. */
  predicate OneDebtor(s: State) {
    && (forall t, u :: t in s.threads && u in s.threads && t != u && Owes(s.threads[t]) && Owes(s.threads[u]) ==>
          IdOf(s.threads[t].work) != IdOf(s.threads[u].work))
    && (forall t :: t in s.threads && Owes(s.threads[t]) ==> IdOf(s.threads[t].work) !in Received(s.published))
  }

  function Received(published: seq<Domain>): set<Id> {
    set i | 0 <= i < |published| && published[i].MessageReceived? :: published[i].id
  }

  predicate OnceEach(published: seq<Domain>) {
    forall i, j :: 0 <= i < j < |published| && published[i].MessageReceived? && published[j].MessageReceived? ==>
      published[i].id != published[j].id
  }

  predicate Stored(db: Tables, d: Domain) {
    d.MessageReceived? ==> d.id in db.messages && db.messages[d.id].chat == d.chat
  }

  predicate AllStored(s: State) { forall i :: 0 <= i < |s.published| ==> Stored(s.db, s.published[i]) }

  predicate OwedBy(s: State, t: nat, x: Id) { t in s.threads && Owes(s.threads[t]) && IdOf(s.threads[t].work) == x }

  ghost predicate Owed(s: State, x: Id) { exists t :: OwedBy(s, t, x) }

  ghost predicate DueIsAnnounced(s: State) { forall x :: x in s.due <==> x in Received(s.published) || Owed(s, x) }

  ghost predicate Inv(s: State) {
    Resolved(s.db) && AllGrounded(s) && OneDebtor(s) && OnceEach(s.published) && AllStored(s) && DueIsAnnounced(s)
  }

  // ------------------------------------------------------------------ preservation

  lemma ExecuteSafe(db: Tables, t: Thread)
    requires Grounded(db, t)
    ensures Safe(db, Execute(db, t))
  {
    var w := t.work;
    match t.stage
    case AtChat =>
      if w.Live? { UpsertChatSafe(db, w.m.chat, w.m.group, w.m.name); } else { UpsertChatSafe(db, w.s.chat, w.s.group, w.s.name); }
    case AtContact => if w.Live? { ContactSafe(db, w.m); }
    case AtInsert => InsertSafe(db, IdOf(w), NewRow(w));
    case AtMedia => MediaWrittenSafe(db, w);
    case AtDownloaded => if w.SentMedia? { DownloadedSafe(db, w.s.id); }
    case AtLast => LastWrittenSafe(db, w, t.inserted);
    case AtUnread => UnreadSafe(db, ChatOf(w), 0);
    case AtReceived =>
    case AtUpdated =>
  }

  lemma MediaWrittenSafe(db: Tables, w: Work)
    requires Wellformed(w)
    ensures Safe(db, MediaWritten(db, w))
  {
    if w.Live? {
      MediaPartSafe(db, w.m);
    } else if w.SentMedia? {
      MediaSafe(db, w.s.id, Media(w.s.id, w.s.kind, 0, false));
    }
  }

  lemma LastWrittenSafe(db: Tables, w: Work, inserted: bool)
    requires Wellformed(w)
    ensures Safe(db, LastWritten(db, w, inserted))
  {
    if w.Live? {
      LastMessageSafe(db, w.m.chat, w.m.id, w.m.ts, Preview(w.m.body.text, w.m.body.kind));
    } else {
      LastMessageSafe(db, w.s.chat, w.s.id, w.s.ts, Preview(w.s.text, w.s.kind));
      LastMessageSafe(db, w.s.chat, w.s.id, w.s.ts, w.s.text);
    }
  }

  lemma GroundedStays(a: Tables, b: Tables, t: Thread)
    requires Grounded(a, t) && Grows(a, b)
    ensures Grounded(b, t)
  {
  }

  /** After its own statement a thread is grounded at its next stage. */
  lemma GroundedMoves(s: State, t: nat)
    requires t in s.threads && Grounded(s.db, s.threads[t]) && !s.threads[t].stage.AtUpdated?
    ensures Grounded(Execute(s.db, s.threads[t]), Moved(s, t)[t])
  {
    var th := s.threads[t];
    ExecuteSafe(s.db, th);
    if th.stage.AtInsert? {
      InsertSafe(s.db, IdOf(th.work), NewRow(th.work));
    }
  }

  lemma GrowsKeepsStored(a: Tables, b: Tables, published: seq<Domain>)
    requires Grows(a, b) && forall i :: 0 <= i < |published| ==> Stored(a, published[i])
    ensures forall i :: 0 <= i < |published| ==> Stored(b, published[i])
  {
    forall i | 0 <= i < |published| ensures Stored(b, published[i]) {
      assert Stored(a, published[i]);
    }
  }

  lemma OtherKeeps(s: State, st: Statement)
    requires Inv(s)
    ensures Inv(Next(s, Other(st)))
  {
    var s' := Next(s, Other(st));
    StatementSafe(s.db, st);
    forall t | t in s'.threads ensures Grounded(s'.db, s'.threads[t]) {
      GroundedStays(s.db, s'.db, s.threads[t]);
    }
    GrowsKeepsStored(s.db, s'.db, s.published);
    forall x ensures Owed(s', x) <==> Owed(s, x) {
      assert forall t :: OwedBy(s', t, x) <==> OwedBy(s, t, x);
    }
  }

  lemma BeginKeeps(s: State, t: nat, w: Work)
    requires Inv(s) && Enabled(s, Begin(t, w))
    ensures Inv(Next(s, Begin(t, w)))
  {
    var s' := Next(s, Begin(t, w));
    forall x ensures Owed(s', x) <==> Owed(s, x) {
      assert forall u :: OwedBy(s', u, x) <==> OwedBy(s, u, x);
    }
  }

  lemma StepKeepsTables(s: State, t: nat)
    requires Inv(s) && Enabled(s, Step(t))
    ensures var s' := Next(s, Step(t)); Resolved(s'.db) && AllGrounded(s') && Grows(s.db, s'.db)
  {
    var s' := Next(s, Step(t));
    ExecuteSafe(s.db, s.threads[t]);
    forall u | u in s'.threads ensures Grounded(s'.db, s'.threads[u]) {
      if u == t {
        GroundedMoves(s, t);
      } else {
        GroundedStays(s.db, s'.db, s.threads[u]);
      }
    }
  }

  lemma EmittedIsStored(s: State, t: nat)
    requires Inv(s) && Enabled(s, Step(t))
    ensures AllStored(Next(s, Step(t)))
  {
    var s' := Next(s, Step(t));
    var th := s.threads[t];
    StepKeepsTables(s, t);
    GrowsKeepsStored(s.db, s'.db, s.published);
    assert forall i :: 0 <= i < |Emitted(s.db, th)| ==> Stored(s'.db, Emitted(s.db, th)[i]);
  }

  lemma ReceivedOfAppend(published: seq<Domain>, more: seq<Domain>)
    requires |more| <= 1
    ensures Received(published + more) == Received(published) + Received(more)
  {
    var both := published + more;
    forall x | x in Received(published) ensures x in Received(both) {
      var i :| 0 <= i < |published| && published[i].MessageReceived? && published[i].id == x;
      assert both[i] == published[i];
    }
    forall x | x in Received(more) ensures x in Received(both) {
      assert both[|published|] == more[0];
    }
  }

  predicate Pays(t: Thread) { Owes(t) && t.stage.AtReceived? }

  lemma EmittedReceives(db: Tables, t: Thread)
    requires Wellformed(t.work)
    ensures |Emitted(db, t)| <= 1
    ensures Received(Emitted(db, t)) == if Pays(t) then {IdOf(t.work)} else {}
  {
    if Pays(t) {
      assert Emitted(db, t)[0].MessageReceived?;
    }
  }

  /** Stepping thread `t` changes only its own debt. */
  lemma DebtsAfterStep(s: State, t: nat, u: nat, x: Id)
    requires Enabled(s, Step(t))
    requires Grounded(s.db, s.threads[t])
    ensures OwedBy(Next(s, Step(t)), u, x) <==>
      if u == t then (OwedBy(s, t, x) && !Pays(s.threads[t]))
                     || (Inserts(s, s.threads[t]) && Announces(s.threads[t].work) && IdOf(s.threads[t].work) == x)
      else OwedBy(s, u, x)
  {
  }

  lemma StepKeepsOneDebtor(s: State, t: nat)
    requires Inv(s) && Enabled(s, Step(t))
    ensures OneDebtor(Next(s, Step(t))) && OnceEach(Next(s, Step(t)).published)
  {
    var s' := Next(s, Step(t));
    var th := s.threads[t];
    EmittedReceives(s.db, th);
    ReceivedOfAppend(s.published, Emitted(s.db, th));
    if Inserts(s, th) {
      InsertedIsNew(s, t);
    }
    forall u, v | u in s'.threads && v in s'.threads && u != v && Owes(s'.threads[u]) && Owes(s'.threads[v])
      ensures IdOf(s'.threads[u].work) != IdOf(s'.threads[v].work)
    {
      DebtsAfterStep(s, t, u, IdOf(s'.threads[u].work));
      DebtsAfterStep(s, t, v, IdOf(s'.threads[v].work));
    }
    forall u | u in s'.threads && Owes(s'.threads[u]) ensures IdOf(s'.threads[u].work) !in Received(s'.published) {
      DebtsAfterStep(s, t, u, IdOf(s'.threads[u].work));
    }
  }

  /** An id that is being inserted was never published and is owed by nobody. */
  lemma InsertedIsNew(s: State, t: nat)
    requires Inv(s) && t in s.threads && Inserts(s, s.threads[t])
    ensures IdOf(s.threads[t].work) !in Received(s.published)
    ensures forall u :: u in s.threads && Owes(s.threads[u]) ==> IdOf(s.threads[u].work) != IdOf(s.threads[t].work)
  {
    var x := IdOf(s.threads[t].work);
    forall i | 0 <= i < |s.published| && s.published[i].MessageReceived? ensures s.published[i].id != x {
      assert Stored(s.db, s.published[i]);
    }
    forall u | u in s.threads && Owes(s.threads[u]) ensures IdOf(s.threads[u].work) != x {
      assert Grounded(s.db, s.threads[u]);
    }
  }

  lemma StepKeepsDue(s: State, t: nat)
    requires Inv(s) && Enabled(s, Step(t))
    ensures DueIsAnnounced(Next(s, Step(t)))
  {
    var s' := Next(s, Step(t));
    var th := s.threads[t];
    EmittedReceives(s.db, th);
    ReceivedOfAppend(s.published, Emitted(s.db, th));
    assert Pays(th) ==> OwedBy(s, t, IdOf(th.work));
    forall x ensures x in s'.due <==> x in Received(s'.published) || Owed(s', x) {
      OwedAfterStep(s, t, x);
    }
  }

  lemma OwedAfterStep(s: State, t: nat, x: Id)
    requires Inv(s) && Enabled(s, Step(t))
    ensures var th := s.threads[t]; var own := IdOf(th.work) == x;
      Owed(Next(s, Step(t)), x) <==> (Owed(s, x) && !(Pays(th) && own)) || (Inserts(s, th) && Announces(th.work) && own)
  {
    var s' := Next(s, Step(t));
    DebtsAfterStep(s, t, t, x);
    forall u ensures u != t ==> (OwedBy(s', u, x) <==> OwedBy(s, u, x)) {
      DebtsAfterStep(s, t, u, x);
    }
    if Owed(s, x) && !(Pays(s.threads[t]) && IdOf(s.threads[t].work) == x) {
      var u :| OwedBy(s, u, x);
      assert OwedBy(s', u, x);
    }
    if Inserts(s, s.threads[t]) && Announces(s.threads[t].work) && IdOf(s.threads[t].work) == x {
      assert OwedBy(s', t, x);
    }
  }

  lemma StepKeeps(s: State, a: Action)
    requires Inv(s) && Enabled(s, a)
    ensures Inv(Next(s, a))
  {
    match a
    case Begin(t, w) => BeginKeeps(s, t, w);
    case Other(st) => OtherKeeps(s, st);
    case Step(t) =>
      StepKeepsTables(s, t);
      EmittedIsStored(s, t);
      StepKeepsOneDebtor(s, t);
      StepKeepsDue(s, t);
  }

  lemma {:induction false} RunKeeps(trace: seq<State>, acts: seq<Action>, n: nat)
    requires IsRun(trace, acts) && n < |trace|
    ensures Inv(trace[n])
  {
    if n > 0 {
      RunKeeps(trace, acts, n - 1);
      assert StepAt(trace, acts, n - 1);
      StepKeeps(trace[n - 1], acts[n - 1]);
    }
  }

  // ------------------------------------------------------------------ main results

  /** In every interleaving a message id yields at most one message.received, whose row is
      stored in the announced chat, and all references between rows are resolved. */
  lemma ReceivedOnceAndStored(trace: seq<State>, acts: seq<Action>, n: nat)
    requires IsRun(trace, acts) && n < |trace|
    ensures var s := trace[n];
      && OnceEach(s.published) && Resolved(s.db)
      && forall i :: 0 <= i < |s.published| && s.published[i].MessageReceived? ==>
           && s.published[i].id in s.db.messages && s.db.messages[s.published[i].id].chat == s.published[i].chat
           && s.published[i].chat in s.db.chats
  {
    RunKeeps(trace, acts, n);
    var s := trace[n];
    forall i | 0 <= i < |s.published| && s.published[i].MessageReceived?
      ensures s.published[i].id in s.db.messages && s.db.messages[s.published[i].id].chat == s.published[i].chat
    {
      assert Stored(s.db, s.published[i]);
    }
  }

  /** When no work is under way, exactly the rows that an announcing work inserted were
      announced. */
  lemma InsertedRowsAreAnnounced(trace: seq<State>, acts: seq<Action>, n: nat)
    requires IsRun(trace, acts) && n < |trace| && trace[n].threads == map[]
    ensures Received(trace[n].published) == trace[n].due
  {
    RunKeeps(trace, acts, n);
    forall x ensures !Owed(trace[n], x) {
      assert forall t :: !OwedBy(trace[n], t, x);
    }
  }
}
