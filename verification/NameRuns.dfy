/**
 Everything that stores, caches or returns a chat name, interleaved: resolutions in
 any number of threads (lookup, pipeline and store are separate steps), the writers
 of chat and group names, statements that write other tables, transactions that
 commit or roll back, a store that changes, and time.
 */
module NameRuns {
  import opened Wrappers
  import opened Tables
  import opened NameResolver

  /** Where a cached answer comes from: the steps at which it was read and stored. */
  datatype Origin = Origin(readAt: nat, storedAt: nat)

  /** A thread resolving a name, or holding one that it may write. */
  datatype Query =
    | Asking(jid: Jid, hint: string)
    | Missed(jid: Jid, hint: string)
    | Computed(jid: Jid, hint: string, answer: Answer, readAt: nat)
    | Answered(jid: Jid, hint: string, answer: Answer, from: Origin, at: nat)
    | Holding(jid: Jid, name: string, subject: bool)

  /** `subjects` is what the server answers to GetGroupInfo. `given` records the names that a
      group event, such an answer or a history conversation reported for a chat, and those
      stored at the start; `told` leaves out the history. */
  datatype State = State(
    world: World, clock: int, cache: map<Jid, Entry>, origins: map<Jid, Origin>,
    threads: map<nat, Query>, snapshot: Option<Tables>, subjects: map<Jid, string>,
    given: set<(Jid, string)>, told: set<(Jid, string)>, steps: nat)

  datatype Action =
    | Tick(ms: nat)
    | SourceChanges(source: Option<Source>)
    | OtherTables(contacts: map<Jid, Contact>, messages: map<Id, Message>)
    | Ask(t: nat, jid: Jid, hint: string)
    | Lookup(t: nat)
    | Compute(t: nat)
    | Store(t: nat)
    | ServerRenames(jid: Jid, name: string)
    | GroupEvent(t: nat, jid: Jid, name: string)
    | QueryInfo(t: nat, jid: Jid)
    | HistoryName(t: nat, jid: Jid, name: string)
    | HoldGroupName(t: nat, jid: Jid)
    | HoldChatName(t: nat, jid: Jid)
    | WriteChat(t: nat, group: bool)
    | WriteGroup(t: nat)
    | Leave(t: nat)
    | BeginTx
    | Commit
    | Rollback

  predicate Enabled(s: State, a: Action) {
    match a
    case Tick(_) => true
    case SourceChanges(_) => true
    case OtherTables(_, _) => true
    case Ask(t, jid, _) => t !in s.threads && jid in s.world.parsed
    case Lookup(t) => t in s.threads && s.threads[t].Asking?
    case Compute(t) => t in s.threads && s.threads[t].Missed? && s.threads[t].jid in s.world.parsed
    case Store(t) => t in s.threads && s.threads[t].Computed?
    case ServerRenames(_, _) => true
    case GroupEvent(t, _, _) => t !in s.threads
    case QueryInfo(t, jid) => t !in s.threads && jid in s.subjects
    case HistoryName(t, _, _) => t !in s.threads
    case HoldGroupName(t, jid) => t !in s.threads && jid in s.world.db.groups
    case HoldChatName(t, jid) => t !in s.threads && jid in s.world.db.chats
    case WriteChat(t, _) => t in s.threads && (s.threads[t].Answered? || s.threads[t].Holding?)
    case WriteGroup(t) => t in s.threads && s.threads[t].Holding? && s.threads[t].subject
    case Leave(t) => t in s.threads
    case BeginTx => s.snapshot.None?
    case Commit => s.snapshot.Some?
    case Rollback => s.snapshot.Some?
  }

  /** The name a thread may write: an unresolved answer is never persisted. */
  function Writable(q: Query): string
    requires q.Answered? || q.Holding?
  {
    if q.Holding? then q.name else if q.answer.resolved then q.answer.name else ""
  }

  function AfterLookup(s: State, q: Query): Query
    requires q.Asking? && s.origins.Keys == s.cache.Keys
  {
    var hit := Looked(s.cache, q.jid, s.clock);
    if q.hint == "" && hit.Some?
    then Answered(q.jid, q.hint, Answer(hit.value.name, hit.value.resolved), s.origins[q.jid], s.steps)
    else Missed(q.jid, q.hint)
  }

  function Stored(s: State, t: nat): State
    requires t in s.threads && s.threads[t].Computed?
  {
    var q := s.threads[t];
    var origin := Origin(q.readAt, s.steps);
    var s1 := s.(threads := s.threads[t := Answered(q.jid, q.hint, q.answer, origin, s.steps)]);
    if q.hint != "" then s1
    else s1.(cache := Remembered(s.cache, q.jid, q.answer, s.clock),
             origins := (if |s.cache| >= NAME_CACHE_MAX_SIZE then map[] else s.origins)[q.jid := origin])
  }

  function WithDb(s: State, db: Tables): State { s.(world := s.world.(db := db)) }

  /** Group metadata in the hands of a thread. */
  function Told(s: State, t: nat, jid: Jid, name: string): State {
    s.(given := s.given + {(jid, name)}, told := s.told + {(jid, name)},
       threads := s.threads[t := Holding(jid, name, true)])
  }

  function Changed(s: State, a: Action): State
    requires Enabled(s, a) && s.origins.Keys == s.cache.Keys
  {
    match a
    case Tick(ms) => s.(clock := s.clock + ms)
    case SourceChanges(source) => s.(world := s.world.(source := source))
    case OtherTables(contacts, messages) => WithDb(s, s.world.db.(contacts := contacts, messages := messages))
    case Ask(t, jid, hint) => s.(threads := s.threads[t := Asking(jid, hint)])
    case Lookup(t) => s.(threads := s.threads[t := AfterLookup(s, s.threads[t])])
    case Compute(t) =>
      var q := s.threads[t];
      s.(threads := s.threads[t := Computed(q.jid, q.hint, Uncached(s.world, q.jid, q.hint), s.steps)])
    case Store(t) => Stored(s, t)
    case ServerRenames(jid, name) => s.(subjects := s.subjects[jid := name])
    case GroupEvent(t, jid, name) => Told(s, t, jid, name)
    case QueryInfo(t, jid) => Told(s, t, jid, s.subjects[jid])
    case HistoryName(t, jid, name) =>
      s.(given := s.given + {(jid, name)}, threads := s.threads[t := Holding(jid, name, false)])
    case HoldGroupName(t, jid) => s.(threads := s.threads[t := Holding(jid, s.world.db.groups[jid], true)])
    case HoldChatName(t, jid) => s.(threads := s.threads[t := Holding(jid, s.world.db.chats[jid].name, false)])
    case WriteChat(t, group) => WithDb(s, UpsertChat(s.world.db, s.threads[t].jid, group, Writable(s.threads[t])))
    case WriteGroup(t) => WithDb(s, UpsertGroup(s.world.db, s.threads[t].jid, s.threads[t].name))
    case Leave(t) => s.(threads := s.threads - {t})
    case BeginTx => s.(snapshot := Some(s.world.db))
    case Commit => s.(snapshot := None)
    case Rollback => WithDb(s, s.snapshot.value).(snapshot := None)
  }

  function Next(s: State, a: Action): State
    requires Enabled(s, a) && s.origins.Keys == s.cache.Keys
  {
    Changed(s, a).(steps := s.steps + 1)
  }

  predicate StepAt(trace: seq<State>, acts: seq<Action>, i: nat)
    requires i < |acts| < |trace|
  {
    && Enabled(trace[i], acts[i]) && trace[i].origins.Keys == trace[i].cache.Keys
    && trace[i + 1] == Next(trace[i], acts[i])
  }

  /** Every name stored for a group is among the given ones. */
  predicate NamesAreGiven(db: Tables, parsed: map<Jid, Parts>, given: set<(Jid, string)>) {
    && (forall j :: j in db.groups && IsGroup(parsed, j) && db.groups[j] != "" ==> (j, db.groups[j]) in given)
    && (forall j :: j in db.chats && IsGroup(parsed, j) && db.chats[j].name != "" ==> (j, db.chats[j].name) in given)
  }

  /** Every subject in cae_groups is among those told. */
  predicate SubjectsAreTold(db: Tables, told: set<(Jid, string)>) {
    forall j :: j in db.groups && db.groups[j] != "" ==> (j, db.groups[j]) in told
  }

  predicate IsGroup(parsed: map<Jid, Parts>, j: Jid) {
    j in parsed && parsed[j].server.GroupServer? && parsed[j].text == j
  }

  /** Runs start with any tables and store and with an empty cache. */
  predicate IsRun(trace: seq<State>, acts: seq<Action>) {
    && |trace| == |acts| + 1
    && trace[0] == trace[0].(cache := map[], origins := map[], threads := map[], snapshot := None, steps := 0)
    && NamesAreGiven(trace[0].world.db, trace[0].world.parsed, trace[0].given)
    && SubjectsAreTold(trace[0].world.db, trace[0].told)
    && forall i :: 0 <= i < |acts| ==> StepAt(trace, acts, i)
  }

  // --------------------------------------------------------------------- provenance

  predicate AnswerIsGiven(s: State, j: Jid, a: Answer) { IsGroup(s.world.parsed, j) && a.resolved ==> (j, a.name) in s.given }

  predicate QueryIsGiven(s: State, q: Query) {
    match q
    case Computed(j, _, a, _) => AnswerIsGiven(s, j, a)
    case Answered(j, _, a, _, _) => AnswerIsGiven(s, j, a)
    case Holding(j, name, _) => IsGroup(s.world.parsed, j) && name != "" ==> (j, name) in s.given
    case _ => true
  }

  predicate Provenance(s: State) {
    && NamesAreGiven(s.world.db, s.world.parsed, s.given)
    && (s.snapshot.Some? ==> NamesAreGiven(s.snapshot.value, s.world.parsed, s.given))
    && (forall t :: t in s.threads ==> QueryIsGiven(s, s.threads[t]))
    && (forall j :: j in s.cache ==> AnswerIsGiven(s, j, Answer(s.cache[j].name, s.cache[j].resolved)))
  }

  /** The pipeline names a group only as the tables do. */
  lemma PipelineIsGiven(s: State, j: Jid, hint: string)
    requires NamesAreGiven(s.world.db, s.world.parsed, s.given) && j in s.world.parsed
    ensures AnswerIsGiven(s, j, Uncached(s.world, j, hint))
  {
    if IsGroup(s.world.parsed, j) {
      GroupsIgnoreTheHint(s.world, s.world.parsed[j], hint);
    }
  }

  lemma WriteChatIsGiven(s: State, j: Jid, group: bool, name: string)
    requires NamesAreGiven(s.world.db, s.world.parsed, s.given)
    requires IsGroup(s.world.parsed, j) && name != "" ==> (j, name) in s.given
    ensures NamesAreGiven(UpsertChat(s.world.db, j, group, name), s.world.parsed, s.given)
  {
    var db := UpsertChat(s.world.db, j, group, name);
    forall k | k in db.chats && IsGroup(s.world.parsed, k) && db.chats[k].name != ""
      ensures (k, db.chats[k].name) in s.given
    {
      assert k != j ==> k in s.world.db.chats && db.chats[k] == s.world.db.chats[k];
    }
  }

  lemma WriteGroupIsGiven(s: State, j: Jid, name: string)
    requires NamesAreGiven(s.world.db, s.world.parsed, s.given)
    requires IsGroup(s.world.parsed, j) && name != "" ==> (j, name) in s.given
    ensures NamesAreGiven(UpsertGroup(s.world.db, j, name), s.world.parsed, s.given)
  {
  }

  predicate Resolving(a: Action) { a.Lookup? || a.Compute? || a.Store? }

  lemma ResolvingKeepsProvenance(s: State, a: Action)
    requires Provenance(s) && Enabled(s, a) && s.origins.Keys == s.cache.Keys && Resolving(a)
    ensures Provenance(Next(s, a))
  {
    var s' := Next(s, a);
    if a.Compute? {
      PipelineIsGiven(s, s.threads[a.t].jid, s.threads[a.t].hint);
    }
    forall t | t in s'.threads ensures QueryIsGiven(s', s'.threads[t]) {
      assert t != a.t ==> s'.threads[t] == s.threads[t];
      assert QueryIsGiven(s, s.threads[t]);
    }
    forall j | j in s'.cache ensures AnswerIsGiven(s', j, Answer(s'.cache[j].name, s'.cache[j].resolved)) {
      assert QueryIsGiven(s, s.threads[a.t]);
      assert j in s.cache ==> AnswerIsGiven(s, j, Answer(s.cache[j].name, s.cache[j].resolved));
    }
  }

  predicate Writing(a: Action) { a.WriteChat? || a.WriteGroup? }

  lemma WritingKeepsProvenance(s: State, a: Action)
    requires Provenance(s) && Enabled(s, a) && s.origins.Keys == s.cache.Keys && Writing(a)
    ensures Provenance(Next(s, a))
  {
    var s' := Next(s, a);
    assert QueryIsGiven(s, s.threads[a.t]);
    if a.WriteChat? {
      WriteChatIsGiven(s, s.threads[a.t].jid, a.group, Writable(s.threads[a.t]));
    } else {
      WriteGroupIsGiven(s, s.threads[a.t].jid, s.threads[a.t].name);
    }
    forall t | t in s'.threads ensures QueryIsGiven(s', s'.threads[t]) {
      assert QueryIsGiven(s, s.threads[t]);
    }
    forall j | j in s'.cache ensures AnswerIsGiven(s', j, Answer(s'.cache[j].name, s'.cache[j].resolved)) {
      assert AnswerIsGiven(s, j, Answer(s.cache[j].name, s.cache[j].resolved));
    }
  }

  lemma GivingKeepsNames(db: Tables, parsed: map<Jid, Parts>, given: set<(Jid, string)>, more: set<(Jid, string)>)
    requires NamesAreGiven(db, parsed, given)
    ensures NamesAreGiven(db, parsed, given + more)
  {
  }

  /** The names that a step reports, as a set. */
  function Reported(s: State, a: Action): set<(Jid, string)>
    requires Enabled(s, a)
  {
    match a
    case GroupEvent(_, jid, name) => {(jid, name)}
    case QueryInfo(_, jid) => {(jid, s.subjects[jid])}
    case HistoryName(_, jid, name) => {(jid, name)}
    case _ => {}
  }

  lemma RestKeepsProvenance(s: State, a: Action)
    requires Provenance(s) && Enabled(s, a) && s.origins.Keys == s.cache.Keys && !Writing(a) && !Resolving(a)
    ensures Provenance(Next(s, a))
  {
    var s' := Next(s, a);
    var more := Reported(s, a);
    assert s'.given == s.given + more;
    GivingKeepsNames(s.world.db, s.world.parsed, s.given, more);
    if s.snapshot.Some? {
      GivingKeepsNames(s.snapshot.value, s.world.parsed, s.given, more);
    }
    forall t | t in s'.threads ensures QueryIsGiven(s', s'.threads[t]) {
      assert t in s.threads && s'.threads[t] == s.threads[t] ==> QueryIsGiven(s, s.threads[t]);
    }
    forall j | j in s'.cache ensures AnswerIsGiven(s', j, Answer(s'.cache[j].name, s'.cache[j].resolved)) {
      assert AnswerIsGiven(s, j, Answer(s.cache[j].name, s.cache[j].resolved));
    }
  }

  lemma {:induction false} ProvenanceOverRuns(trace: seq<State>, acts: seq<Action>, n: nat)
    requires IsRun(trace, acts) && n < |trace|
    ensures Provenance(trace[n])
  {
    if n > 0 {
      ProvenanceOverRuns(trace, acts, n - 1);
      assert StepAt(trace, acts, n - 1);
      if Resolving(acts[n - 1]) {
        ResolvingKeepsProvenance(trace[n - 1], acts[n - 1]);
      } else if Writing(acts[n - 1]) {
        WritingKeepsProvenance(trace[n - 1], acts[n - 1]);
      } else {
        RestKeepsProvenance(trace[n - 1], acts[n - 1]);
      }
    }
  }

  /** Group metadata: an event, or the answer of the server as it stands. */
  predicate Tells(s: State, a: Action, j: Jid, name: string) {
    || (a.GroupEvent? && a.jid == j && a.name == name)
    || (a.QueryInfo? && a.jid == j && j in s.subjects && s.subjects[j] == name)
  }

  predicate Gives(s: State, a: Action, j: Jid, name: string) {
    Tells(s, a, j, name) || (a.HistoryName? && a.jid == j && a.name == name)
  }

  /** A given name was there at the start or was given by a step. */
  lemma {:induction false} GivenComesFromSteps(trace: seq<State>, acts: seq<Action>, n: nat, j: Jid, name: string)
    requires IsRun(trace, acts) && n < |trace| && (j, name) in trace[n].given
    ensures (j, name) in trace[0].given || exists i :: 0 <= i < n && Gives(trace[i], acts[i], j, name)
  {
    if n > 0 {
      assert StepAt(trace, acts, n - 1);
      if (j, name) in trace[n - 1].given {
        GivenComesFromSteps(trace, acts, n - 1, j, name);
      } else {
        assert Gives(trace[n - 1], acts[n - 1], j, name);
      }
    }
  }

  lemma {:induction false} ToldComesFromSteps(trace: seq<State>, acts: seq<Action>, n: nat, j: Jid, name: string)
    requires IsRun(trace, acts) && n < |trace| && (j, name) in trace[n].told
    ensures (j, name) in trace[0].told || exists i :: 0 <= i < n && Tells(trace[i], acts[i], j, name)
  {
    if n > 0 {
      assert StepAt(trace, acts, n - 1);
      if (j, name) in trace[n - 1].told {
        ToldComesFromSteps(trace, acts, n - 1, j, name);
      } else {
        assert Tells(trace[n - 1], acts[n - 1], j, name);
      }
    }
  }

  predicate HeldIsTold(s: State, q: Query) { q.Holding? && q.subject && q.name != "" ==> (q.jid, q.name) in s.told }

  predicate SubjectsOk(s: State) {
    && SubjectsAreTold(s.world.db, s.told) && (s.snapshot.Some? ==> SubjectsAreTold(s.snapshot.value, s.told))
    && forall t :: t in s.threads ==> HeldIsTold(s, s.threads[t])
  }

  lemma StepKeepsSubjects(s: State, a: Action)
    requires SubjectsOk(s) && Enabled(s, a) && s.origins.Keys == s.cache.Keys
    ensures SubjectsOk(Next(s, a))
  {
    var s' := Next(s, a);
    assert s.told <= s'.told;
    if a.WriteGroup? {
      assert HeldIsTold(s, s.threads[a.t]);
    }
    forall t | t in s'.threads ensures HeldIsTold(s', s'.threads[t]) {
      assert t in s.threads ==> HeldIsTold(s, s.threads[t]);
    }
  }

  lemma {:induction false} SubjectsOverRuns(trace: seq<State>, acts: seq<Action>, n: nat)
    requires IsRun(trace, acts) && n < |trace|
    ensures SubjectsOk(trace[n])
  {
    if n > 0 {
      SubjectsOverRuns(trace, acts, n - 1);
      assert StepAt(trace, acts, n - 1);
      StepKeepsSubjects(trace[n - 1], acts[n - 1]);
    }
  }

  /** Each subject in cae_groups was there at the start or is group metadata: neither a push
      hint nor a history conversation ever gets into that table. */
  lemma SubjectsHaveProvenance(trace: seq<State>, acts: seq<Action>, n: nat, j: Jid)
    requires IsRun(trace, acts) && n < |trace| && j in trace[n].world.db.groups && trace[n].world.db.groups[j] != ""
    ensures var name := trace[n].world.db.groups[j];
      (j, name) in trace[0].told || exists i :: 0 <= i < n && Tells(trace[i], acts[i], j, name)
  {
    SubjectsOverRuns(trace, acts, n);
    ToldComesFromSteps(trace, acts, n, j, trace[n].world.db.groups[j]);
  }

  lemma {:induction false} ParsedNeverChanges(trace: seq<State>, acts: seq<Action>, n: nat)
    requires IsRun(trace, acts) && n < |trace|
    ensures trace[n].world.parsed == trace[0].world.parsed
  {
    if n > 0 {
      assert StepAt(trace, acts, n - 1);
      ParsedNeverChanges(trace, acts, n - 1);
    }
  }

  /** Each name stored, cached or returned for a group was there at the start, or group
      metadata or a history conversation had reported it for that group before. */
  lemma GroupNamesHaveProvenance(trace: seq<State>, acts: seq<Action>, n: nat, j: Jid, name: string)
    requires IsRun(trace, acts) && n < |trace| && IsGroup(trace[0].world.parsed, j)
    requires
      || (name != "" && j in trace[n].world.db.chats && trace[n].world.db.chats[j].name == name)
      || (name != "" && j in trace[n].world.db.groups && trace[n].world.db.groups[j] == name)
      || (j in trace[n].cache && trace[n].cache[j].resolved && trace[n].cache[j].name == name)
      || (exists t, hint, o, at :: t in trace[n].threads && trace[n].threads[t] == Answered(j, hint, Answer(name, true), o, at))
    ensures (j, name) in trace[0].given || exists i :: 0 <= i < n && Gives(trace[i], acts[i], j, name)
  {
    ProvenanceOverRuns(trace, acts, n);
    ParsedNeverChanges(trace, acts, n);
    var s := trace[n];
    if t, hint, o, at :| t in s.threads && s.threads[t] == Answered(j, hint, Answer(name, true), o, at) {
      assert QueryIsGiven(s, s.threads[t]);
    } else if j in s.cache && s.cache[j].resolved && s.cache[j].name == name {
      assert AnswerIsGiven(s, j, Answer(s.cache[j].name, s.cache[j].resolved));
    }
    GivenComesFromSteps(trace, acts, n, j, name);
  }

  // ---------------------------------------------------------------------- freshness

  /** Step `from.readAt` of the run computed this hintless answer and step `from.storedAt`
      stored it, at a clock value at most the answer's time to live before `now`. */
  predicate Fresh(trace: seq<State>, n: nat, j: Jid, a: Answer, from: Origin, now: int) {
    && from.readAt < from.storedAt < n <= |trace|
    && j in trace[from.readAt].world.parsed
    && a == Uncached(trace[from.readAt].world, j, "")
    && now <= trace[from.storedAt].clock + Ttl(a.resolved)
  }

  predicate QueryIsFresh(trace: seq<State>, n: nat, q: Query) {
    match q
    case Computed(j, hint, a, readAt) =>
      hint == "" ==> readAt < n <= |trace| && j in trace[readAt].world.parsed && a == Uncached(trace[readAt].world, j, "")
    case Answered(j, hint, a, from, at) => hint == "" ==> from.storedAt <= at < n <= |trace| && Fresh(trace, n, j, a, from, trace[at].clock)
    case _ => true
  }

  predicate EntryIsFresh(trace: seq<State>, n: nat, j: Jid, e: Entry, o: Origin) {
    && o.storedAt < |trace| && e.expires == trace[o.storedAt].clock + Ttl(e.resolved)
    && Fresh(trace, n, j, Answer(e.name, e.resolved), o, e.expires)
  }

  predicate AllFresh(trace: seq<State>, n: nat)
    requires n < |trace|
  {
    var s := trace[n];
    && s.steps == n && s.origins.Keys == s.cache.Keys && |s.cache| <= NAME_CACHE_MAX_SIZE
    && (forall t :: t in s.threads ==> QueryIsFresh(trace, n, s.threads[t]))
    && (forall j :: j in s.cache ==> EntryIsFresh(trace, n, j, s.cache[j], s.origins[j]))
  }

  lemma QueryStaysFresh(trace: seq<State>, n: nat, q: Query)
    requires QueryIsFresh(trace, n, q) && n + 1 < |trace|
    ensures QueryIsFresh(trace, n + 1, q)
  {
  }

  /** A hit answers what is stored, within its time. */
  lemma LookupIsFresh(trace: seq<State>, n: nat, q: Query)
    requires n + 1 < |trace| && AllFresh(trace, n) && q.Asking?
    ensures QueryIsFresh(trace, n + 1, AfterLookup(trace[n], q))
  {
    var s := trace[n];
    if q.hint == "" && Looked(s.cache, q.jid, s.clock).Some? {
      assert EntryIsFresh(trace, n, q.jid, s.cache[q.jid], s.origins[q.jid]);
    }
  }

  lemma StoreIsFresh(trace: seq<State>, n: nat, t: nat, j: Jid)
    requires n + 1 < |trace| && AllFresh(trace, n) && t in trace[n].threads && trace[n].threads[t].Computed?
    requires j in Stored(trace[n], t).cache
    ensures j in Stored(trace[n], t).origins
    ensures EntryIsFresh(trace, n + 1, j, Stored(trace[n], t).cache[j], Stored(trace[n], t).origins[j])
  {
    var s := trace[n];
    assert QueryIsFresh(trace, n, s.threads[t]);
    if j in s.cache {
      assert EntryIsFresh(trace, n, j, s.cache[j], s.origins[j]);
    }
  }

  predicate Ready(s: State, a: Action) { Enabled(s, a) && s.origins.Keys == s.cache.Keys }

  /** How a thread of the next state came about. */
  predicate Arises(s: State, a: Action, t: nat, q: Query)
    requires s.origins.Keys == s.cache.Keys
  {
    || q.Asking? || q.Holding?
    || (t in s.threads &&
        var p := s.threads[t];
        || q == p
        || (a.Lookup? && p.Asking? && q == AfterLookup(s, p))
        || (a.Compute? && p.Missed? && p.jid in s.world.parsed
            && q == Computed(p.jid, p.hint, Uncached(s.world, p.jid, p.hint), s.steps))
        || (a.Store? && p.Computed? && q == Answered(p.jid, p.hint, p.answer, Origin(p.readAt, s.steps), s.steps)))
  }

  lemma ThreadsArise(s: State, a: Action, t: nat)
    requires Ready(s, a) && t in Next(s, a).threads
    ensures Arises(s, a, t, Next(s, a).threads[t])
  {
  }

  lemma ArisingIsFresh(trace: seq<State>, n: nat, a: Action, t: nat, q: Query)
    requires n + 1 < |trace| && AllFresh(trace, n) && Arises(trace[n], a, t, q)
    ensures QueryIsFresh(trace, n + 1, q)
  {
    if t in trace[n].threads {
      QueryStaysFresh(trace, n, trace[n].threads[t]);
      if trace[n].threads[t].Asking? {
        LookupIsFresh(trace, n, trace[n].threads[t]);
      }
    }
  }

  lemma CacheAfter(s: State, a: Action)
    requires Ready(s, a)
    ensures var s' := Next(s, a);
      && s'.steps == s.steps + 1
      && if a.Store? then s'.cache == Stored(s, a.t).cache && s'.origins == Stored(s, a.t).origins
         else s'.cache == s.cache && s'.origins == s.origins
  {
  }

  lemma EntryStaysFresh(trace: seq<State>, n: nat, j: Jid, e: Entry, o: Origin)
    requires n + 1 < |trace| && EntryIsFresh(trace, n, j, e, o)
    ensures EntryIsFresh(trace, n + 1, j, e, o)
  {
  }

  lemma CacheStaysFresh(trace: seq<State>, n: nat, a: Action, j: Jid)
    requires n + 1 < |trace| && AllFresh(trace, n) && Ready(trace[n], a) && j in Next(trace[n], a).cache
    ensures j in Next(trace[n], a).origins
    ensures EntryIsFresh(trace, n + 1, j, Next(trace[n], a).cache[j], Next(trace[n], a).origins[j])
  {
    CacheAfter(trace[n], a);
    if a.Store? {
      StoreIsFresh(trace, n, a.t, j);
    } else {
      EntryStaysFresh(trace, n, j, trace[n].cache[j], trace[n].origins[j]);
    }
  }

  lemma SizesStay(s: State, a: Action)
    requires Enabled(s, a) && s.origins.Keys == s.cache.Keys && |s.cache| <= NAME_CACHE_MAX_SIZE
    ensures var s' := Next(s, a); s'.origins.Keys == s'.cache.Keys && |s'.cache| <= NAME_CACHE_MAX_SIZE
  {
    if a.Store? {
      CacheStaysBounded(s.cache, s.threads[a.t].jid, s.threads[a.t].answer, s.clock);
    }
  }

  lemma StepStaysFresh(trace: seq<State>, n: nat, a: Action)
    requires n + 1 < |trace| && AllFresh(trace, n) && Ready(trace[n], a) && trace[n + 1] == Next(trace[n], a)
    ensures AllFresh(trace, n + 1)
  {
    SizesStay(trace[n], a);
    CacheAfter(trace[n], a);
    var s' := trace[n + 1];
    forall t | t in s'.threads ensures QueryIsFresh(trace, n + 1, s'.threads[t]) {
      ThreadsArise(trace[n], a, t);
      ArisingIsFresh(trace, n, a, t, s'.threads[t]);
    }
    forall j | j in s'.cache ensures EntryIsFresh(trace, n + 1, j, s'.cache[j], s'.origins[j]) {
      CacheStaysFresh(trace, n, a, j);
    }
  }

  lemma {:induction false} FreshOverRuns(trace: seq<State>, acts: seq<Action>, n: nat)
    requires IsRun(trace, acts) && n < |trace|
    ensures AllFresh(trace, n)
  {
    if n > 0 {
      FreshOverRuns(trace, acts, n - 1);
      assert StepAt(trace, acts, n - 1);
      StepStaysFresh(trace, n - 1, acts[n - 1]);
    }
  }

  /** A hintless Resolve returns what the uncached pipeline gave at an earlier step of the run,
      stored no longer before the answer than its time to live; the cache never exceeds its
      bound. */
  lemma ResolveIsFreshAndBounded(trace: seq<State>, acts: seq<Action>, n: nat, t: nat) returns (from: Origin)
    requires IsRun(trace, acts) && n < |trace|
    requires t in trace[n].threads && trace[n].threads[t].Answered? && trace[n].threads[t].hint == ""
    ensures var q := trace[n].threads[t];
      && from.readAt < from.storedAt <= q.at < n
      && q.jid in trace[from.readAt].world.parsed
      && q.answer == Uncached(trace[from.readAt].world, q.jid, "")
      && trace[q.at].clock <= trace[from.storedAt].clock + Ttl(q.answer.resolved)
    ensures |trace[n].cache| <= NAME_CACHE_MAX_SIZE
  {
    FreshOverRuns(trace, acts, n);
    from := trace[n].threads[t].from;
    assert QueryIsFresh(trace, n, trace[n].threads[t]);
  }

  // ------------------------------------------------------- what a resolution leads to

  /** A hintless answer that the pipeline has computed is remembered, and is what later lookups
      answer until it expires; with a hint the cache stays as it is. */
  lemma AnswerIsRemembered(s: State, t: nat)
    requires t in s.threads && s.threads[t].Computed? && s.origins.Keys == s.cache.Keys
    ensures var q := s.threads[t]; var s' := Next(s, Store(t));
      && s'.threads[t].Answered? && s'.threads[t].answer == q.answer && s'.threads[t].jid == q.jid
      && (q.hint != "" ==> s'.cache == s.cache)
      && (q.hint == "" ==>
            && q.jid in s'.cache
            && s'.cache[q.jid] == Entry(q.answer.name, q.answer.resolved, s.clock + if q.answer.resolved then 120_000 else 20_000))
  {
  }

  /** A lookup answers from a live entry, and only without a hint; otherwise the pipeline is asked. */
  lemma LookupAnswers(s: State, t: nat)
    requires t in s.threads && s.threads[t].Asking? && s.origins.Keys == s.cache.Keys
    ensures var q := s.threads[t]; var s' := Next(s, Lookup(t)); var live := q.jid in s.cache && s.clock <= s.cache[q.jid].expires;
      && (q.hint == "" && live ==>
            s'.threads[t].Answered? && s'.threads[t].answer == Answer(s.cache[q.jid].name, s.cache[q.jid].resolved))
      && (q.hint != "" || !live ==>
            && s'.threads[t].Missed?
            && (q.jid in s.world.parsed ==>
                  var s2 := Next(s', Compute(t));
                  s2.threads[t].Computed? && s2.threads[t].answer == Uncached(s.world, q.jid, q.hint)))
  {
  }

  /** A resolved answer becomes the chat's name; a fallback never does, and an unresolved chat
      keeps the name it has. */
  lemma ResolvedNameIsWritten(s: State, t: nat, group: bool)
    requires t in s.threads && s.threads[t].Answered? && s.origins.Keys == s.cache.Keys
    ensures var q := s.threads[t]; var db, db' := s.world.db, Next(s, WriteChat(t, group)).world.db;
      && q.jid in db'.chats
      && db'.chats[q.jid].name ==
           (if q.answer.resolved && q.answer.name != "" then q.answer.name
            else if q.jid in db.chats then db.chats[q.jid].name else "")
  {
  }

  /** Group metadata becomes the subject and the chat's name. */
  lemma SubjectIsWritten(s: State, t: nat, jid: Jid, name: string)
    requires t !in s.threads && name != "" && s.origins.Keys == s.cache.Keys
    ensures var s1 := Next(s, GroupEvent(t, jid, name));
      && Enabled(s1, WriteGroup(t)) && var s2 := Next(s1, WriteGroup(t));
      && jid in s2.world.db.groups && s2.world.db.groups[jid] == name
      && Enabled(s2, WriteChat(t, true)) && var s3 := Next(s2, WriteChat(t, true));
      && jid in s3.world.db.chats && s3.world.db.chats[jid].name == name && s3.world.db.chats[jid].group
  {
  }
}
