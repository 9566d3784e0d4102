/**
 Request/response correlation in the command-line client: `call`, `readLoop` and
 `shutdown` share a map from request ids to one-shot response channels.

 `ClientFields` is the object with the map; its methods are the critical sections
 under the client mutex. The transition system interleaves any number of calls
 with the reader, timeouts and one execution of `shutdown`.
 */
module RpcClient {
  import opened Wrappers

  // ---------------------------------------------------------------- the fields

  /** A response as the reader decoded it; `id` is the id the server put on the wire. */
  datatype Response = Response(id: nat, payload: int)

  /** Channels are named by creation index. */
  datatype Fields = Fields(nextId: nat, pending: map<nat, nat>)

  function Register(f: Fields, ch: nat): Fields { Fields(f.nextId + 1, f.pending[f.nextId + 1 := ch]) }

  function Forget(f: Fields, id: nat): Fields { f.(pending := f.pending - {id}) }

  function Lookup(f: Fields, id: nat): Option<nat> { if id in f.pending then Some(f.pending[id]) else None }

  predicate OneChannelEach(pending: map<nat, nat>) {
    forall i, j :: i in pending && j in pending && i != j ==> pending[i] != pending[j]
  }

  class ClientFields {
    var nextID: nat
    var pending: map<nat, nat>

    constructor ()
      ensures View() == Fields(0, map[])
    {
      nextID, pending := 0, map[];
    }

    function View(): Fields
      reads this
    {
      Fields(nextID, pending)
    }

    /** First critical section of `call`. */
    method RegisterCall(ch: nat) returns (id: nat)
      modifies this
      ensures id == nextID == old(nextID) + 1 && pending == old(pending)[id := ch]
      ensures View() == Register(old(View()), ch)
    {
      nextID := nextID + 1;
      id := nextID;
      pending := pending[id := ch];
    }

    /** Critical section of `readLoop`: the waiting channel of `id`, taken out of the map. */
    method TakePending(id: nat) returns (ch: Option<nat>)
      modifies this
      ensures nextID == old(nextID) && pending == old(pending) - {id}
      ensures ch == if id in old(pending) then Some(old(pending)[id]) else None
      ensures View() == Forget(old(View()), id) && ch == Lookup(old(View()), id)
    {
      ch := if id in pending then Some(pending[id]) else None;
      pending := pending - {id};
    }

    /** Deferred critical section of `call`. */
    method ForgetCall(id: nat)
      modifies this
      ensures nextID == old(nextID) && pending == old(pending) - {id}
      ensures View() == Forget(old(View()), id)
    {
      pending := pending - {id};
    }

    /** The sweep of `shutdown`: closes every waiting channel, one close per entry. */
    method Sweep() returns (toClose: seq<nat>)
      modifies this
      ensures View() == Fields(old(nextID), map[])
      ensures forall ch :: ch in toClose <==> ch in old(pending).Values
      ensures OneChannelEach(old(pending)) ==> forall i, j :: 0 <= i < j < |toClose| ==> toClose[i] != toClose[j]
    {
      toClose := [];
      ghost var was := pending;
      while pending != map[]
        invariant pending.Keys <= was.Keys && forall id :: id in pending ==> pending[id] == was[id]
        invariant nextID == old(nextID)
        invariant forall ch :: ch in toClose <==> exists id :: id in was && id !in pending && was[id] == ch
        invariant OneChannelEach(was) ==> forall i, j :: 0 <= i < j < |toClose| ==> toClose[i] != toClose[j]
        decreases |pending|
      {
        var id :| id in pending;
        var ch := pending[id];
        assert OneChannelEach(was) ==> ch !in toClose;
        toClose := toClose + [ch];
        assert |pending - {id}| < |pending| by {
          assert (pending - {id}).Keys == pending.Keys - {id};
        }
        pending := pending - {id};
      }
    }
  }

  // ------------------------------------------------------ the transition system

  /** A response channel of capacity one; `sends` counts the sends it ever received. */
  datatype Chan = Chan(id: nat, owner: nat, buffer: Option<Response>, closed: bool, sends: nat)

  datatype Outcome = Answer(response: Response) | ConnectionClosed | TimedOut | WriteFailed

  datatype Call =
    | Writing(id: nat, ch: nat)
    | Selecting(id: nat, ch: nat)
    | Leaving(id: nat, ch: nat, outcome: Outcome)
    | Returned(id: nat, outcome: Outcome)

  datatype Reader = Scanning | Delivering(ch: nat, response: Response) | Ended

  datatype Shutdown = Open | FlagSet | Swept

  /** `panicked` records a send on a closed channel or a second close. */
  datatype State = State(
    fields: Fields,
    chans: seq<Chan>,
    calls: map<nat, Call>,
    reader: Reader,
    shutdown: Shutdown,
    panicked: bool)

  const Init := State(Fields(0, map[]), [], map[], Scanning, Open, false)

  datatype Action =
    | StartCall(t: nat)
    | Write(t: nat, ok: bool)
    | TakeAnswer(t: nat)
    | SeeChannelClosed(t: nat)
    | SeeClientClosed(t: nat)
    | Timeout(t: nat)
    | Leave(t: nat)
    | ReadResponse(response: Response)
    | Deliver
    | ReaderEnds
    | SetClosedFlag
    | SweepPending

  predicate IsSelecting(s: State, t: nat) { t in s.calls && s.calls[t].Selecting? && s.calls[t].ch < |s.chans| }

  predicate Enabled(s: State, a: Action) {
    match a
    case StartCall(t) => t !in s.calls
    case Write(t, ok) => t in s.calls && s.calls[t].Writing?
    case TakeAnswer(t) => IsSelecting(s, t) && s.chans[s.calls[t].ch].buffer.Some?
    case SeeChannelClosed(t) => IsSelecting(s, t) && s.chans[s.calls[t].ch].closed && s.chans[s.calls[t].ch].buffer.None?
    case SeeClientClosed(t) => IsSelecting(s, t) && !s.shutdown.Open?
    case Timeout(t) => IsSelecting(s, t)
    case Leave(t) => t in s.calls && s.calls[t].Leaving?
    case ReadResponse(r) => s.reader.Scanning?
    case Deliver =>
      s.reader.Delivering? && s.reader.ch < |s.chans| && (s.chans[s.reader.ch].closed || s.chans[s.reader.ch].buffer.None?)
    case ReaderEnds => s.reader.Scanning?
    case SetClosedFlag => s.shutdown.Open?
    case SweepPending => s.shutdown.FlagSet?
  }

  function SetCall(s: State, t: nat, c: Call): State { s.(calls := s.calls[t := c]) }

  function LeaveWith(s: State, t: nat, o: Outcome): State
    requires t in s.calls && !s.calls[t].Returned?
  {
    SetCall(s, t, Leaving(s.calls[t].id, s.calls[t].ch, o))
  }

  function CloseAll(chans: seq<Chan>, which: set<nat>): (r: seq<Chan>)
    ensures |r| == |chans|
  {
    seq(|chans|, i requires 0 <= i < |chans| => if i in which then chans[i].(closed := true) else chans[i])
  }

  function Apply(s: State, a: Action): State
    requires Enabled(s, a)
  {
    match a
    case StartCall(t) =>
      var ch := |s.chans|;
      SetCall(s.(fields := Register(s.fields, ch), chans := s.chans + [Chan(s.fields.nextId + 1, t, None, false, 0)]),
              t, Writing(s.fields.nextId + 1, ch))
    case Write(t, ok) =>
      if ok then SetCall(s, t, Selecting(s.calls[t].id, s.calls[t].ch)) else LeaveWith(s, t, WriteFailed)
    case TakeAnswer(t) =>
      var ch := s.calls[t].ch;
      LeaveWith(s.(chans := s.chans[ch := s.chans[ch].(buffer := None)]), t, Answer(s.chans[ch].buffer.value))
    case SeeChannelClosed(t) => LeaveWith(s, t, ConnectionClosed)
    case SeeClientClosed(t) => LeaveWith(s, t, ConnectionClosed)
    case Timeout(t) => LeaveWith(s, t, TimedOut)
    case Leave(t) => SetCall(s.(fields := Forget(s.fields, s.calls[t].id)), t, Returned(s.calls[t].id, s.calls[t].outcome))
    case ReadResponse(r) =>
      var ch := Lookup(s.fields, r.id);
      s.(fields := Forget(s.fields, r.id), reader := if ch.Some? then Delivering(ch.value, r) else Scanning)
    case Deliver =>
      var ch := s.reader.ch;
      if s.chans[ch].closed then s.(panicked := true, reader := Ended)
      else s.(chans := s.chans[ch := s.chans[ch].(buffer := Some(s.reader.response), sends := s.chans[ch].sends + 1)],
              reader := Scanning)
    case ReaderEnds => s.(reader := Ended)
    case SetClosedFlag => s.(shutdown := FlagSet)
    case SweepPending =>
      s.(chans := CloseAll(s.chans, s.fields.pending.Values),
         fields := s.fields.(pending := map[]),
         panicked := s.panicked || exists id :: id in s.fields.pending && s.fields.pending[id] < |s.chans| && s.chans[s.fields.pending[id]].closed,
         shutdown := Swept)
  }

  /** Action `i` is enabled in state `i` and leads to state `i + 1`. */
  predicate StepAt(trace: seq<State>, acts: seq<Action>, i: nat)
    requires i < |acts| < |trace|
  {
    Enabled(trace[i], acts[i]) && trace[i + 1] == Apply(trace[i], acts[i])
  }

  predicate IsRun(trace: seq<State>, acts: seq<Action>) {
    && |trace| == |acts| + 1
    && trace[0] == Init
    && forall i :: 0 <= i < |acts| ==> StepAt(trace, acts, i)
  }

  // ------------------------------------------------------------- the invariant

  /** A channel nobody has sent to or closed yet. */
  predicate Fresh(s: State, ch: nat) {
    ch < |s.chans| && s.chans[ch].buffer.None? && !s.chans[ch].closed && s.chans[ch].sends == 0
  }

  predicate ChanOk(s: State, ch: nat)
    requires ch < |s.chans|
  {
    var c := s.chans[ch];
    && c.sends <= 1
    && c.id <= s.fields.nextId
    && (c.buffer.Some? ==> c.buffer.value.id == c.id)
  }

  /** A pending id names a fresh channel made for it, whose owner has not returned. */
  predicate PendingOk(s: State, id: nat)
    requires id in s.fields.pending
  {
    var ch := s.fields.pending[id];
    && Fresh(s, ch)
    && s.chans[ch].id == id
    && s.chans[ch].owner in s.calls
    && !s.calls[s.chans[ch].owner].Returned?
    && s.calls[s.chans[ch].owner].id == id
  }

  /** A call waits on the channel made for its own id and only ever holds its own answer. */
  predicate CallOk(s: State, c: Call) {
    && (!c.Returned? ==> c.ch < |s.chans| && s.chans[c.ch].id == c.id)
    && ((c.Leaving? || c.Returned?) && c.outcome.Answer? ==> c.outcome.response.id == c.id)
  }

  predicate ReaderOk(s: State) {
    s.reader.Delivering? ==>
      && Fresh(s, s.reader.ch)
      && s.chans[s.reader.ch].id == s.reader.response.id
      && s.reader.ch !in s.fields.pending.Values
  }

  predicate Inv(s: State) {
    && !s.panicked
    && ReaderOk(s)
    && (forall ch :: 0 <= ch < |s.chans| ==> ChanOk(s, ch))
    && (forall i, j :: 0 <= i < j < |s.chans| ==> s.chans[i].id != s.chans[j].id)
    && (forall id :: id in s.fields.pending ==> PendingOk(s, id))
    && (forall t :: t in s.calls ==> CallOk(s, s.calls[t]))
  }

  lemma StepKeepsReader(s: State, a: Action)
    requires Inv(s) && Enabled(s, a)
    ensures ReaderOk(Apply(s, a)) && !Apply(s, a).panicked
  {
    var s' := Apply(s, a);
    if a.ReadResponse? && s'.reader.Delivering? {
      assert PendingOk(s, a.response.id);
      forall id | id in s'.fields.pending ensures s'.fields.pending[id] != s'.reader.ch {
        assert PendingOk(s, id);
      }
    }
  }

  lemma StepKeepsChans(s: State, a: Action)
    requires Inv(s) && Enabled(s, a)
    ensures forall ch :: 0 <= ch < |Apply(s, a).chans| ==> ChanOk(Apply(s, a), ch)
    ensures forall i, j :: 0 <= i < j < |Apply(s, a).chans| ==> Apply(s, a).chans[i].id != Apply(s, a).chans[j].id
  {
    var s' := Apply(s, a);
    forall ch | 0 <= ch < |s'.chans| ensures ChanOk(s', ch) {
      if ch < |s.chans| {
        assert ChanOk(s, ch);
      }
    }
    forall i | 0 <= i < |s.chans| ensures s'.chans[i].id == s.chans[i].id && s.chans[i].id <= s.fields.nextId {
      assert ChanOk(s, i);
    }
  }

  lemma StepKeepsPending(s: State, a: Action, id: nat)
    requires Inv(s) && Enabled(s, a) && id in Apply(s, a).fields.pending
    ensures PendingOk(Apply(s, a), id)
  {
    if id in s.fields.pending {
      assert PendingOk(s, id);
    }
  }

  lemma StepKeepsCall(s: State, a: Action, t: nat)
    requires Inv(s) && Enabled(s, a) && t in Apply(s, a).calls
    ensures CallOk(Apply(s, a), Apply(s, a).calls[t])
  {
    if t in s.calls {
      assert CallOk(s, s.calls[t]);
      if !s.calls[t].Returned? {
        assert ChanOk(s, s.calls[t].ch);
      }
    }
  }

  lemma StepKeeps(s: State, a: Action)
    requires Inv(s) && Enabled(s, a)
    ensures Inv(Apply(s, a))
  {
    var s' := Apply(s, a);
    StepKeepsReader(s, a);
    StepKeepsChans(s, a);
    forall id | id in s'.fields.pending ensures PendingOk(s', id) {
      StepKeepsPending(s, a, id);
    }
    forall t | t in s'.calls ensures CallOk(s', s'.calls[t]) {
      StepKeepsCall(s, a, t);
    }
  }

  lemma {:induction false} RunKeeps(trace: seq<State>, acts: seq<Action>, n: nat)
    requires IsRun(trace, acts) && n < |trace|
    ensures Inv(trace[n])
  {
    if n > 0 {
      RunKeeps(trace, acts, n - 1);
      assert StepAt(trace, acts, n - 1);
      StepKeeps(trace[n - 1], acts[n - 1]);
    }
  }

  // ------------------------------------------------------------- main results

  /** In every run each response channel is sent to at most once, no send hits a closed
      channel, no channel is closed twice, and the reader's send never blocks. */
  lemma ChannelsAreOneShot(trace: seq<State>, acts: seq<Action>, n: nat)
    requires IsRun(trace, acts) && n < |trace|
    ensures !trace[n].panicked
    ensures forall ch :: 0 <= ch < |trace[n].chans| ==> trace[n].chans[ch].sends <= 1
    ensures trace[n].reader.Delivering? ==> Enabled(trace[n], Deliver) && !Apply(trace[n], Deliver).panicked
  {
    RunKeeps(trace, acts, n);
    forall ch | 0 <= ch < |trace[n].chans| ensures trace[n].chans[ch].sends <= 1 {
      assert ChanOk(trace[n], ch);
    }
  }

  /** A call only ever returns the response that carries its own id, whatever ids, repeated
      or never requested, the server writes. */
  lemma AnswersAreCorrelated(trace: seq<State>, acts: seq<Action>, n: nat, t: nat)
    requires IsRun(trace, acts) && n < |trace| && t in trace[n].calls
    requires trace[n].calls[t].Returned? && trace[n].calls[t].outcome.Answer?
    ensures trace[n].calls[t].outcome.response.id == trace[n].calls[t].id
  {
    RunKeeps(trace, acts, n);
    assert CallOk(trace[n], trace[n].calls[t]);
  }

  /** The number of its own steps until a call has returned. */
  function Remaining(c: Call): nat {
    match c
    case Writing(_, _) => 3
    case Selecting(_, _) => 2
    case Leaving(_, _, _) => 1
    case Returned(_, _) => 0
  }

  /** The step by which a call goes on once the client is closed. */
  function WayOut(c: Call, t: nat): Action {
    match c
    case Writing(_, _) => Write(t, true)
    case Selecting(_, _) => SeeClientClosed(t)
    case _ => Leave(t)
  }

  /** Once shutdown has begun, every call, also one registered afterwards, can go on by
      itself until it has returned. */
  lemma CallsEndAfterShutdown(trace: seq<State>, acts: seq<Action>, n: nat, t: nat)
    requires IsRun(trace, acts) && n < |trace| && !trace[n].shutdown.Open?
    requires t in trace[n].calls && !trace[n].calls[t].Returned?
    ensures var a := WayOut(trace[n].calls[t], t);
      && Enabled(trace[n], a)
      && Remaining(Apply(trace[n], a).calls[t]) < Remaining(trace[n].calls[t])
  {
    RunKeeps(trace, acts, n);
    assert CallOk(trace[n], trace[n].calls[t]);
  }

  /** When every call has returned nothing is left in the pending map. */
  lemma NothingStaysPending(trace: seq<State>, acts: seq<Action>, n: nat)
    requires IsRun(trace, acts) && n < |trace|
    requires forall t :: t in trace[n].calls ==> trace[n].calls[t].Returned?
    ensures trace[n].fields.pending == map[]
  {
    RunKeeps(trace, acts, n);
    assert trace[n].fields.pending.Keys == {};
  }

  /** In every reached state a response with the id of a waiting call, once read, is delivered to
      it and is what it returns; no other call is touched. */
  lemma ResponseReachesItsCall(trace: seq<State>, acts: seq<Action>, n: nat, t: nat, r: Response)
    requires IsRun(trace, acts) && n < |trace|
    requires var s := trace[n];
      s.reader.Scanning? && t in s.calls && s.calls[t].Selecting? && s.calls[t].id == r.id && r.id in s.fields.pending
    ensures var s := trace[n];
      && Enabled(s, ReadResponse(r)) && var s1 := Apply(s, ReadResponse(r));
      && Enabled(s1, Deliver) && var s2 := Apply(s1, Deliver);
      && Enabled(s2, TakeAnswer(t)) && var s3 := Apply(s2, TakeAnswer(t));
      && Enabled(s3, Leave(t)) && Apply(s3, Leave(t)).calls == s.calls[t := Returned(r.id, Answer(r))]
  {
    var s := trace[n];
    RunKeeps(trace, acts, n);
    assert PendingOk(s, r.id) && CallOk(s, s.calls[t]);
    assert s.fields.pending[r.id] == s.calls[t].ch;
    assert s.calls[t := Leaving(r.id, s.calls[t].ch, Answer(r))][t := Returned(r.id, Answer(r))]
        == s.calls[t := Returned(r.id, Answer(r))];
  }
}
