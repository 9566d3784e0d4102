/**
 The shutdown handshake of the WhatsApp service: `Close`, `goTracked` and `emit`
 share a wait group, a `closing` flag, a read-write lock and the event channel.

 `ShutdownFields` holds the two flags and the counter; the transition system
 interleaves one closer with any number of tracked goroutines and emitters.
 */
module ServiceShutdown {

  /** Capacity of the event channel. */
  const EVENT_BUFFER: nat := 1024

  // ---------------------------------------------------------------- the fields

  /** `wg` is the wait-group counter. */
  datatype Gate = Gate(closing: bool, wg: nat)

  function Track(g: Gate): Gate { if g.closing then g else g.(wg := g.wg + 1) }

  class ShutdownFields {
    var closing: bool
    var wg: nat

    /** `New` starts the dispatcher, which is the first tracked goroutine. */
    constructor ()
      ensures View() == Gate(false, 1)
    {
      closing, wg := false, 1;
    }

    function View(): Gate
      reads this
    {
      Gate(closing, wg)
    }

    /** The critical section of `goTracked`. */
    method GoTracked() returns (ok: bool)
      modifies this
      ensures ok == !old(closing) && closing == old(closing) && wg == old(wg) + if ok then 1 else 0
      ensures View() == Track(old(View()))
    {
      if closing {
        return false;
      }
      wg := wg + 1;
      return true;
    }

    method Done()
      requires wg > 0
      modifies this
      ensures View() == old(View()).(wg := old(wg) - 1)
    {
      wg := wg - 1;
    }

    method MarkClosing()
      modifies this
      ensures View() == old(View()).(closing := true)
    {
      closing := true;
    }
  }

  // ------------------------------------------------------ the transition system

  /** Where `Close` stands; each constructor names what has already happened. */
  datatype Closer =
    | NotStarted
    | DoneClosed
    | Waiting
    | Waited
    | LockRequested
    | Locked
    | Marked
    | ChannelClosed
    | Finished

  function Stage(c: Closer): nat {
    match c
    case NotStarted => 0
    case DoneClosed => 1
    case Waiting => 2
    case Waited => 3
    case LockRequested => 4
    case Locked => 5
    case Marked => 6
    case ChannelClosed => 7
    case Finished => 8
  }

  /** Where an emitter stands; all but `Out` hold the read lock. */
  datatype Emit = Out | Checking | Sending | Releasing

  /** `live` are the goroutines that `goTracked` started and that have not called Done;
      `panicked` records a send on the closed channel, `raced` a registration that
      happened while or after `Close` waited. */
  datatype State = State(
    gate: Gate,
    live: set<nat>,
    done: bool,
    emitClosed: bool,
    channelClosed: bool,
    buffered: nat,
    closer: Closer,
    emits: map<nat, Emit>,
    panicked: bool,
    raced: bool)

  const DISPATCHER: nat := 0

  const Init := State(Gate(false, 1), {DISPATCHER}, false, false, false, 0, NotStarted, map[], false, false)

  function EmitOf(s: State, t: nat): Emit { if t in s.emits then s.emits[t] else Out }

  function SetEmit(s: State, t: nat, e: Emit): State { s.(emits := s.emits[t := e]) }

  predicate NoReaders(s: State) { forall t :: t in s.emits ==> s.emits[t].Out? }

  datatype Action =
    | Register(t: nat)
    | Finish(t: nat)
    | EmitLock(t: nat)
    | EmitCheck(t: nat)
    | EmitSend(t: nat)
    | EmitSeesDone(t: nat)
    | EmitUnlock(t: nat)
    | Pump
    | Close

  predicate Enabled(s: State, a: Action) {
    match a
    case Register(t) => t !in s.live && !s.gate.closing
    case Finish(t) => t in s.live && EmitOf(s, t).Out? && s.gate.wg > 0
    // A waiting writer keeps new readers out.
    case EmitLock(t) => EmitOf(s, t).Out? && !(4 <= Stage(s.closer) <= 7)
    case EmitCheck(t) => EmitOf(s, t).Checking?
    case EmitSend(t) => EmitOf(s, t).Sending? && (s.channelClosed || s.buffered < EVENT_BUFFER)
    case EmitSeesDone(t) => EmitOf(s, t).Sending? && s.done
    case EmitUnlock(t) => EmitOf(s, t).Releasing?
    case Pump => s.buffered > 0
    case Close =>
      match s.closer
      case Waiting => s.gate.wg == 0
      case LockRequested => NoReaders(s)
      case Finished => false
      case _ => true
  }

  function Apply(s: State, a: Action): State
    requires Enabled(s, a)
  {
    match a
    case Register(t) => s.(gate := Track(s.gate), live := s.live + {t}, raced := s.raced || Stage(s.closer) >= 2)
    case Finish(t) => s.(gate := s.gate.(wg := s.gate.wg - 1), live := s.live - {t})
    case EmitLock(t) => SetEmit(s, t, Checking)
    case EmitCheck(t) => SetEmit(s, t, if s.emitClosed then Releasing else Sending)
    case EmitSend(t) =>
      SetEmit(if s.channelClosed then s.(panicked := true) else s.(buffered := s.buffered + 1), t, Releasing)
    case EmitSeesDone(t) => SetEmit(s, t, Releasing)
    case EmitUnlock(t) => SetEmit(s, t, Out)
    case Pump => s.(buffered := s.buffered - 1)
    case Close =>
      match s.closer
      case NotStarted => s.(done := true, closer := DoneClosed)
      case DoneClosed => s.(gate := s.gate.(closing := true), closer := Waiting)
      case Waiting => s.(closer := Waited)
      case Waited => s.(closer := LockRequested)
      case LockRequested => s.(closer := Locked)
      case Locked => s.(emitClosed := true, closer := Marked)
      case Marked => s.(channelClosed := true, closer := ChannelClosed)
      case ChannelClosed => s.(closer := Finished)
  }

  /** Action `i` is enabled in state `i` and leads to state `i + 1`. */
  predicate StepAt(trace: seq<State>, acts: seq<Action>, i: nat)
    requires i < |acts| < |trace|
  {
    Enabled(trace[i], acts[i]) && trace[i + 1] == Apply(trace[i], acts[i])
  }

  predicate IsRun(trace: seq<State>, acts: seq<Action>) {
    && |trace| == |acts| + 1
    && trace[0] == Init
    && forall i :: 0 <= i < |acts| ==> StepAt(trace, acts, i)
  }

  // ------------------------------------------------------------- the invariant

  predicate Inv(s: State) {
    var n := Stage(s.closer);
    && (s.done <==> n >= 1)
    && (s.gate.closing <==> n >= 2)
    && (s.emitClosed <==> n >= 6)
    && (s.channelClosed <==> n >= 7)
    && s.gate.wg == |s.live|
    && (n >= 3 ==> s.live == {})
    && (5 <= n <= 7 ==> NoReaders(s))
    && (n == 8 ==> forall t :: t in s.emits ==> !s.emits[t].Sending?)
    && !s.panicked
    && !s.raced
    && s.buffered <= EVENT_BUFFER
  }

  lemma StepKeeps(s: State, a: Action)
    requires Inv(s) && Enabled(s, a)
    ensures Inv(Apply(s, a))
  {
    match a
    case Register(t) =>
    case Finish(t) =>
    case Close =>
      if s.closer.Waiting? {
        assert s.live == {};
      }
    case _ =>
  }

  lemma {:induction false} RunKeeps(trace: seq<State>, acts: seq<Action>, n: nat)
    requires IsRun(trace, acts) && n < |trace|
    ensures Inv(trace[n])
  {
    if n > 0 {
      RunKeeps(trace, acts, n - 1);
      assert StepAt(trace, acts, n - 1);
      StepKeeps(trace[n - 1], acts[n - 1]);
    }
  }

  // ------------------------------------------------------------- main results

  /** In every run: nothing is registered while or after `Close` waits, no tracked goroutine
      is alive when the channel is closed, and no send reaches the closed channel. */
  lemma ShutdownIsSafe(trace: seq<State>, acts: seq<Action>, n: nat)
    requires IsRun(trace, acts) && n < |trace|
    ensures !trace[n].raced && !trace[n].panicked
    ensures trace[n].channelClosed ==> trace[n].live == {} && trace[n].gate.wg == 0
    ensures trace[n].gate.wg == |trace[n].live|
    ensures trace[n].gate.closing ==> forall t :: !Enabled(trace[n], Register(t))
  {
    RunKeeps(trace, acts, n);
  }

  /** Once closed for registration, the set of live goroutines only shrinks. */
  lemma {:induction false} ClosingOnlyShrinks(trace: seq<State>, acts: seq<Action>, n: nat, m: nat)
    requires IsRun(trace, acts) && n <= m < |trace| && trace[n].gate.closing
    ensures trace[m].gate.closing && trace[m].live <= trace[n].live
    decreases m - n
  {
    if n < m {
      ClosingOnlyShrinks(trace, acts, n, m - 1);
      assert StepAt(trace, acts, m - 1);
    }
  }

  /** The number of its own steps until an emitter has released the read lock. */
  function Remaining(e: Emit): nat {
    match e
    case Out => 0
    case Checking => 3
    case Sending => 2
    case Releasing => 1
  }

  /** The step by which an emitter inside `emit` can always go on once `done` is closed. */
  function WayOut(e: Emit, t: nat): Action {
    match e
    case Checking => EmitCheck(t)
    case Sending => EmitSeesDone(t)
    case _ => EmitUnlock(t)
  }

  /** After `done` is closed no emitter is ever stuck, however full the channel is and
      whether or not anything still drains it. */
  lemma EmitterCanAlwaysLeave(trace: seq<State>, acts: seq<Action>, n: nat, t: nat)
    requires IsRun(trace, acts) && n < |trace| && trace[n].done && !EmitOf(trace[n], t).Out?
    ensures var a := WayOut(EmitOf(trace[n], t), t);
      Enabled(trace[n], a) && Remaining(EmitOf(Apply(trace[n], a), t)) < Remaining(EmitOf(trace[n], t))
  {
    RunKeeps(trace, acts, n);
  }

  /** While `Close` waits for the write lock no step of anyone adds a reader or sends one
      back, and the lock is granted as soon as the present readers are gone. */
  lemma WriteLockIsReached(trace: seq<State>, acts: seq<Action>, n: nat, a: Action)
    requires IsRun(trace, acts) && n < |trace| && trace[n].closer.LockRequested?
    ensures Enabled(trace[n], a) ==>
      forall t :: Remaining(EmitOf(Apply(trace[n], a), t)) <= Remaining(EmitOf(trace[n], t))
    ensures Enabled(trace[n], Close) <==> forall t :: Remaining(EmitOf(trace[n], t)) == 0
  {
    RunKeeps(trace, acts, n);
    if forall t :: Remaining(EmitOf(trace[n], t)) == 0 {
      forall t | t in trace[n].emits ensures trace[n].emits[t].Out? {
        assert Remaining(EmitOf(trace[n], t)) == 0;
      }
    }
  }

  /** `emit` is a no-op after `Close`: an emitter that enters then leaves without sending. */
  lemma EmitAfterCloseIsANoOp(trace: seq<State>, acts: seq<Action>, n: nat, t: nat)
    requires IsRun(trace, acts) && n < |trace| && trace[n].closer.Finished?
    requires EmitOf(trace[n], t).Checking?
    ensures !Enabled(trace[n], EmitSend(t))
    ensures var s := Apply(trace[n], EmitCheck(t)); EmitOf(s, t).Releasing? && s.buffered == trace[n].buffered
  {
    RunKeeps(trace, acts, n);
  }

  /** While the service is open and the channel has room, an emitter that runs alone puts one
      event into it and is out again. */
  lemma EmitterSends(s: State, t: nat)
    requires EmitOf(s, t).Out? && s.closer.NotStarted? && !s.emitClosed && !s.channelClosed && s.buffered < EVENT_BUFFER
    ensures Enabled(s, EmitLock(t)) && var s1 := Apply(s, EmitLock(t));
      && Enabled(s1, EmitCheck(t)) && var s2 := Apply(s1, EmitCheck(t));
      && Enabled(s2, EmitSend(t)) && var s3 := Apply(s2, EmitSend(t));
      && Enabled(s3, EmitUnlock(t)) && var s4 := Apply(s3, EmitUnlock(t));
      s4 == s.(buffered := s.buffered + 1, emits := s4.emits) && forall u :: EmitOf(s4, u) == EmitOf(s, u)
  {
  }
}
