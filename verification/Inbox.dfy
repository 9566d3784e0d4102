/**
 The event queue between whatsmeow's dispatch and the persistence worker: handlers
 that enqueue or give up, the worker's select loop with its final drain, and Close.
 */
module Inbox {
  const INBOX_CAPACITY := 4096

  /** The queue as the handler and the worker's drain loop use it. */
  class EventQueue<E> {
    var inbox: seq<E>
    var done: bool

    constructor ()
      ensures inbox == [] && !done
    {
      inbox := [];
      done := false;
    }

    /** handleEvent: when both cases of the select are ready either may be taken. */
    method Offer(e: E, preferDone: bool) returns (accepted: bool)
      requires |inbox| < INBOX_CAPACITY || done
      modifies this`inbox
      ensures accepted == (|old(inbox)| < INBOX_CAPACITY && !(done && preferDone))
      ensures inbox == if accepted then old(inbox) + [e] else old(inbox)
    {
      accepted := |inbox| < INBOX_CAPACITY && !(done && preferDone);
      if accepted {
        inbox := inbox + [e];
      }
    }

    /** drain: handles what is buffered and returns when the queue is momentarily empty. */
    method Drain() returns (handled: seq<E>)
      modifies this`inbox
      ensures handled == old(inbox) && inbox == []
    {
      handled := [];
      while |inbox| > 0
        invariant handled + inbox == old(inbox)
        decreases |inbox|
      {
        handled, inbox := handled + [inbox[0]], inbox[1..];
      }
    }
  }

  // ------------------------------------------------------------------- the machine

  datatype Worker<E> = Selecting | Handling(e: E, draining: bool) | Draining | Exited

  datatype Closer = NotClosing | Waiting | Closed

  /** `accepted` and `processed` record what was ever enqueued and handled, `promised` what
      was already enqueued when Close closed `done`. */
  datatype State<E> = State(
    inbox: seq<E>, done: bool, worker: Worker<E>, closer: Closer,
    accepted: seq<E>, processed: seq<E>, promised: seq<E>)

  datatype Action<E> =
    | Accept(e: E)
    | GiveUp
    | Take
    | SeeDone
    | DrainNext
    | DrainEnd
    | Finish
    | CloseDone
    | CloseReturns

  predicate Enabled<E>(s: State<E>, a: Action<E>) {
    match a
    case Accept(_) => |s.inbox| < INBOX_CAPACITY
    case GiveUp => s.done
    case Take => s.worker.Selecting? && s.inbox != []
    case SeeDone => s.worker.Selecting? && s.done
    case DrainNext => s.worker.Draining? && s.inbox != []
    case DrainEnd => s.worker.Draining? && s.inbox == []
    case Finish => s.worker.Handling?
    case CloseDone => s.closer.NotClosing?
    case CloseReturns => s.closer.Waiting? && s.worker.Exited?
  }

  function Next<E>(s: State<E>, a: Action<E>): State<E>
    requires Enabled(s, a)
  {
    match a
    case Accept(e) => s.(inbox := s.inbox + [e], accepted := s.accepted + [e])
    case GiveUp => s
    case Take => s.(worker := Handling(s.inbox[0], false), inbox := s.inbox[1..])
    case SeeDone => s.(worker := Draining)
    case DrainNext => s.(worker := Handling(s.inbox[0], true), inbox := s.inbox[1..])
    case DrainEnd => s.(worker := Exited)
    case Finish =>
      s.(worker := if s.worker.draining then Draining else Selecting, processed := s.processed + [s.worker.e])
    case CloseDone => s.(done := true, closer := Waiting, promised := s.accepted)
    case CloseReturns => s.(closer := Closed)
  }

  function Start<E>(): State<E> { State([], false, Selecting, NotClosing, [], [], []) }

  ghost predicate StepAt<E>(trace: seq<State<E>>, acts: seq<Action<E>>, i: nat)
    requires i < |acts| && |trace| == |acts| + 1
  {
    Enabled(trace[i], acts[i]) && trace[i + 1] == Next(trace[i], acts[i])
  }

  ghost predicate IsRun<E>(trace: seq<State<E>>, acts: seq<Action<E>>) {
    && |trace| == |acts| + 1 && trace[0] == Start<E>()
    && forall i :: 0 <= i < |acts| ==> StepAt(trace, acts, i)
  }

  function InFlight<E>(w: Worker<E>): seq<E> { if w.Handling? then [w.e] else [] }

  ghost predicate Inv<E>(s: State<E>) {
    && s.accepted == s.processed + InFlight(s.worker) + s.inbox
    && |s.inbox| <= INBOX_CAPACITY
    && s.promised <= s.accepted
    && (s.done <==> !s.closer.NotClosing?)
    && (s.worker.Draining? || (s.worker.Handling? && s.worker.draining) ==> s.done)
    && (s.worker.Exited? ==> s.done && |s.promised| <= |s.processed|)
    && (s.closer.Closed? ==> s.worker.Exited?)
  }

  lemma StepKeeps<E>(s: State<E>, a: Action<E>)
    requires Inv(s) && Enabled(s, a)
    ensures Inv(Next(s, a))
  {
    var t := Next(s, a);
    if a.Take? || a.DrainNext? {
      assert s.inbox == [s.inbox[0]] + s.inbox[1..];
    } else if a.Accept? {
      assert t.accepted == t.processed + InFlight(t.worker) + t.inbox;
    }
  }

  lemma {:induction false} RunKeeps<E>(trace: seq<State<E>>, acts: seq<Action<E>>, n: nat)
    requires IsRun(trace, acts) && n < |trace|
    ensures Inv(trace[n])
  {
    if n > 0 {
      RunKeeps(trace, acts, n - 1);
      assert StepAt(trace, acts, n - 1);
      StepKeeps(trace[n - 1], acts[n - 1]);
    }
  }

  /** In every run: what is handled is handled once and in the order it was accepted, and when
      Close has returned everything accepted before it closed `done` was handled. */
  lemma AcceptedEventsAreHandled<E>(trace: seq<State<E>>, acts: seq<Action<E>>, n: nat)
    requires IsRun(trace, acts) && n < |trace|
    ensures var s := trace[n];
      && s.processed <= s.accepted
      && (s.closer.Closed? ==> s.promised <= s.processed)
      && (s.closer.Closed? && s.inbox == [] ==> s.processed == s.accepted)
  {
    RunKeeps(trace, acts, n);
    var s := trace[n];
    assert s.processed <= s.accepted;
    if s.closer.Closed? {
      assert s.promised == s.accepted[..|s.promised|];
    }
  }

  /** `promised` is what had been accepted in the state in which Close closed `done`. */
  lemma {:induction false} PromisedAtClose<E>(trace: seq<State<E>>, acts: seq<Action<E>>, k: nat, n: nat)
    requires IsRun(trace, acts) && k < n < |trace| && acts[k].CloseDone?
    ensures trace[n].promised == trace[k].accepted
  {
    assert StepAt(trace, acts, n - 1);
    RunKeeps(trace, acts, n - 1);
    if n - 1 > k {
      PromisedAtClose(trace, acts, k, n - 1);
      StaysDone(trace, acts, k, n - 1);
    }
  }

  lemma {:induction false} StaysDone<E>(trace: seq<State<E>>, acts: seq<Action<E>>, k: nat, n: nat)
    requires IsRun(trace, acts) && k < n < |trace| && acts[k].CloseDone?
    ensures !trace[n].closer.NotClosing?
  {
    assert StepAt(trace, acts, n - 1);
    if n - 1 > k {
      StaysDone(trace, acts, k, n - 1);
    }
  }

  // ---------------------------------------------------------------------- progress

  predicate ByWorker<E>(a: Action<E>) { a.Take? || a.SeeDone? || a.DrainNext? || a.DrainEnd? || a.Finish? }

  /** Worker steps left before it exits, if nothing more is accepted. */
  function StepsLeft<E>(s: State<E>): nat {
    3 * |s.inbox| +
    match s.worker
    case Selecting => 2
    case Handling(_, draining) => if draining then 2 else 3
    case Draining => 1
    case Exited => 0
  }

  /** Once `done` is closed, the worker is never stuck and each of its steps brings the exit
      nearer, so Close returns unless handlers keep filling the queue. */
  lemma CloseIsReached<E>(s: State<E>) returns (a: Action<E>)
    requires Inv(s) && s.closer.Waiting?
    ensures Enabled(s, a) && (a == CloseReturns || ByWorker(a))
    ensures forall b :: ByWorker(b) && Enabled(s, b) ==> StepsLeft(Next(s, b)) < StepsLeft(s)
  {
    a := if s.worker.Exited? then CloseReturns
    else if s.worker.Handling? then Finish
    else if s.worker.Selecting? then SeeDone
    else if s.inbox != [] then DrainNext else DrainEnd;
  }
}
