/**
 The daemon's socket server: the accept loop, one handler goroutine per
 connection, `Close` with its sweep over the client set, and the budget of
 consecutive protocol failures.

 `Client` is the per-connection object of the budget. The transition system
 interleaves the accept loop, any number of handlers and one closer.
 */
module IpcServer {

  // ---------------------------------------------------------- the error budget

  /** How one line of a connection ends. */
  datatype Outcome = Blank | BadLine | UnknownMethod | HandlerPanic | EncodeFailure | DomainError | Success

  predicate ProtocolFailure(o: Outcome) { o.BadLine? || o.UnknownMethod? || o.HandlerPanic? || o.EncodeFailure? }

  function NonBlank(lines: seq<Outcome>): (r: seq<Outcome>)
    ensures |r| <= |lines|
  {
    if lines == [] then []
    else NonBlank(lines[..|lines| - 1]) + if lines[|lines| - 1].Blank? then [] else [lines[|lines| - 1]]
  }

  /** Blank lines neither fail nor end a run of failures: they are taken out, all others stay. */
  lemma {:induction false} BlankLinesDoNotCount(a: seq<Outcome>, b: seq<Outcome>)
    ensures NonBlank(a + [Blank] + b) == NonBlank(a + b)
    ensures (forall o :: o in a ==> !o.Blank?) ==> NonBlank(a) == a
    decreases |a| + |b|
  {
    if b != [] {
      var b' := b[..|b| - 1];
      assert (a + [Blank] + b)[..|a| + |b|] == a + [Blank] + b' && (a + b)[..|a + b| - 1] == a + b';
      BlankLinesDoNotCount(a, b');
    } else {
      assert a + [Blank] + b == a + [Blank] && (a + [Blank])[..|a|] == a && a + b == a;
      if a != [] {
        BlankLinesDoNotCount(a[..|a| - 1], []);
        assert a[|a| - 1] in a && a == a[..|a| - 1] + [a[|a| - 1]];
      }
    }
  }

  /** Some `n` lines in a row all failed. */
  ghost predicate HasFailureRun(lines: seq<Outcome>, n: nat) {
    exists i :: 0 <= i && i + n <= |lines| && FailureRunAt(lines, i, n)
  }

  predicate FailureRunAt(lines: seq<Outcome>, i: nat, n: nat)
    requires i + n <= |lines|
  {
    forall j :: i <= j < i + n ==> ProtocolFailure(lines[j])
  }

  /** `n` counts exactly the failures at the end of `lines`. */
  predicate TrailingFailures(lines: seq<Outcome>, n: nat) {
    && n <= |lines|
    && FailureRunAt(lines, |lines| - n, n)
    && (n < |lines| ==> !ProtocolFailure(lines[|lines| - n - 1]))
  }

  class Client {
    const maxErrors: nat
    var errs: nat
    var closed: bool

    constructor (maxErrors: nat)
      ensures this.maxErrors == maxErrors && errs == 0 && !closed
    {
      this.maxErrors := maxErrors;
      errs, closed := 0, false;
    }

    method NoteError() returns (open: bool)
      modifies this
      ensures errs == old(errs) + 1
      ensures open <==> maxErrors == 0 || errs < maxErrors
      ensures closed == (old(closed) || !open)
    {
      errs := errs + 1;
      if maxErrors > 0 && errs >= maxErrors {
        closed := true;
        return false;
      }
      return true;
    }

    method NoteSuccess()
      modifies this
      ensures errs == 0 && closed == old(closed)
    {
      errs := 0;
    }

    /** `dispatch` for a line that is not blank; false means the client is dropped. */
    method Dispatch(o: Outcome) returns (open: bool)
      requires !o.Blank?
      modifies this
      ensures ProtocolFailure(o) <==> o.BadLine? || o.UnknownMethod? || o.HandlerPanic? || o.EncodeFailure?
      ensures o.DomainError? || o.Success? ==> errs == 0 && open
      ensures !o.DomainError? && !o.Success? ==> errs == old(errs) + 1 && (open <==> maxErrors == 0 || errs < maxErrors)
      ensures closed == (old(closed) || !open)
    {
      match o
      case BadLine => open := NoteError();
      case UnknownMethod => open := NoteError();
      case DomainError => NoteSuccess(); open := true;
      case HandlerPanic => open := NoteError();
      case EncodeFailure => open := NoteError();
      case Success => NoteSuccess(); open := true;
    }

    /** The read loop of one connection: stops after `n` lines, `dropped` by the budget or
        at the end of the input. The budget drops a connection exactly at the first line
        that completes `maxErrors` protocol failures in a row. */
    method Serve(lines: seq<Outcome>) returns (n: nat, dropped: bool)
      requires errs == 0 && !closed
      modifies this
      ensures n <= |lines| && (!dropped ==> n == |lines|)
      ensures dropped <==> maxErrors > 0 && HasFailureRun(NonBlank(lines), maxErrors)
      ensures dropped ==> n > 0 && HasFailureRun(NonBlank(lines[..n]), maxErrors)
      ensures dropped ==> !HasFailureRun(NonBlank(lines[..n - 1]), maxErrors)
      ensures closed == dropped
    {
      n, dropped := 0, false;
      while n < |lines|
        invariant n <= |lines| && !closed && !dropped
        invariant TrailingFailures(NonBlank(lines[..n]), errs)
        invariant maxErrors > 0 ==> errs < maxErrors && !HasFailureRun(NonBlank(lines[..n]), maxErrors)
      {
        var line := lines[n];
        assert lines[..n + 1][..n] == lines[..n];
        n := n + 1;
        ghost var seen := NonBlank(lines[..n - 1]);
        if line.Blank? {
          assert NonBlank(lines[..n]) == seen;
          continue;
        }
        assert NonBlank(lines[..n]) == seen + [line];
        ghost var was := errs;
        var open := Dispatch(line);
        TrailingGrows(seen, was, line);
        if maxErrors > 0 {
          FailureRunGrows(seen, line, errs, maxErrors);
        }
        if !open {
          RunStaysInLongerInput(lines, n, maxErrors);
          return n, true;
        }
      }
      assert lines[..n] == lines;
    }
  }

  lemma TrailingGrows(lines: seq<Outcome>, n: nat, o: Outcome)
    requires TrailingFailures(lines, n)
    ensures TrailingFailures(lines + [o], if ProtocolFailure(o) then n + 1 else 0)
  {
  }

  /** Appending one line completes a run of `max` failures iff the run at the end got that long. */
  lemma FailureRunGrows(lines: seq<Outcome>, o: Outcome, n: nat, max: nat)
    requires max > 0 && !HasFailureRun(lines, max) && TrailingFailures(lines + [o], n)
    ensures HasFailureRun(lines + [o], max) <==> n >= max
  {
    var all := lines + [o];
    if n >= max {
      assert FailureRunAt(all, |all| - max, max);
    }
    if HasFailureRun(all, max) {
      var i :| 0 <= i && i + max <= |all| && FailureRunAt(all, i, max);
      if i + max <= |lines| {
        RunInPrefix(lines, all, i, max);
      }
    }
  }

  lemma RunInPrefix(lines: seq<Outcome>, all: seq<Outcome>, i: nat, n: nat)
    requires lines <= all && i + n <= |lines| && FailureRunAt(all, i, n)
    ensures HasFailureRun(lines, n)
  {
    assert forall j :: i <= j < i + n ==> all[j] == lines[j];
    assert FailureRunAt(lines, i, n);
  }

  lemma NonBlankIsPrefix(lines: seq<Outcome>, n: nat)
    requires n <= |lines|
    ensures NonBlank(lines[..n]) <= NonBlank(lines)
  {
    if n < |lines| {
      assert lines[..|lines| - 1][..n] == lines[..n];
      NonBlankIsPrefix(lines[..|lines| - 1], n);
    } else {
      assert lines[..n] == lines;
    }
  }

  lemma RunStaysInLongerInput(lines: seq<Outcome>, n: nat, max: nat)
    requires n <= |lines| && HasFailureRun(NonBlank(lines[..n]), max)
    ensures HasFailureRun(NonBlank(lines), max)
  {
    NonBlankIsPrefix(lines, n);
    var part, all := NonBlank(lines[..n]), NonBlank(lines);
    var i :| 0 <= i && i + max <= |part| && FailureRunAt(part, i, max);
    assert FailureRunAt(all, i, max);
  }

  // ------------------------------------------------------ the transition system

  datatype Accept = Accepting | Counted(conn: nat, count: int) | Exited

  /** Where a handler goroutine stands. `Removed`, `Uncounted` and `ConnClosed` are its
      deferred calls: off the client set, then off the counter, then closed. */
  datatype Handler = Started | Registered | Reading | Ending | Removed | Uncounted | ConnClosed | Gone

  datatype Closer = Open | DoneSet | ListenerClosed | Swept | Returned

  function Stage(c: Closer): nat {
    match c
    case Open => 0
    case DoneSet => 1
    case ListenerClosed => 2
    case Swept => 3
    case Returned => 4
  }

  /** `live` are the handler goroutines that have not called Done, `serving` those that
      still hold their slot of the connection counter. `addedAtZero` records a wait-group
      Add at counter zero. */
  datatype State = State(
    maxConns: nat,
    closer: Closer,
    accept: Accept,
    connCount: int,
    wg: int,
    handlers: map<nat, Handler>,
    live: set<nat>,
    serving: set<nat>,
    clients: set<nat>,
    closed: set<nat>,
    addedAtZero: bool)

  function Init(maxConns: nat): State {
    State(maxConns, Open, Accepting, 0, 1, map[], {}, {}, {}, {}, false)
  }

  datatype Action =
    | AcceptConn(c: nat)
    | AcceptFails
    | Admit
    | RejectPeer(c: nat)
    | AddClient(c: nat)
    | CheckDone(c: nat)
    | ReadLine(c: nat)
    | BudgetDrop(c: nat)
    | ReadEnds(c: nat)
    | RemoveClient(c: nat)
    | Uncount(c: nat)
    | CloseConn(c: nat)
    | HandlerDone(c: nat)
    | WriteFails(c: nat)
    | CloseStep

  predicate At(s: State, c: nat, h: Handler) { c in s.handlers && s.handlers[c] == h }

  predicate Enabled(s: State, a: Action) {
    match a
    case AcceptConn(c) => s.accept.Accepting? && Stage(s.closer) < 2 && c !in s.handlers && c !in s.closed
    case AcceptFails => s.accept.Accepting? && Stage(s.closer) >= 1
    case Admit => s.accept.Counted?
    case RejectPeer(c) => At(s, c, Started)
    case AddClient(c) => At(s, c, Started)
    case CheckDone(c) => At(s, c, Registered)
    case ReadLine(c) => At(s, c, Reading) && c !in s.closed
    case BudgetDrop(c) => At(s, c, Reading)
    case ReadEnds(c) => At(s, c, Reading)
    case RemoveClient(c) => At(s, c, Ending)
    case Uncount(c) => At(s, c, Removed)
    case CloseConn(c) => At(s, c, Uncounted)
    case HandlerDone(c) => At(s, c, ConnClosed)
    case WriteFails(c) => c in s.clients
    case CloseStep => if s.closer.Swept? then s.wg == 0 else !s.closer.Returned?
  }

  function Move(s: State, c: nat, h: Handler): State { s.(handlers := s.handlers[c := h]) }

  function Apply(s: State, a: Action): State
    requires Enabled(s, a)
  {
    match a
    case AcceptConn(c) => s.(connCount := s.connCount + 1, accept := Counted(c, s.connCount + 1))
    case AcceptFails => s.(accept := Exited, wg := s.wg - 1)
    case Admit =>
      var c := s.accept.conn;
      if s.maxConns > 0 && s.accept.count > s.maxConns then
        s.(connCount := s.connCount - 1, closed := s.closed + {c}, accept := Accepting)
      else
        Move(s, c, Started).(wg := s.wg + 1, live := s.live + {c}, serving := s.serving + {c},
                             accept := Accepting, addedAtZero := s.addedAtZero || s.wg == 0)
    case RejectPeer(c) => Move(s, c, Removed)
    case AddClient(c) => Move(s, c, Registered).(clients := s.clients + {c})
    case CheckDone(c) => Move(s, c, if Stage(s.closer) >= 1 then Ending else Reading)
    case ReadLine(c) => s
    case BudgetDrop(c) => Move(s, c, Ending).(closed := s.closed + {c})
    case ReadEnds(c) => Move(s, c, Ending)
    case RemoveClient(c) => Move(s, c, Removed).(clients := s.clients - {c})
    case Uncount(c) => Move(s, c, Uncounted).(connCount := s.connCount - 1, serving := s.serving - {c})
    case CloseConn(c) => Move(s, c, ConnClosed).(closed := s.closed + {c})
    case HandlerDone(c) => Move(s, c, Gone).(wg := s.wg - 1, live := s.live - {c})
    case WriteFails(c) => s.(closed := s.closed + {c})
    case CloseStep =>
      match s.closer
      case Open => s.(closer := DoneSet)
      case DoneSet => s.(closer := ListenerClosed)
      case ListenerClosed => s.(closer := Swept, closed := s.closed + s.clients)
      case _ => s.(closer := Returned)
  }

  /** Action `i` is enabled in state `i` and leads to state `i + 1`. */
  predicate StepAt(trace: seq<State>, acts: seq<Action>, i: nat)
    requires i < |acts| < |trace|
  {
    Enabled(trace[i], acts[i]) && trace[i + 1] == Apply(trace[i], acts[i])
  }

  predicate IsRun(maxConns: nat, trace: seq<State>, acts: seq<Action>) {
    && |trace| == |acts| + 1
    && trace[0] == Init(maxConns)
    && forall i :: 0 <= i < |acts| ==> StepAt(trace, acts, i)
  }

  // ------------------------------------------------------------- the invariant

  predicate CountsOk(s: State) {
    && s.wg == |s.live| + (if s.accept.Exited? then 0 else 1)
    && s.connCount == |s.serving| + (if s.accept.Counted? then 1 else 0)
    && s.serving <= s.live
    && (s.maxConns > 0 ==> |s.serving| <= s.maxConns)
    && (s.accept.Counted? ==> s.accept.conn !in s.handlers && |s.serving| < s.accept.count)
    && !s.addedAtZero
  }

  predicate HandlerOk(s: State, c: nat)
    requires c in s.handlers
  {
    var h := s.handlers[c];
    && (c in s.live <==> !h.Gone?)
    && (c in s.serving <==> h.Started? || h.Registered? || h.Reading? || h.Ending? || h.Removed?)
    && (c in s.clients <==> h.Registered? || h.Reading? || h.Ending?)
    && (h.Reading? && Stage(s.closer) >= 3 ==> c in s.closed)
  }

  predicate Inv(s: State) {
    && CountsOk(s)
    && s.live <= s.handlers.Keys && s.clients <= s.handlers.Keys
    && (s.closer.Returned? ==> s.wg == 0)
    && forall c :: c in s.handlers ==> HandlerOk(s, c)
  }

  lemma StepKeepsHandler(s: State, a: Action, c: nat)
    requires Inv(s) && Enabled(s, a) && c in Apply(s, a).handlers
    ensures HandlerOk(Apply(s, a), c)
  {
    if c in s.handlers {
      assert HandlerOk(s, c);
    }
  }

  lemma AdmitKeepsCounts(s: State)
    requires CountsOk(s) && s.live <= s.handlers.Keys && s.accept.Counted?
    ensures CountsOk(Apply(s, Admit))
  {
    assert s.accept.conn !in s.live && s.accept.conn !in s.serving;
  }

  lemma ReleaseKeepsCounts(s: State, a: Action, c: nat)
    requires CountsOk(s) && Enabled(s, a) && (a == Uncount(c) || a == HandlerDone(c)) && HandlerOk(s, c)
    ensures CountsOk(Apply(s, a))
  {
    if a.Uncount? {
      assert s.serving == (s.serving - {c}) + {c};
    } else {
      assert s.live == (s.live - {c}) + {c};
    }
  }

  lemma StepKeepsCounts(s: State, a: Action)
    requires CountsOk(s) && s.live <= s.handlers.Keys && Enabled(s, a)
    requires (a.Uncount? || a.HandlerDone?) ==> HandlerOk(s, a.c)
    ensures CountsOk(Apply(s, a))
  {
    if a.Admit? {
      AdmitKeepsCounts(s);
    } else if a.Uncount? || a.HandlerDone? {
      ReleaseKeepsCounts(s, a, a.c);
    }
  }

  lemma StepKeepsReturned(s: State, a: Action)
    requires CountsOk(s) && Enabled(s, a) && (s.closer.Returned? ==> s.wg == 0)
    requires a.HandlerDone? ==> a.c in s.live
    ensures Apply(s, a).closer.Returned? ==> Apply(s, a).wg == 0
  {
    assert a.HandlerDone? ==> s.live != {};
  }

  lemma StepKeepsKeys(s: State, a: Action)
    requires Enabled(s, a) && s.live <= s.handlers.Keys && s.clients <= s.handlers.Keys
    ensures Apply(s, a).live <= Apply(s, a).handlers.Keys && Apply(s, a).clients <= Apply(s, a).handlers.Keys
  {
  }

  lemma StepKeeps(s: State, a: Action)
    requires Inv(s) && Enabled(s, a)
    ensures Inv(Apply(s, a))
  {
    StepKeepsCounts(s, a);
    assert a.HandlerDone? ==> HandlerOk(s, a.c);
    StepKeepsReturned(s, a);
    StepKeepsKeys(s, a);
    forall c | c in Apply(s, a).handlers ensures HandlerOk(Apply(s, a), c) {
      StepKeepsHandler(s, a, c);
    }
  }

  lemma InitKeeps(max: nat)
    ensures Inv(Init(max))
  {
  }

  lemma {:induction false} RunKeeps(max: nat, trace: seq<State>, acts: seq<Action>, n: nat)
    requires IsRun(max, trace, acts) && n < |trace|
    ensures Inv(trace[n]) && trace[n].maxConns == max
  {
    if n > 0 {
      RunKeeps(max, trace, acts, n - 1);
      assert StepAt(trace, acts, n - 1);
      StepKeeps(trace[n - 1], acts[n - 1]);
    } else {
      InitKeeps(max);
    }
  }

  // ------------------------------------------------------------- main results

  /** In every run: once the sweep is over a handler that reads has its connection closed,
      and one that has not read yet turns away at its check of `done`. */
  lemma NoClientIsLost(max: nat, trace: seq<State>, acts: seq<Action>, n: nat, c: nat)
    requires IsRun(max, trace, acts) && n < |trace| && Stage(trace[n].closer) >= 3 && c in trace[n].handlers
    ensures trace[n].handlers[c].Reading? ==> c in trace[n].closed && !Enabled(trace[n], ReadLine(c))
    ensures trace[n].handlers[c].Registered? ==> Apply(trace[n], CheckDone(c)).handlers[c].Ending?
  {
    RunKeeps(max, trace, acts, n);
    assert HandlerOk(trace[n], c);
  }

  /** In every run the wait group counts the accept loop plus the live handlers, so an Add
      only ever happens on top of the accept loop's own count. */
  lemma AddIsNeverAtZero(max: nat, trace: seq<State>, acts: seq<Action>, n: nat)
    requires IsRun(max, trace, acts) && n < |trace|
    ensures !trace[n].addedAtZero
    ensures trace[n].wg == |trace[n].live| + (if trace[n].accept.Exited? then 0 else 1)
    ensures Enabled(trace[n], Admit) ==> trace[n].wg >= 1
    ensures trace[n].closer.Returned? ==> trace[n].live == {} && trace[n].accept.Exited?
  {
    RunKeeps(max, trace, acts, n);
  }

  /** In every run the handlers that hold a slot never exceed a positive limit. */
  lemma SlotsAreBounded(max: nat, trace: seq<State>, acts: seq<Action>, n: nat)
    requires IsRun(max, trace, acts) && n < |trace| && max > 0
    ensures |trace[n].serving| <= max && trace[n].serving <= trace[n].live
    ensures forall c :: c in trace[n].live && c !in trace[n].serving ==>
      At(trace[n], c, Uncounted) || At(trace[n], c, ConnClosed)
  {
    RunKeeps(max, trace, acts, n);
    forall c | c in trace[n].live && c !in trace[n].serving
      ensures At(trace[n], c, Uncounted) || At(trace[n], c, ConnClosed)
    {
      assert HandlerOk(trace[n], c);
    }
  }

  lemma OneStepMore(max: nat, trace: seq<State>, acts: seq<Action>, a: Action)
    requires IsRun(max, trace, acts) && Enabled(trace[|trace| - 1], a)
    ensures IsRun(max, trace + [Apply(trace[|trace| - 1], a)], acts + [a])
  {
    var more, all := trace + [Apply(trace[|trace| - 1], a)], acts + [a];
    forall i | 0 <= i < |all| ensures StepAt(more, all, i) {
      if i < |acts| {
        assert StepAt(trace, acts, i);
      }
    }
  }

  /** A connection is accepted, refused and off the counter, but its handler is still there. */
  lemma DyingHandler() returns (trace: seq<State>, acts: seq<Action>)
    ensures IsRun(1, trace, acts)
    ensures var s := trace[|trace| - 1];
      s.maxConns == 1 && s.closer.Open? && s.accept.Accepting? && s.connCount == 0
      && s.live == {0} && 1 !in s.handlers && 1 !in s.closed
  {
    trace, acts := [Init(1)], [];
    OneStepMore(1, trace, acts, AcceptConn(0));
    trace, acts := trace + [Apply(trace[|trace| - 1], AcceptConn(0))], acts + [AcceptConn(0)];
    OneStepMore(1, trace, acts, Admit);
    trace, acts := trace + [Apply(trace[|trace| - 1], Admit)], acts + [Admit];
    OneStepMore(1, trace, acts, RejectPeer(0));
    trace, acts := trace + [Apply(trace[|trace| - 1], RejectPeer(0))], acts + [RejectPeer(0)];
    OneStepMore(1, trace, acts, Uncount(0));
    trace, acts := trace + [Apply(trace[|trace| - 1], Uncount(0))], acts + [Uncount(0)];
  }

  /** The goroutines themselves can exceed the limit for a moment: the counter is released
      before the deferred Done, so a new connection is admitted beside a dying handler. */
  lemma GoroutinesCanExceedTheLimit() returns (trace: seq<State>, acts: seq<Action>)
    ensures IsRun(1, trace, acts) && |trace[|trace| - 1].live| == 2
  {
    trace, acts := DyingHandler();
    OneStepMore(1, trace, acts, AcceptConn(1));
    trace, acts := trace + [Apply(trace[|trace| - 1], AcceptConn(1))], acts + [AcceptConn(1)];
    OneStepMore(1, trace, acts, Admit);
    trace, acts := trace + [Apply(trace[|trace| - 1], Admit)], acts + [Admit];
    assert trace[|trace| - 1].live == {0, 1};
  }

  /** Handlers that have given their slot back and are not done yet. */
  function Leaving(s: State): set<nat> { set c | c in s.live && (At(s, c, Uncounted) || At(s, c, ConnClosed)) }

  /** Exactly when the goroutines keep within the limit: when those on their way out fit into
      the slots that are free. */
  lemma GoroutinesWithinLimitIff(max: nat, trace: seq<State>, acts: seq<Action>, n: nat)
    requires IsRun(max, trace, acts) && n < |trace|
    ensures var s := trace[n];
      && |s.live| == |s.serving| + |Leaving(s)|
      && (|s.live| <= max <==> |Leaving(s)| <= max - |s.serving|)
  {
    var s := trace[n];
    RunKeeps(max, trace, acts, n);
    forall c | c in s.live ensures c in s.serving <==> c !in Leaving(s) {
      assert HandlerOk(s, c);
    }
    assert s.live == s.serving + Leaving(s);
  }

  /** Only an admission passes the limit: at the limit already, with the counter within it. */
  lemma AdmissionPassesTheLimit(max: nat, trace: seq<State>, acts: seq<Action>, n: nat, a: Action)
    requires IsRun(max, trace, acts) && n < |trace| && max > 0
    requires Enabled(trace[n], a) && |trace[n].live| <= max
    ensures |Apply(trace[n], a).live| > max <==> a.Admit? && |trace[n].live| == max && trace[n].accept.count <= max
  {
    var s := trace[n];
    RunKeeps(max, trace, acts, n);
    assert a.Admit? ==> s.accept.conn !in s.live;
    assert a.HandlerDone? ==> HandlerOk(s, a.c) && s.live == (s.live - {a.c}) + {a.c};
  }

  /** Steps left until a handler goroutine is gone, when it reads no further line. */
  function Remaining(h: Handler): nat {
    match h
    case Started => 7
    case Registered => 6
    case Reading => 5
    case Ending => 4
    case Removed => 3
    case Uncounted => 2
    case ConnClosed => 1
    case Gone => 0
  }

  function WayOut(h: Handler, c: nat): Action {
    match h
    case Started => AddClient(c)
    case Registered => CheckDone(c)
    case Reading => ReadEnds(c)
    case Ending => RemoveClient(c)
    case Removed => Uncount(c)
    case Uncounted => CloseConn(c)
    case _ => HandlerDone(c)
  }

  /** No step of anyone sends a handler back. */
  lemma HandlersOnlyAdvance(s: State, a: Action, c: nat)
    requires Enabled(s, a) && c in s.handlers && (s.accept.Counted? ==> s.accept.conn !in s.handlers)
    ensures c in Apply(s, a).handlers && Remaining(Apply(s, a).handlers[c]) <= Remaining(s.handlers[c])
  {
  }

  /** After the sweep every handler can run to its end by itself, no connection is accepted
      any more, and `Close` returns once handlers and accept loop are gone. */
  lemma CloseCanReturn(max: nat, trace: seq<State>, acts: seq<Action>, n: nat)
    requires IsRun(max, trace, acts) && n < |trace| && trace[n].closer.Swept?
    ensures forall c :: c in trace[n].live ==>
      c in trace[n].handlers && Enabled(trace[n], WayOut(trace[n].handlers[c], c))
    ensures Enabled(trace[n], CloseStep) <==> trace[n].accept.Exited? && trace[n].live == {}
    ensures forall c :: !Enabled(trace[n], AcceptConn(c))
    ensures trace[n].accept.Accepting? ==> Enabled(trace[n], AcceptFails)
  {
    RunKeeps(max, trace, acts, n);
    var s := trace[n];
    forall c | c in s.live ensures c in s.handlers && Enabled(s, WayOut(s.handlers[c], c)) {
      assert HandlerOk(s, c);
    }
  }

  /** The step named by `WayOut` brings the handler strictly nearer to its end. */
  lemma WayOutAdvances(s: State, c: nat)
    requires c in s.handlers && !s.handlers[c].Gone? && Enabled(s, WayOut(s.handlers[c], c))
    ensures Remaining(Apply(s, WayOut(s.handlers[c], c)).handlers[c]) < Remaining(s.handlers[c])
  {
  }
}
