/**
 The QR login protocol of the WhatsApp service: `StartLogin`, the QR consumer,
 `CancelLogin`, `Logout` and `Close` share three fields under one mutex.

 `LoginFields` is the object with those fields; each method is one critical
 section. The transition system below interleaves any number of threads, one
 step per critical section, context cancellation or channel operation.
 */
module LoginProtocol {
  import opened Wrappers

  // ---------------------------------------------------------------- the fields

  /** The fields guarded by the login mutex. A context is named by its creation index. */
  datatype Login = Login(gen: nat, active: bool, cancel: Option<nat>)

  function Begin(l: Login, ctx: nat): Login { Login(l.gen + 1, true, Some(ctx)) }

  function Stop(l: Login): Login { Login(l.gen + 1, false, None) }

  function StopGen(l: Login, gen: nat): Login {
    if l.gen != gen then l else Login(l.gen, false, None)
  }

  /** The cancel function that the critical section of `StopGen` hands to its caller. */
  function TakenByGen(l: Login, gen: nat): Option<nat> {
    if l.gen != gen then None else l.cancel
  }

  class LoginFields {
    var loginGen: nat
    var loginActive: bool
    var loginCancel: Option<nat>

    constructor ()
      ensures View() == Login(0, false, None)
    {
      loginGen, loginActive, loginCancel := 0, false, None;
    }

    function View(): Login
      reads this
    {
      Login(loginGen, loginActive, loginCancel)
    }

    /** The critical section of StartLogin; `usable` is the device and client check. */
    method StartLogin(ctx: nat, usable: bool) returns (gen: Option<nat>)
      modifies this
      ensures gen.Some? <==> !old(loginActive) && usable
      ensures gen.None? ==> View() == old(View())
      ensures gen.Some? ==> loginGen == old(loginGen) + 1 == gen.value && loginActive && loginCancel == Some(ctx)
      ensures gen.Some? ==> View() == Begin(old(View()), ctx)
    {
      if loginActive {
        return None;
      }
      if !usable {
        return None;
      }
      loginGen := loginGen + 1;
      loginActive := true;
      loginCancel := Some(ctx);
      gen := Some(loginGen);
    }

    method StopLogin() returns (cancel: Option<nat>)
      modifies this
      ensures loginGen == old(loginGen) + 1 && !loginActive && loginCancel.None? && cancel == old(loginCancel)
      ensures View() == Stop(old(View()))
    {
      loginGen := loginGen + 1;
      cancel := loginCancel;
      loginCancel := None;
      loginActive := false;
    }

    method StopLoginGen(gen: nat) returns (cancel: Option<nat>)
      modifies this
      ensures loginGen == old(loginGen)
      ensures gen == old(loginGen) ==> !loginActive && loginCancel.None? && cancel == old(loginCancel)
      ensures gen != old(loginGen) ==> loginActive == old(loginActive) && loginCancel == old(loginCancel) && cancel.None?
      ensures View() == StopGen(old(View()), gen) && cancel == TakenByGen(old(View()), gen)
    {
      if loginGen != gen {
        return None;
      }
      cancel := loginCancel;
      loginCancel := None;
      loginActive := false;
    }

    /** `ok` is false for ErrNoLoginActive; only then is a taken cancel function dropped. */
    method CancelLogin() returns (ok: bool, cancel: Option<nat>)
      modifies this
      ensures loginGen == old(loginGen) + 1 && !loginActive && loginCancel.None?
      ensures View() == Stop(old(View())) && ok == old(loginActive)
      ensures cancel == if ok then old(loginCancel) else None
    {
      var active := loginActive;
      loginGen := loginGen + 1;
      cancel := loginCancel;
      loginCancel := None;
      loginActive := false;
      if !active {
        return false, None;
      }
      ok := true;
    }
  }

  // ------------------------------------------------------ the transition system

  datatype After = Return | MarkClosing

  /** Where a thread stands. `late` records that the context was cancelled at the receive. */
  datatype Pc =
    | Idle
    | Starting(gen: nat, ctx: nat)
    | Selecting(gen: nat, ctx: nat)
    | Received(gen: nat, ctx: nat, late: bool)
    | Handling(gen: nat, ctx: nat, late: bool)
    | Leaving(gen: nat, ctx: nat)
    | Cancelling(target: nat, after: After)
    | ClosingStop
    | ClosingMark

  /** `cancelled[c]` says whether login context `c` is done; `handled` logs every handled item. */
  datatype State = State(
    login: Login,
    cancelled: seq<bool>,
    serviceDone: bool,
    closing: bool,
    closeStarted: bool,
    threads: map<nat, Pc>,
    handled: seq<bool>)

  const Init := State(Login(0, false, None), [], false, false, false, map[], [])

  function PcOf(s: State, t: nat): Pc { if t in s.threads then s.threads[t] else Idle }

  function SetPc(s: State, t: nat, pc: Pc): State { s.(threads := s.threads[t := pc]) }

  datatype Action =
    | StartLogin(t: nat)
    | StartFails(t: nat)
    | StartHandsOver(t: nat, consumer: nat)
    | SeesDone(t: nat)
    | ChannelCloses(t: nat)
    | Receives(t: nat)
    | Rechecks(t: nat)
    | Handles(t: nat, terminal: bool)
    | Leaves(t: nat)
    | CallsCancel(t: nat)
    | CancelLogin(t: nat)
    | Logout(t: nat)
    | CloseBegins(t: nat)
    | CloseStops(t: nat)
    | CloseMarks(t: nat)

  predicate Enabled(s: State, a: Action) {
    match a
    case StartLogin(t) => PcOf(s, t).Idle? && !s.login.active
    case StartFails(t) => PcOf(s, t).Starting?
    case StartHandsOver(t, u) => PcOf(s, t).Starting? && !s.closing && t != u && PcOf(s, u).Idle?
    case SeesDone(t) =>
      var pc := PcOf(s, t);
      pc.Selecting? && pc.ctx < |s.cancelled| && s.cancelled[pc.ctx]
    case ChannelCloses(t) => PcOf(s, t).Selecting?
    case Receives(t) => PcOf(s, t).Selecting? && PcOf(s, t).ctx < |s.cancelled|
    case Rechecks(t) => PcOf(s, t).Received? && PcOf(s, t).ctx < |s.cancelled|
    case Handles(t, terminal) => PcOf(s, t).Handling?
    case Leaves(t) => PcOf(s, t).Leaving?
    case CallsCancel(t) => PcOf(s, t).Cancelling? && PcOf(s, t).target < |s.cancelled|
    case CancelLogin(t) => PcOf(s, t).Idle?
    case Logout(t) => PcOf(s, t).Idle?
    case CloseBegins(t) => PcOf(s, t).Idle? && !s.closeStarted
    case CloseStops(t) => PcOf(s, t).ClosingStop?
    case CloseMarks(t) => PcOf(s, t).ClosingMark?
  }

  function NextPc(after: After): Pc { if after.Return? then Idle else ClosingMark }

  function OwesCancel(cancel: Option<nat>, after: After): Pc {
    if cancel.Some? then Cancelling(cancel.value, after) else NextPc(after)
  }

  function Apply(s: State, a: Action): State
    requires Enabled(s, a)
  {
    match a
    case StartLogin(t) =>
      // A context derived from a cancelled service context is born cancelled.
      var ctx := |s.cancelled|;
      SetPc(s.(login := Begin(s.login, ctx), cancelled := s.cancelled + [s.serviceDone]),
            t, Starting(s.login.gen + 1, ctx))
    case StartFails(t) => SetPc(s, t, Leaving(PcOf(s, t).gen, PcOf(s, t).ctx))
    case StartHandsOver(t, u) =>
      var pc := PcOf(s, t);
      SetPc(SetPc(s, t, Idle), u, Selecting(pc.gen, pc.ctx))
    case SeesDone(t) => SetPc(s, t, Leaving(PcOf(s, t).gen, PcOf(s, t).ctx))
    case ChannelCloses(t) => SetPc(s, t, Leaving(PcOf(s, t).gen, PcOf(s, t).ctx))
    case Receives(t) =>
      var pc := PcOf(s, t);
      SetPc(s, t, Received(pc.gen, pc.ctx, s.cancelled[pc.ctx]))
    case Rechecks(t) =>
      var pc := PcOf(s, t);
      SetPc(s, t, if s.cancelled[pc.ctx] then Leaving(pc.gen, pc.ctx) else Handling(pc.gen, pc.ctx, pc.late))
    case Handles(t, terminal) =>
      var pc := PcOf(s, t);
      SetPc(s.(handled := s.handled + [pc.late]), t,
            if terminal then Leaving(pc.gen, pc.ctx) else Selecting(pc.gen, pc.ctx))
    case Leaves(t) =>
      var gen := PcOf(s, t).gen;
      SetPc(s.(login := StopGen(s.login, gen)), t, OwesCancel(TakenByGen(s.login, gen), Return))
    case CallsCancel(t) =>
      var pc := PcOf(s, t);
      SetPc(s.(cancelled := s.cancelled[pc.target := true]), t, NextPc(pc.after))
    case CancelLogin(t) =>
      SetPc(s.(login := Stop(s.login)), t,
            if s.login.active then OwesCancel(s.login.cancel, Return) else Idle)
    case Logout(t) => SetPc(s.(login := Stop(s.login)), t, OwesCancel(s.login.cancel, Return))
    case CloseBegins(t) =>
      // close(done) and cancelling the service context, which cancels its children.
      SetPc(s.(closeStarted := true, serviceDone := true, cancelled := seq(|s.cancelled|, i => true)), t, ClosingStop)
    case CloseStops(t) => SetPc(s.(login := Stop(s.login)), t, OwesCancel(s.login.cancel, MarkClosing))
    case CloseMarks(t) => SetPc(s.(closing := true), t, Idle)
  }

  /** Action `i` is enabled in state `i` and leads to state `i + 1`. */
  predicate StepAt(trace: seq<State>, acts: seq<Action>, i: nat)
    requires i < |acts| < |trace|
  {
    Enabled(trace[i], acts[i]) && trace[i + 1] == Apply(trace[i], acts[i])
  }

  /** `trace` is the run that executes `acts` from the initial state. */
  predicate IsRun(trace: seq<State>, acts: seq<Action>) {
    && |trace| == |acts| + 1
    && trace[0] == Init
    && forall i :: 0 <= i < |acts| ==> StepAt(trace, acts, i)
  }

  // ------------------------------------------------------------- the invariant

  /** A thread that started a login and still has to run `stopLoginGen` for it. */
  predicate Owner(pc: Pc) { pc.Starting? || pc.Selecting? || pc.Received? || pc.Handling? || pc.Leaving? }

  predicate Owns(s: State, t: nat) { t in s.threads && Owner(s.threads[t]) }

  predicate HoldsCancel(s: State, t: nat, c: nat) {
    t in s.threads && s.threads[t].Cancelling? && s.threads[t].target == c
  }

  ghost predicate SomeoneCancels(s: State, c: nat) { exists t :: HoldsCancel(s, t, c) }

  /** Context `c` is done, or still current, or a thread already holds its cancel function. */
  ghost predicate Covered(s: State, c: nat)
    requires c < |s.cancelled|
  {
    s.cancelled[c] || s.login.cancel == Some(c) || SomeoneCancels(s, c)
  }

  ghost predicate OwnersOk(s: State) {
    && (forall t :: Owns(s, t) ==>
          s.threads[t].gen <= s.login.gen && s.threads[t].ctx < |s.cancelled|)
    && (forall t, u :: Owns(s, t) && Owns(s, u) && t != u ==>
          s.threads[t].gen != s.threads[u].gen && s.threads[t].ctx != s.threads[u].ctx)
    && (forall t :: Owns(s, t) && s.threads[t].gen == s.login.gen ==>
          s.login.active && s.login.cancel == Some(s.threads[t].ctx))
  }

  ghost predicate CurrentOwner(s: State, t: nat) { Owns(s, t) && s.threads[t].gen == s.login.gen }

  predicate FieldsOk(s: State) {
    && (s.login.active <==> s.login.cancel.Some?)
    && (s.login.cancel.Some? ==> s.login.cancel.value < |s.cancelled|)
  }

  predicate DoneOk(s: State) { s.serviceDone ==> forall c :: 0 <= c < |s.cancelled| ==> s.cancelled[c] }

  /** An item received late belongs to a cancelled context, and none is being handled. */
  predicate ItemOk(s: State, pc: Pc) {
    && (pc.Received? && pc.late ==> pc.ctx < |s.cancelled| && s.cancelled[pc.ctx])
    && (pc.Handling? ==> !pc.late)
  }

  predicate TargetOk(s: State, pc: Pc) { pc.Cancelling? ==> pc.target < |s.cancelled| }

  ghost predicate Inv(s: State) {
    && FieldsOk(s)
    && OwnersOk(s)
    && DoneOk(s)
    && (s.login.active ==> exists t :: CurrentOwner(s, t))
    && (forall t :: t in s.threads ==> ItemOk(s, s.threads[t]) && TargetOk(s, s.threads[t]))
    && (forall c :: 0 <= c < |s.cancelled| ==> Covered(s, c))
    && (forall i :: 0 <= i < |s.handled| ==> !s.handled[i])
  }

  /** The thread that owns the current login after `a`, when `t` owned the one before. */
  function Heir(t: nat, a: Action): nat {
    match a
    case StartLogin(u) => u
    case StartHandsOver(u, consumer) => if u == t then consumer else t
    case _ => t
  }

  lemma StepKeepsOwner(s: State, a: Action)
    requires s.login.active ==> exists t :: CurrentOwner(s, t)
    requires OwnersOk(s) && Enabled(s, a) && Apply(s, a).login.active
    ensures exists t :: CurrentOwner(Apply(s, a), t)
  {
    LoginAfter(s, a);
    if s.login.active {
      var t :| CurrentOwner(s, t);
      assert CurrentOwner(Apply(s, a), Heir(t, a));
    } else {
      assert CurrentOwner(Apply(s, a), a.t);
    }
  }

  predicate Moves(a: Action, t: nat) { t == a.t || (a.StartHandsOver? && t == a.consumer) }

  lemma PcStays(s: State, a: Action, t: nat)
    requires Enabled(s, a) && !Moves(a, t)
    ensures t in s.threads <==> t in Apply(s, a).threads
    ensures t in s.threads ==> Apply(s, a).threads[t] == s.threads[t]
  {
  }

  lemma CancelStays(s: State, a: Action, c: nat)
    requires Enabled(s, a) && c < |s.cancelled|
    ensures c < |Apply(s, a).cancelled| && (s.cancelled[c] ==> Apply(s, a).cancelled[c])
  {
  }

  lemma HolderCallsIt(s: State, a: Action, t: nat, c: nat)
    requires Enabled(s, a) && HoldsCancel(s, t, c) && c < |s.cancelled|
    ensures HoldsCancel(Apply(s, a), t, c) || (c < |Apply(s, a).cancelled| && Apply(s, a).cancelled[c])
  {
  }

  lemma CurrentIsTaken(s: State, a: Action, c: nat)
    requires Enabled(s, a) && s.login.active && s.login.cancel == Some(c)
    ensures Apply(s, a).login.cancel == Some(c) || HoldsCancel(Apply(s, a), a.t, c)
  {
  }

  lemma NewContextIsCurrent(s: State, a: Action, c: nat)
    requires Enabled(s, a) && |s.cancelled| <= c < |Apply(s, a).cancelled|
    ensures Apply(s, a).login.cancel == Some(c)
  {
  }

  lemma StepKeepsCovered(s: State, a: Action, c: nat)
    requires c < |s.cancelled| ==> Covered(s, c)
    requires s.login.active <==> s.login.cancel.Some?
    requires Enabled(s, a) && c < |Apply(s, a).cancelled|
    ensures Covered(Apply(s, a), c)
  {
    if c >= |s.cancelled| {
      NewContextIsCurrent(s, a, c);
    } else if s.cancelled[c] {
      CancelStays(s, a, c);
    } else if s.login.cancel == Some(c) {
      CurrentIsTaken(s, a, c);
    } else {
      var t :| HoldsCancel(s, t, c);
      HolderCallsIt(s, a, t, c);
    }
  }

  /** Where an owner after `a` comes from: the thread that carried the same login before. */
  function Origin(t: nat, a: Action): nat {
    if a.StartHandsOver? && a.consumer == t then a.t else t
  }

  lemma OwnerOrigin(s: State, a: Action, t: nat)
    requires Enabled(s, a) && Owns(Apply(s, a), t)
    ensures var pc := Apply(s, a).threads[t];
      if a == StartLogin(t) then pc == Starting(s.login.gen + 1, |s.cancelled|)
      else var o := Origin(t, a); Owns(s, o) && s.threads[o].gen == pc.gen && s.threads[o].ctx == pc.ctx
  {
  }

  /** What `a` does to the login fields, seen from an owner that survives it. */
  lemma LoginAfter(s: State, a: Action)
    requires Enabled(s, a)
    ensures var l, l' := s.login, Apply(s, a).login;
      && |Apply(s, a).cancelled| >= |s.cancelled|
      && (a.StartLogin? ==> l' == Begin(l, |s.cancelled|) && |Apply(s, a).cancelled| == |s.cancelled| + 1)
      && (!a.StartLogin? ==> l' == l || l'.gen == l.gen + 1 || (a.Leaves? && Owns(s, a.t) && s.threads[a.t].gen == l.gen && l' == Login(l.gen, false, None)))
      && (a.Leaves? ==> !Owns(Apply(s, a), a.t))
  {
  }

  lemma StepKeepsOwners(s: State, a: Action)
    requires OwnersOk(s) && Enabled(s, a)
    ensures OwnersOk(Apply(s, a))
  {
    var s' := Apply(s, a);
    LoginAfter(s, a);
    forall t | Owns(s', t)
      ensures s'.threads[t].gen <= s'.login.gen && s'.threads[t].ctx < |s'.cancelled|
      ensures s'.threads[t].gen == s'.login.gen ==> s'.login.active && s'.login.cancel == Some(s'.threads[t].ctx)
    {
      OwnerOrigin(s, a, t);
    }
    forall t, u | Owns(s', t) && Owns(s', u) && t != u
      ensures s'.threads[t].gen != s'.threads[u].gen && s'.threads[t].ctx != s'.threads[u].ctx
    {
      OwnerOrigin(s, a, t);
      OwnerOrigin(s, a, u);
      assert a != StartLogin(t) && a != StartLogin(u) ==> Origin(t, a) != Origin(u, a);
    }
  }

  lemma StepKeepsDone(s: State, a: Action)
    requires DoneOk(s) && Enabled(s, a)
    ensures DoneOk(Apply(s, a))
  {
  }

  lemma StepKeepsItem(s: State, a: Action, t: nat)
    requires t in s.threads ==> ItemOk(s, s.threads[t])
    requires Enabled(s, a) && t in Apply(s, a).threads
    ensures ItemOk(Apply(s, a), Apply(s, a).threads[t])
  {
    if !Moves(a, t) {
      PcStays(s, a, t);
      if s.threads[t].Received? && s.threads[t].late {
        CancelStays(s, a, s.threads[t].ctx);
      }
    }
  }

  lemma StepKeepsLog(s: State, a: Action)
    requires forall i :: 0 <= i < |s.handled| ==> !s.handled[i]
    requires a.Handles? && a.t in s.threads ==> ItemOk(s, s.threads[a.t])
    requires Enabled(s, a)
    ensures forall i :: 0 <= i < |Apply(s, a).handled| ==> !Apply(s, a).handled[i]
  {
  }

  lemma StepKeepsTarget(s: State, a: Action, t: nat)
    requires t in s.threads ==> TargetOk(s, s.threads[t])
    requires s.login.cancel.Some? ==> s.login.cancel.value < |s.cancelled|
    requires Enabled(s, a) && t in Apply(s, a).threads
    ensures TargetOk(Apply(s, a), Apply(s, a).threads[t])
  {
    LoginAfter(s, a);
    if !Moves(a, t) {
      PcStays(s, a, t);
    }
  }

  lemma StepKeepsFields(s: State, a: Action)
    requires FieldsOk(s) && Enabled(s, a)
    ensures FieldsOk(Apply(s, a))
  {
    LoginAfter(s, a);
  }

  lemma StepKeeps(s: State, a: Action)
    requires Inv(s) && Enabled(s, a)
    ensures Inv(Apply(s, a))
  {
    var s' := Apply(s, a);
    StepKeepsFields(s, a);
    StepKeepsOwners(s, a);
    StepKeepsDone(s, a);
    StepKeepsLog(s, a);
    if s'.login.active {
      StepKeepsOwner(s, a);
    }
    forall t | t in s'.threads ensures ItemOk(s', s'.threads[t]) && TargetOk(s', s'.threads[t]) {
      StepKeepsItem(s, a, t);
      StepKeepsTarget(s, a, t);
    }
    forall c: nat | c < |s'.cancelled| ensures Covered(s', c) {
      StepKeepsCovered(s, a, c);
    }
  }

  lemma {:induction false} RunKeeps(trace: seq<State>, acts: seq<Action>, n: nat)
    requires IsRun(trace, acts) && n < |trace|
    ensures Inv(trace[n])
  {
    if n > 0 {
      RunKeeps(trace, acts, n - 1);
      assert StepAt(trace, acts, n - 1);
      StepKeeps(trace[n - 1], acts[n - 1]);
    }
  }

  // ------------------------------------------------------------- main results

  /** In every run: a login is active iff its cancel function is stored iff exactly one
      live owner carries the current generation, and that owner holds its context. */
  lemma ActiveLoginHasOneOwner(trace: seq<State>, acts: seq<Action>, n: nat)
    requires IsRun(trace, acts) && n < |trace|
    ensures var s := trace[n];
      && (s.login.active <==> s.login.cancel.Some?)
      && (s.login.active <==> exists t :: CurrentOwner(s, t))
      && (forall t, u :: CurrentOwner(s, t) && CurrentOwner(s, u) ==> t == u)
      && (forall t :: CurrentOwner(s, t) ==> s.login.cancel == Some(s.threads[t].ctx))
  {
    RunKeeps(trace, acts, n);
  }

  /** In every run each login context other than the current one is cancelled, or a thread
      holds its cancel function and is about to call it. */
  lemma NoContextLeaks(trace: seq<State>, acts: seq<Action>, n: nat, c: nat)
    requires IsRun(trace, acts) && n < |trace| && c < |trace[n].cancelled|
    requires trace[n].login.cancel != Some(c)
    ensures trace[n].cancelled[c] || SomeoneCancels(trace[n], c)
  {
    RunKeeps(trace, acts, n);
    assert Covered(trace[n], c);
  }

  /** Once every thread is idle no login is active and every context is cancelled, so no
      later start is refused as "already in progress". */
  lemma QuiescentMeansStopped(trace: seq<State>, acts: seq<Action>, n: nat)
    requires IsRun(trace, acts) && n < |trace|
    requires forall t :: t in trace[n].threads ==> trace[n].threads[t].Idle?
    ensures !trace[n].login.active
    ensures forall c :: 0 <= c < |trace[n].cancelled| ==> trace[n].cancelled[c]
  {
    RunKeeps(trace, acts, n);
    forall c | 0 <= c < |trace[n].cancelled| ensures trace[n].cancelled[c] {
      assert Covered(trace[n], c);
    }
  }

  /** An owner's `stopLoginGen` clears the flag when it is current; a superseded one leaves
      the newer login alone. */
  lemma LeavingClearsOnlyItsOwn(trace: seq<State>, acts: seq<Action>, n: nat, t: nat)
    requires IsRun(trace, acts) && n < |trace| && Enabled(trace[n], Leaves(t))
    ensures var s, s' := trace[n], Apply(trace[n], Leaves(t));
      && (CurrentOwner(s, t) <==> s.threads[t].gen == s.login.gen)
      && (CurrentOwner(s, t) ==> !s'.login.active && s'.threads[t] == Cancelling(s.threads[t].ctx, Return))
      && (!CurrentOwner(s, t) ==> s'.login == s.login && s'.threads[t].Idle?)
  {
    RunKeeps(trace, acts, n);
  }

  /** No run ever handles an item that was received after its context was cancelled. */
  lemma NoLateItemHandled(trace: seq<State>, acts: seq<Action>, n: nat)
    requires IsRun(trace, acts) && n < |trace|
    ensures forall i :: 0 <= i < |trace[n].handled| ==> !trace[n].handled[i]
  {
    RunKeeps(trace, acts, n);
  }

  /** An owner superseded by a later generation can always see its context done, at the
      latest after the thread that holds the cancel function has called it. */
  lemma SupersededOwnerIsReleased(trace: seq<State>, acts: seq<Action>, n: nat, t: nat)
    requires IsRun(trace, acts) && n < |trace|
    requires Owns(trace[n], t) && trace[n].threads[t].gen != trace[n].login.gen
    ensures var s := trace[n]; var c := s.threads[t].ctx;
      && c < |s.cancelled|
      && (s.cancelled[c] || exists u :: Enabled(s, CallsCancel(u)) && s.threads[u].target == c)
  {
    RunKeeps(trace, acts, n);
    var s := trace[n];
    var c := s.threads[t].ctx;
    assert Covered(s, c);
    if !s.cancelled[c] {
      assert SomeoneCancels(s, c);
      var u :| HoldsCancel(s, u, c);
      assert Enabled(s, CallsCancel(u));
    }
  }

  /** After `Close` marked the service as closing no consumer can start, and every context
      that exists or is created later is already cancelled. */
  lemma ClosingStartsNoConsumer(trace: seq<State>, acts: seq<Action>, n: nat, m: nat)
    requires IsRun(trace, acts) && n <= m < |trace| && trace[n].closing
    ensures trace[m].closing && forall c :: 0 <= c < |trace[m].cancelled| ==> trace[m].cancelled[c]
    ensures forall t, u :: !Enabled(trace[m], StartHandsOver(t, u))
    decreases m - n
  {
    ClosingMeansDone(trace, acts, m);
    if n < m {
      ClosingStartsNoConsumer(trace, acts, n, m - 1);
      assert StepAt(trace, acts, m - 1);
    }
    RunKeeps(trace, acts, m);
  }

  /** A thread inside `Close`, past the closing of `done`. */
  predicate InClose(pc: Pc) {
    pc.ClosingStop? || pc.ClosingMark? || (pc.Cancelling? && pc.after.MarkClosing?)
  }

  lemma {:induction false} ClosingMeansDone(trace: seq<State>, acts: seq<Action>, n: nat)
    requires IsRun(trace, acts) && n < |trace|
    ensures trace[n].closing ==> trace[n].serviceDone
    ensures forall t :: t in trace[n].threads && InClose(trace[n].threads[t]) ==> trace[n].serviceDone
  {
    if n > 0 {
      ClosingMeansDone(trace, acts, n - 1);
      assert StepAt(trace, acts, n - 1);
    }
  }

  /** A login that nobody disturbs: the consumer gets the new generation and a context of its
      own. */
  lemma LoginStarts(s: State, t: nat, u: nat)
    requires t != u && PcOf(s, t).Idle? && PcOf(s, u).Idle? && !s.login.active && !s.closing
    ensures Enabled(s, StartLogin(t)) && var s1 := Apply(s, StartLogin(t));
      && Enabled(s1, StartHandsOver(t, u)) && var s2 := Apply(s1, StartHandsOver(t, u));
      && PcOf(s2, t).Idle? && PcOf(s2, u) == Selecting(s.login.gen + 1, |s.cancelled|)
      && s2.login == Login(s.login.gen + 1, true, Some(|s.cancelled|)) && s2.cancelled == s.cancelled + [s.serviceDone]
  {
  }

  /** An item that arrives while the context lives is handled; the consumer then goes on, or
      after a terminal one leaves and, if its generation is current, ends the login and cancels
      its context. */
  lemma ItemIsHandled(s: State, t: nat, gen: nat, ctx: nat)
    requires PcOf(s, t) == Selecting(gen, ctx) && ctx < |s.cancelled| && !s.cancelled[ctx]
    ensures Enabled(s, Receives(t)) && var s1 := Apply(s, Receives(t));
      && Enabled(s1, Rechecks(t)) && var s2 := Apply(s1, Rechecks(t));
      && Enabled(s2, Handles(t, false)) && Enabled(s2, Handles(t, true))
      && var s3 := Apply(s2, Handles(t, false)); var s4 := Apply(s2, Handles(t, true));
      && s3.handled == s4.handled == s.handled + [false]
      && PcOf(s3, t) == Selecting(gen, ctx) && s3.login == s.login && s3.cancelled == s.cancelled
      && Enabled(s4, Leaves(t)) && var s5 := Apply(s4, Leaves(t));
      && (s.login.gen != gen ==> s5.login == s.login && PcOf(s5, t).Idle?)
      && (s.login == Login(gen, true, Some(ctx)) ==>
            && s5.login == Login(gen, false, None) && Enabled(s5, CallsCancel(t))
            && Apply(s5, CallsCancel(t)).cancelled == s.cancelled[ctx := true])
  {
  }
}
