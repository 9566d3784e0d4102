/**
 Lazy avatar fetches: `schedule` starts at most one background fetch per JID and
 at most AVATAR_MAX_INFLIGHT in all, with a busy map and a semaphore channel.

 `AvatarFields` holds the two shared objects; its methods are the critical
 sections. The transition system interleaves any number of schedulers and fetches.
 */
module AvatarFetches {

  const AVATAR_MAX_INFLIGHT: nat := 4

  type Jid = nat

  // ---------------------------------------------------------------- the fields

  datatype Fields = Fields(busy: set<Jid>, tokens: nat)

  predicate Admits(f: Fields, jid: Jid) { jid !in f.busy && f.tokens < AVATAR_MAX_INFLIGHT }

  function Claim(f: Fields, jid: Jid): Fields { Fields(f.busy + {jid}, f.tokens + 1) }

  class AvatarFields {
    var busy: set<Jid>
    var tokens: nat

    constructor ()
      ensures View() == Fields({}, 0)
    {
      busy, tokens := {}, 0;
    }

    function View(): Fields
      reads this
    {
      Fields(busy, tokens)
    }

    /** The critical section of `schedule`; `ok` means a fetch may be started. */
    method Schedule(jid: Jid) returns (ok: bool)
      modifies this
      ensures ok <==> jid !in old(busy) && old(tokens) < 4
      ensures busy == (if ok then old(busy) + {jid} else old(busy)) && tokens == old(tokens) + if ok then 1 else 0
      ensures ok == Admits(old(View()), jid) && View() == if ok then Claim(old(View()), jid) else old(View())
    {
      if jid in busy {
        return false;
      }
      if tokens < AVATAR_MAX_INFLIGHT {
        tokens := tokens + 1;
        busy := busy + {jid};
        return true;
      }
      return false;
    }

    /** Receiving from the semaphore channel; it blocks on an empty one. */
    method ReleaseToken()
      requires tokens > 0
      modifies this
      ensures View() == old(View()).(tokens := old(tokens) - 1)
    {
      tokens := tokens - 1;
    }

    method ClearBusy(jid: Jid)
      modifies this
      ensures View() == old(View()).(busy := old(busy) - {jid})
    {
      busy := busy - {jid};
    }
  }

  // ------------------------------------------------------ the transition system

  /** A thread between its claim and its release. `Claimed` has not asked `goTracked` yet,
      `Fetching` runs in the background, `Releasing` owes the token, `Clearing` the entry. */
  datatype Pc =
    | Claimed(jid: Jid)
    | Fetching(jid: Jid)
    | Releasing(jid: Jid)
    | Clearing(jid: Jid)

  datatype State = State(fields: Fields, threads: map<nat, Pc>)

  const Init := State(Fields({}, 0), map[])

  datatype Action =
    | Schedule(t: nat, jid: Jid)
    | Start(t: nat)
    | Refused(t: nat)
    | FetchEnds(t: nat)
    | ReleaseToken(t: nat)
    | ClearBusy(t: nat)

  predicate Enabled(s: State, a: Action) {
    match a
    case Schedule(t, jid) => t !in s.threads && Admits(s.fields, jid)
    case Start(t) => t in s.threads && s.threads[t].Claimed?
    case Refused(t) => t in s.threads && s.threads[t].Claimed?
    case FetchEnds(t) => t in s.threads && s.threads[t].Fetching?
    case ReleaseToken(t) => t in s.threads && s.threads[t].Releasing? && s.fields.tokens > 0
    case ClearBusy(t) => t in s.threads && s.threads[t].Clearing?
  }

  function Apply(s: State, a: Action): State
    requires Enabled(s, a)
  {
    match a
    case Schedule(t, jid) => State(Claim(s.fields, jid), s.threads[t := Claimed(jid)])
    case Start(t) => s.(threads := s.threads[t := Fetching(s.threads[t].jid)])
    case Refused(t) => s.(threads := s.threads[t := Releasing(s.threads[t].jid)])
    case FetchEnds(t) => s.(threads := s.threads[t := Releasing(s.threads[t].jid)])
    case ReleaseToken(t) =>
      State(s.fields.(tokens := s.fields.tokens - 1), s.threads[t := Clearing(s.threads[t].jid)])
    case ClearBusy(t) => State(s.fields.(busy := s.fields.busy - {s.threads[t].jid}), s.threads - {t})
  }

  /** Action `i` is enabled in state `i` and leads to state `i + 1`. */
  predicate StepAt(trace: seq<State>, acts: seq<Action>, i: nat)
    requires i < |acts| < |trace|
  {
    Enabled(trace[i], acts[i]) && trace[i + 1] == Apply(trace[i], acts[i])
  }

  predicate IsRun(trace: seq<State>, acts: seq<Action>) {
    && |trace| == |acts| + 1
    && trace[0] == Init
    && forall i :: 0 <= i < |acts| ==> StepAt(trace, acts, i)
  }

  // ------------------------------------------------------------- the invariant

  function Holders(s: State): set<nat> { set t | t in s.threads && !s.threads[t].Clearing? }

  function Fetchers(s: State): set<nat> { set t | t in s.threads && s.threads[t].Fetching? }

  predicate Works(s: State, t: nat, jid: Jid) { t in s.threads && s.threads[t].jid == jid }

  ghost predicate HasWorker(s: State, jid: Jid) { exists t :: Works(s, t, jid) }

  predicate OneEach(s: State) {
    forall t, u :: t in s.threads && u in s.threads && t != u ==> s.threads[t].jid != s.threads[u].jid
  }

  ghost predicate Inv(s: State) {
    && s.fields.tokens == |Holders(s)| <= AVATAR_MAX_INFLIGHT
    && (forall t :: t in s.threads ==> s.threads[t].jid in s.fields.busy)
    && (forall jid :: jid in s.fields.busy ==> HasWorker(s, jid))
    && OneEach(s)
  }

  predicate Holds(s: State, t: nat) { t in s.threads && !s.threads[t].Clearing? }

  /** A schedule makes a holder and a release ends one; nothing else does either. */
  lemma HolderAfterStep(s: State, a: Action, t: nat)
    requires Enabled(s, a)
    ensures Holds(Apply(s, a), t) <==> (Holds(s, t) && !(a.ReleaseToken? && t == a.t)) || (a.Schedule? && t == a.t)
  {
  }

  lemma StepKeepsTokens(s: State, a: Action)
    requires s.fields.tokens == |Holders(s)| <= AVATAR_MAX_INFLIGHT && Enabled(s, a)
    ensures Apply(s, a).fields.tokens == |Holders(Apply(s, a))| <= AVATAR_MAX_INFLIGHT
  {
    var s' := Apply(s, a);
    forall t ensures Holds(s', t) <==> (Holds(s, t) && !(a.ReleaseToken? && t == a.t)) || (a.Schedule? && t == a.t) {
      HolderAfterStep(s, a, t);
    }
    assert forall t :: t in Holders(s) <==> Holds(s, t);
    assert forall t :: t in Holders(s') <==> Holds(s', t);
    if a.Schedule? {
      assert Holders(s') == Holders(s) + {a.t};
    } else if a.ReleaseToken? {
      assert Holders(s) == Holders(s') + {a.t};
    } else {
      assert Holders(s') == Holders(s);
    }
  }

  lemma StepKeepsWorkers(s: State, a: Action, jid: Jid)
    requires Inv(s) && Enabled(s, a) && jid in Apply(s, a).fields.busy
    ensures HasWorker(Apply(s, a), jid)
  {
    if jid in s.fields.busy {
      assert HasWorker(s, jid);
      var t :| Works(s, t, jid);
      assert Works(Apply(s, a), t, jid);
    } else {
      assert Works(Apply(s, a), a.t, jid);
    }
  }

  lemma StepKeepsOneEach(s: State, a: Action)
    requires OneEach(s) && Enabled(s, a)
    requires forall t :: t in s.threads ==> s.threads[t].jid in s.fields.busy
    ensures OneEach(Apply(s, a))
    ensures forall t :: t in Apply(s, a).threads ==> Apply(s, a).threads[t].jid in Apply(s, a).fields.busy
  {
  }

  lemma StepKeeps(s: State, a: Action)
    requires Inv(s) && Enabled(s, a)
    ensures Inv(Apply(s, a))
  {
    StepKeepsTokens(s, a);
    StepKeepsOneEach(s, a);
    forall jid | jid in Apply(s, a).fields.busy ensures HasWorker(Apply(s, a), jid) {
      StepKeepsWorkers(s, a, jid);
    }
  }

  lemma {:induction false} RunKeeps(trace: seq<State>, acts: seq<Action>, n: nat)
    requires IsRun(trace, acts) && n < |trace|
    ensures Inv(trace[n])
  {
    if n > 0 {
      RunKeeps(trace, acts, n - 1);
      assert StepAt(trace, acts, n - 1);
      StepKeeps(trace[n - 1], acts[n - 1]);
    }
  }

  // ------------------------------------------------------------- main results

  lemma SubsetSize<T>(a: set<T>, b: set<T>)
    requires a <= b
    ensures |a| <= |b|
  {
    assert b == a + (b - a);
  }

  lemma {:induction false} InjectiveImage(s: State, keys: set<nat>)
    requires keys <= s.threads.Keys && OneEach(s)
    ensures |set t | t in keys :: s.threads[t].jid| == |keys|
    decreases |keys|
  {
    if keys != {} {
      var k :| k in keys;
      InjectiveImage(s, keys - {k});
      assert (set t | t in keys :: s.threads[t].jid) ==
             (set t | t in keys - {k} :: s.threads[t].jid) + {s.threads[k].jid};
    }
  }

  /** In every run: at most AVATAR_MAX_INFLIGHT fetches run, never two for one JID, the
      semaphore holds no more tokens than the map has entries, and releasing one never blocks. */
  lemma FetchesAreBounded(trace: seq<State>, acts: seq<Action>, n: nat)
    requires IsRun(trace, acts) && n < |trace|
    ensures |Fetchers(trace[n])| <= trace[n].fields.tokens <= AVATAR_MAX_INFLIGHT
    ensures trace[n].fields.tokens <= |trace[n].fields.busy|
    ensures forall t, u :: t in Fetchers(trace[n]) && u in Fetchers(trace[n]) && t != u ==>
      trace[n].threads[t].jid != trace[n].threads[u].jid
    ensures forall t :: t in trace[n].threads && trace[n].threads[t].Releasing? ==> Enabled(trace[n], ReleaseToken(t))
  {
    RunKeeps(trace, acts, n);
    var s := trace[n];
    SubsetSize(Fetchers(s), Holders(s));
    SubsetSize(Holders(s), s.threads.Keys);
    InjectiveImage(s, s.threads.Keys);
    SubsetSize(set t | t in s.threads.Keys :: s.threads[t].jid, s.fields.busy);
    forall t | t in s.threads && s.threads[t].Releasing? ensures Enabled(s, ReleaseToken(t)) {
      assert t in Holders(s);
    }
  }

  /** When no scheduler or fetch is under way nothing is held any more. */
  lemma QuiescenceReleasesAll(trace: seq<State>, acts: seq<Action>, n: nat)
    requires IsRun(trace, acts) && n < |trace| && trace[n].threads == map[]
    ensures trace[n].fields == Fields({}, 0)
  {
    RunKeeps(trace, acts, n);
    assert Holders(trace[n]) == {};
  }

  /** A JID counts as busy exactly while some thread still works on it. */
  lemma BusyHasAWorker(trace: seq<State>, acts: seq<Action>, n: nat, jid: Jid)
    requires IsRun(trace, acts) && n < |trace|
    ensures jid in trace[n].fields.busy <==> HasWorker(trace[n], jid)
  {
    RunKeeps(trace, acts, n);
  }

  /** A fetch that nobody disturbs, also one that the service refuses, ends with everything as it
      was. */
  lemma FetchRuns(s: State, t: nat, jid: Jid, refused: bool)
    requires t !in s.threads && jid !in s.fields.busy && s.fields.tokens < 4
    ensures Enabled(s, Schedule(t, jid)) && var s1 := Apply(s, Schedule(t, jid));
      && s1.fields == Fields(s.fields.busy + {jid}, s.fields.tokens + 1)
      && Enabled(s1, Start(t)) && Enabled(s1, Refused(t))
      && Enabled(Apply(s1, Start(t)), FetchEnds(t))
      && var s2 := if refused then Apply(s1, Refused(t)) else Apply(Apply(s1, Start(t)), FetchEnds(t));
      && Enabled(s2, ReleaseToken(t)) && var s3 := Apply(s2, ReleaseToken(t));
      && Enabled(s3, ClearBusy(t)) && Apply(s3, ClearBusy(t)) == s
  {
    var s1 := Apply(s, Schedule(t, jid));
    var s2 := if refused then Apply(s1, Refused(t)) else Apply(Apply(s1, Start(t)), FetchEnds(t));
    var s4 := Apply(Apply(s2, ReleaseToken(t)), ClearBusy(t));
    assert s4.threads == s.threads && s4.fields.busy == s.fields.busy;
  }
}
