/**
 The group-name repair: a guarded kick and a bounded pass that brings chat names in
 line with the authoritative group subjects.
 */
module GroupRepair {
  import opened Wrappers
  import opened Tables
  import NameResolver

  const GROUP_REPAIR_MAX_PER_RUN: nat := 25
  const GROUP_REPAIR_MIN_INTERVAL: nat := 60_000

  function Applied(db: Tables, jid: Jid, name: string): Tables {
    if name == "" || name == jid then db
    else if jid in db.chats && db.chats[jid].name == name then db
    else UpsertChat(db, jid, true, name)
  }

  /** `info` holds the subjects GetGroupInfo would answer; a missing one is a failed query. */
  function Fetched(db: Tables, jid: Jid, info: map<Jid, string>): Tables {
    if jid !in info || info[jid] == "" then db else Applied(UpsertGroup(db, jid, info[jid]), jid, info[jid])
  }

  /** A listed chat: its JID and whether its kind is group. */
  datatype Listed = Listed(jid: Jid, group: bool)

  predicate Repairs(c: Listed) { c.group && NameResolver.EndsWith(c.jid, "@g.us") }

  function Subject(db: Tables, jid: Jid): string { if jid in db.groups then db.groups[jid] else "" }

  predicate Queries(db: Tables, c: Listed) { Repairs(c) && Subject(db, c.jid) == "" }

  function One(db: Tables, c: Listed, info: map<Jid, string>): Tables {
    if !Repairs(c) then db
    else if Subject(db, c.jid) != "" then Applied(db, c.jid, Subject(db, c.jid))
    else Fetched(db, c.jid, info)
  }

  /** The tables after a pass with `left` queries to spend. */
  function Pass(db: Tables, chats: seq<Listed>, info: map<Jid, string>, left: nat): Tables
    decreases |chats|
  {
    if chats == [] || (Queries(db, chats[0]) && left == 0) then db
    else Pass(One(db, chats[0], info), chats[1..], info, if Queries(db, chats[0]) then left - 1 else left)
  }

  class GroupRepairer {
    var running: bool
    var lastRun: Option<int>

    constructor ()
      ensures !running && lastRun.None?
    {
      running, lastRun := false, None;
    }

    /** `started` is what goTracked answers: false once the service is closing. */
    method Kick(now: int, started: bool) returns (runs: bool)
      modifies this
      ensures var due := !old(running) && (old(lastRun).None? || now - old(lastRun).value >= GROUP_REPAIR_MIN_INTERVAL);
        && runs == (due && started)
        && running == (runs || old(running))
        && lastRun == if due then Some(now) else old(lastRun)
    {
      if running || (lastRun.Some? && now - lastRun.value < GROUP_REPAIR_MIN_INTERVAL) {
        return false;
      }
      running, lastRun := true, Some(now);
      if !started {
        running := false;
      }
      return started;
    }

    method Done()
      modifies this`running
      ensures !running
    {
      running := false;
    }

    /** run, over the chats it reaches before the context is cancelled. */
    method Run(db: Tables, chats: seq<Listed>, info: map<Jid, string>) returns (after: Tables, queries: nat)
      ensures after == Pass(db, chats, info, GROUP_REPAIR_MAX_PER_RUN)
      ensures queries <= GROUP_REPAIR_MAX_PER_RUN
      ensures forall i :: 0 <= i < |chats| && chats[i].group && IsGroupJid(chats[i].jid) && Unknown(db, chats[..i + 1]) <= 25 ==>
        Arrives(db, after, chats[i].jid, info)
    {
      forall i | 0 <= i < |chats| && chats[i].group && IsGroupJid(chats[i].jid) && Unknown(db, chats[..i + 1]) <= 25
        ensures Arrives(db, Pass(db, chats, info, GROUP_REPAIR_MAX_PER_RUN), chats[i].jid, info)
      {
        SubjectArrives(db, chats, info, GROUP_REPAIR_MAX_PER_RUN, i);
      }
      after, queries := db, 0;
      var i := 0;
      while i < |chats|
        invariant i <= |chats| && queries <= GROUP_REPAIR_MAX_PER_RUN
        invariant Pass(after, chats[i..], info, GROUP_REPAIR_MAX_PER_RUN - queries)
               == Pass(db, chats, info, GROUP_REPAIR_MAX_PER_RUN)
      {
        var c := chats[i];
        assert chats[i..][1..] == chats[i + 1..];
        i := i + 1;
        if !Repairs(c) {
          continue;
        }
        if c.jid in after.groups && after.groups[c.jid] != "" {
          after := Applied(after, c.jid, after.groups[c.jid]);
          continue;
        }
        if queries >= GROUP_REPAIR_MAX_PER_RUN {
          return;
        }
        queries := queries + 1;
        after := Fetched(after, c.jid, info);
      }
    }
  }

  // ---------------------------------------------------------------------- results

  /** A chat carries its group's subject when one is known (a subject equal to the raw JID is
      never used as a name). */
  predicate Agrees(db: Tables, j: Jid) {
    Subject(db, j) != "" && Subject(db, j) != j ==> j in db.chats && db.chats[j].name == Subject(db, j)
  }

  lemma AppliedStep(db: Tables, jid: Jid, name: string, j: Jid)
    ensures var db' := Applied(db, jid, name);
      && (name != "" && name != jid ==> jid in db'.chats && db'.chats[jid].name == name)
      && (j != jid ==> ChatRow(db', j) == ChatRow(db, j))
      && db'.groups == db.groups
  {
    PutChatRow(db, jid, UpsertedRow(ChatRow(db, jid), true, name), j);
  }

  lemma PutChatRow(db: Tables, jid: Jid, row: Chat, j: Jid)
    ensures var db' := PutChat(db, jid, row);
      ChatRow(db', jid) == Some(row) && (j != jid ==> ChatRow(db', j) == ChatRow(db, j)) && db'.groups == db.groups
  {
  }

  lemma FetchedStep(db: Tables, jid: Jid, info: map<Jid, string>, j: Jid)
    requires Subject(db, jid) == ""
    ensures var db' := Fetched(db, jid, info);
      && Agrees(db', jid)
      && (j != jid ==> Subject(db', j) == Subject(db, j) && ChatRow(db', j) == ChatRow(db, j))
  {
    if jid in info && info[jid] != "" {
      AppliedStep(UpsertGroup(db, jid, info[jid]), jid, info[jid], j);
    }
  }

  lemma OneStep(db: Tables, c: Listed, info: map<Jid, string>, j: Jid)
    ensures var db' := One(db, c, info);
      && (j == c.jid && Repairs(c) ==> Agrees(db', j))
      && (j != c.jid ==> Subject(db', j) == Subject(db, j) && ChatRow(db', j) == ChatRow(db, j))
      && (Agrees(db, j) ==> Agrees(db', j))
      && (Subject(db, j) != "" ==> Subject(db', j) == Subject(db, j))
  {
    if Queries(db, c) {
      FetchedStep(db, c.jid, info, j);
    } else if Repairs(c) {
      AppliedStep(db, c.jid, Subject(db, c.jid), j);
    }
  }

  lemma {:induction false} PassKeeps(db: Tables, chats: seq<Listed>, info: map<Jid, string>, left: nat, j: Jid)
    ensures var db' := Pass(db, chats, info, left);
      && (Agrees(db, j) ==> Agrees(db', j))
      && (Subject(db, j) != "" ==> Subject(db', j) == Subject(db, j))
      && ((forall i :: 0 <= i < |chats| ==> chats[i].jid != j) ==> ChatRow(db', j) == ChatRow(db, j))
    decreases |chats|
  {
    if chats != [] && !(Queries(db, chats[0]) && left == 0) {
      OneStep(db, chats[0], info, j);
      PassKeeps(One(db, chats[0], info), chats[1..], info, if Queries(db, chats[0]) then left - 1 else left, j);
    }
  }

  /** Listed group chats without a stored subject, which cost a query each. */
  function Unknown(db: Tables, chats: seq<Listed>): nat
    decreases |chats|
  {
    if chats == [] then 0 else (if Queries(db, chats[0]) then 1 else 0) + Unknown(db, chats[1..])
  }

  lemma {:induction false} UnknownShrinks(db: Tables, chats: seq<Listed>, c: Listed, info: map<Jid, string>)
    ensures Unknown(One(db, c, info), chats) <= Unknown(db, chats)
    decreases |chats|
  {
    if chats != [] {
      OneStep(db, c, info, chats[0].jid);
      UnknownShrinks(db, chats[1..], c, info);
    }
  }

  /** A listed group that the queries reach, counting those spent before and on it, ends with
      its subject; a chat whose subject is known locally costs none. */
  lemma {:induction false} PassRepairs(db: Tables, chats: seq<Listed>, info: map<Jid, string>, left: nat, i: nat)
    requires i < |chats| && Repairs(chats[i]) && Unknown(db, chats[..i + 1]) <= left
    ensures Agrees(Pass(db, chats, info, left), chats[i].jid)
    decreases |chats|
  {
    var db' := One(db, chats[0], info);
    var rest := if Queries(db, chats[0]) then left - 1 else left;
    assert chats[..i + 1][1..] == chats[1..][..i];
    UnknownShrinks(db, chats[1..][..i], chats[0], info);
    if i == 0 {
      OneStep(db, chats[0], info, chats[0].jid);
      PassKeeps(db', chats[1..], info, rest, chats[0].jid);
    } else {
      PassRepairs(db', chats[1..], info, rest, i - 1);
    }
  }

  predicate IsGroupJid(j: Jid) { |j| >= 5 && j[|j| - 5..] == "@g.us" }

  /** Of a group without a stored subject the queried one is stored, and its chat is named after
      it unless it is the raw JID; without an answer nothing about the group changes. */
  predicate Arrives(db: Tables, after: Tables, j: Jid, info: map<Jid, string>) {
    j !in db.groups || db.groups[j] == "" ==>
      && (j in info && info[j] != "" ==> j in after.groups && after.groups[j] == info[j])
      && (j in info && info[j] != "" && info[j] != j ==> j in after.chats && after.chats[j].name == info[j])
      && (j !in info || info[j] == "" ==> SameAt(db, after, j))
  }

  predicate SameAt(a: Tables, b: Tables, j: Jid) {
    && (j in b.groups <==> j in a.groups) && (j in a.groups ==> b.groups[j] == a.groups[j])
    && (j in b.chats <==> j in a.chats) && (j in a.chats ==> b.chats[j] == a.chats[j])
  }

  lemma OneElsewhere(db: Tables, c: Listed, info: map<Jid, string>, j: Jid)
    requires j == c.jid ==> Subject(db, j) == "" && (j !in info || info[j] == "")
    ensures SameAt(db, One(db, c, info), j)
  {
    OneStep(db, c, info, j);
    if Repairs(c) && j != c.jid {
      SubjectsElsewhere(db, c.jid, info, j);
    }
  }

  lemma SubjectsElsewhere(db: Tables, jid: Jid, info: map<Jid, string>, j: Jid)
    requires j != jid
    ensures var db' := Fetched(db, jid, info); (j in db'.groups <==> j in db.groups) && (j in db.groups ==> db'.groups[j] == db.groups[j])
  {
  }

  lemma {:induction false} NoAnswerNoChange(db: Tables, chats: seq<Listed>, info: map<Jid, string>, left: nat, j: Jid)
    requires Subject(db, j) == "" && (j !in info || info[j] == "")
    ensures SameAt(db, Pass(db, chats, info, left), j)
    decreases |chats|
  {
    if chats != [] && !(Queries(db, chats[0]) && left == 0) {
      OneElsewhere(db, chats[0], info, j);
      NoAnswerNoChange(One(db, chats[0], info), chats[1..], info, if Queries(db, chats[0]) then left - 1 else left, j);
    }
  }

  lemma QueriedArrives(db: Tables, c: Listed, info: map<Jid, string>)
    requires Queries(db, c) && c.jid in info && info[c.jid] != ""
    ensures var db' := One(db, c, info); Subject(db', c.jid) == info[c.jid] && Agrees(db', c.jid)
  {
    AppliedStep(UpsertGroup(db, c.jid, info[c.jid]), c.jid, info[c.jid], c.jid);
  }

  /** A group that the queries reach gets the subject that its query answers. */
  lemma {:induction false} SubjectArrives(db: Tables, chats: seq<Listed>, info: map<Jid, string>, left: nat, i: nat)
    requires i < |chats| && chats[i].group && IsGroupJid(chats[i].jid) && Unknown(db, chats[..i + 1]) <= left
    ensures Arrives(db, Pass(db, chats, info, left), chats[i].jid, info)
    decreases |chats|
  {
    var j := chats[i].jid;
    var db' := One(db, chats[0], info);
    var rest := if Queries(db, chats[0]) then left - 1 else left;
    assert chats[..i + 1][1..] == chats[1..][..i];
    if Subject(db, j) != "" {
    } else if j !in info || info[j] == "" {
      NoAnswerNoChange(db, chats, info, left, j);
    } else if Repairs(chats[0]) && chats[0].jid == j {
      QueriedArrives(db, chats[0], info);
      PassKeeps(db', chats[1..], info, rest, j);
    } else {
      OneStep(db, chats[0], info, j);
      UnknownShrinks(db, chats[1..][..i], chats[0], info);
      SubjectArrives(db', chats[1..], info, rest, i - 1);
    }
  }

  /** A chat that is listed as no group, or under a JID that is not a group's, is left alone. */
  lemma {:induction false} OthersAreLeftAlone(db: Tables, chats: seq<Listed>, info: map<Jid, string>, left: nat, j: Jid)
    requires (forall i :: 0 <= i < |chats| && chats[i].jid == j ==> !chats[i].group) || !IsGroupJid(j)
    ensures SameAt(db, Pass(db, chats, info, left), j)
    decreases |chats|
  {
    if chats != [] && !(Queries(db, chats[0]) && left == 0) {
      var c := chats[0];
      if c.jid == j {
        assert |"@g.us"| == 5 && !Repairs(c);
      } else {
        OneElsewhere(db, c, info, j);
      }
      OthersAreLeftAlone(One(db, c, info), chats[1..], info, if Queries(db, c) then left - 1 else left, j);
    }
  }

  /** A subject that is just the raw JID is never made a chat name, stored or queried. */
  lemma {:induction false} RawJidIsNoName(db: Tables, chats: seq<Listed>, info: map<Jid, string>, left: nat, j: Jid)
    requires Subject(db, j) == j || (Subject(db, j) == "" && (j in info ==> info[j] == j))
    ensures ChatRow(Pass(db, chats, info, left), j) == ChatRow(db, j)
    decreases |chats|
  {
    if chats != [] && !(Queries(db, chats[0]) && left == 0) {
      OneStep(db, chats[0], info, j);
      RawJidIsNoName(One(db, chats[0], info), chats[1..], info, if Queries(db, chats[0]) then left - 1 else left, j);
    }
  }

  predicate OnlyName(a: Chat, b: Chat) { b == a.(group := b.group, name := b.name) }

  /** A pass changes group subjects, and of chat rows the name and that they are groups. */
  lemma {:induction false} PassChanges(db: Tables, chats: seq<Listed>, info: map<Jid, string>, left: nat)
    ensures var db' := Pass(db, chats, info, left);
      && db' == db.(groups := db'.groups, chats := db'.chats)
      && forall j :: j in db.chats ==> j in db'.chats && OnlyName(db.chats[j], db'.chats[j])
    decreases |chats|
  {
    if chats != [] && !(Queries(db, chats[0]) && left == 0) {
      OneChanges(db, chats[0], info);
      PassChanges(One(db, chats[0], info), chats[1..], info, if Queries(db, chats[0]) then left - 1 else left);
    }
  }

  lemma AppliedChanges(db: Tables, jid: Jid, name: string)
    ensures var db' := Applied(db, jid, name);
      && db' == db.(chats := db'.chats)
      && forall j :: j in db.chats ==> j in db'.chats && OnlyName(db.chats[j], db'.chats[j])
  {
  }

  lemma OneChanges(db: Tables, c: Listed, info: map<Jid, string>)
    ensures var db' := One(db, c, info);
      && db' == db.(groups := db'.groups, chats := db'.chats)
      && forall j :: j in db.chats ==> j in db'.chats && OnlyName(db.chats[j], db'.chats[j])
  {
    AppliedChanges(db, c.jid, Subject(db, c.jid));
    if c.jid in info {
      AppliedChanges(UpsertGroup(db, c.jid, info[c.jid]), c.jid, info[c.jid]);
    }
  }
}
