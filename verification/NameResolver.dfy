/**
 Display names of chats: the resolution pipeline over the daemon's tables and the
 whatsmeow store, and the bounded cache with time-outs in front of it.
 */
module NameResolver {
  import opened Wrappers
  import opened Tables

  // milliseconds
  const NAME_CACHE_TTL: nat := 120_000
  const NAME_NEGATIVE_TTL: nat := 20_000
  const NAME_CACHE_MAX_SIZE: nat := 4096

  datatype Server = GroupServer | LidServer | PhoneServer | OtherServer

  /** A parsed JID; `text` is its string form. */
  datatype Parts = Parts(text: Jid, user: string, server: Server)

  datatype Info = Info(fullName: string, firstName: string, businessName: string, pushName: string)

  /** The local whatsmeow store, when a client exists. */
  datatype Source = Source(contacts: map<Jid, Info>, pnOf: map<Jid, Parts>, lidOf: map<Jid, Parts>)

  /** What a resolution can read; `parsed` holds the JIDs that parse. */
  datatype World = World(db: Tables, source: Option<Source>, parsed: map<Jid, Parts>)

  // ------------------------------------------------------------------- the pipeline

  function FirstNonEmpty(values: seq<string>): string
    decreases |values|
  {
    if values == [] then "" else if values[0] != "" then values[0] else FirstNonEmpty(values[1..])
  }

  function Digits(user: string): string {
    if user == "" then "" else if '0' <= user[0] <= '9' then [user[0]] + Digits(user[1..]) else Digits(user[1..])
  }

  function FormatPhone(user: string): string { if Digits(user) == "" then user else "+" + Digits(user) }

  predicate EndsWith(s: string, suffix: string) { |suffix| <= |s| && s[|s| - |suffix|..] == suffix }

  predicate ChatNameResolved(name: string, jid: Jid) { name != "" && name != jid && !EndsWith(name, "@lid") }

  function SavedName(w: World, jid: Jid): string {
    FirstNonEmpty(
      (if jid in w.db.contacts then [w.db.contacts[jid].fullName, w.db.contacts[jid].firstName] else []) +
      (if w.source.Some? && jid in w.source.value.contacts then
         var i := w.source.value.contacts[jid];
         [i.fullName, i.firstName, i.businessName]
       else []))
  }

  function KnownPushName(w: World, jid: Jid): string {
    FirstNonEmpty(
      (if jid in w.db.contacts then [w.db.contacts[jid].pushName] else []) +
      (if w.source.Some? && jid in w.source.value.contacts then [w.source.value.contacts[jid].pushName] else []))
  }

  /** The other identity of `p`, by the LID to phone number mapping. */
  function Mapped(w: World, p: Parts): Option<Parts> {
    if w.source.None? then None
    else
      var m := if p.server.LidServer? then w.source.value.pnOf else w.source.value.lidOf;
      if (p.server.LidServer? || p.server.PhoneServer?) && p.text in m then Some(m[p.text]) else None
  }

  function Candidates(w: World, p: Parts): seq<Jid> {
    [p.text] + if Mapped(w, p).Some? then [Mapped(w, p).value.text] else []
  }

  function KnownPhone(w: World, p: Parts): Option<string> {
    if p.server.PhoneServer? then Some(p.user)
    else if p.server.LidServer? && Mapped(w, p).Some? then Some(Mapped(w, p).value.user)
    else None
  }

  datatype Answer = Answer(name: string, resolved: bool)

  function GroupPipeline(db: Tables, jid: Jid): Answer {
    if jid in db.groups && db.groups[jid] != "" then Answer(db.groups[jid], true)
    else if jid in db.chats && ChatNameResolved(db.chats[jid].name, jid) then Answer(db.chats[jid].name, true)
    else Answer(jid, false)
  }

  function SavedNames(w: World, candidates: seq<Jid>): seq<string> {
    seq(|candidates|, i requires 0 <= i < |candidates| => SavedName(w, candidates[i]))
  }

  function PushNames(w: World, candidates: seq<Jid>): seq<string> {
    seq(|candidates|, i requires 0 <= i < |candidates| => KnownPushName(w, candidates[i]))
  }

  function Pipeline(w: World, p: Parts, hint: string): Answer {
    if p.server.GroupServer? then GroupPipeline(w.db, p.text)
    else
      var cs := Candidates(w, p);
      var found := FirstNonEmpty(SavedNames(w, cs) + PushNames(w, cs) + [hint]);
      if found != "" then Answer(found, true)
      else if KnownPhone(w, p).Some? then Answer(FormatPhone(KnownPhone(w, p).value), false)
      else Answer(p.text, false)
  }

  /** The uncached answer for `jid`; a JID that does not parse has only its hint. */
  function Uncached(w: World, jid: Jid, hint: string): Answer {
    if jid in w.parsed then Pipeline(w, w.parsed[jid], hint)
    else if hint != "" then Answer(hint, true)
    else Answer(jid, false)
  }

  /** A group is never named after a participant: the hint plays no part. */
  lemma GroupsIgnoreTheHint(w: World, p: Parts, hint: string)
    requires p.server.GroupServer?
    ensures Pipeline(w, p, hint) == Pipeline(w, p, "")
    ensures Pipeline(w, p, hint).resolved ==>
      (p.text in w.db.groups && Pipeline(w, p, hint).name == w.db.groups[p.text] != "")
      || (p.text in w.db.chats && Pipeline(w, p, hint).name == w.db.chats[p.text].name != "")
  {
  }

  lemma {:induction false} FirstNonEmptyIsFirst(values: seq<string>, k: nat)
    requires k < |values| && values[k] != "" && forall i :: 0 <= i < k ==> values[i] == ""
    ensures FirstNonEmpty(values) == values[k]
  {
    if k > 0 {
      FirstNonEmptyIsFirst(values[1..], k - 1);
    }
  }

  lemma {:induction false} FirstNonEmptyOfEmpty(values: seq<string>)
    requires forall i :: 0 <= i < |values| ==> values[i] == ""
    ensures FirstNonEmpty(values) == ""
  {
    if values != [] {
      FirstNonEmptyOfEmpty(values[1..]);
    }
  }

  lemma {:induction false} FirstNonEmptyOfSum(a: seq<string>, b: seq<string>)
    ensures FirstNonEmpty(a + b) == if FirstNonEmpty(a) != "" then FirstNonEmpty(a) else FirstNonEmpty(b)
  {
    if a == [] {
      assert a + b == b;
    } else {
      assert (a + b)[1..] == a[1..] + b;
      FirstNonEmptyOfSum(a[1..], b);
    }
  }

  /** A saved name of any identity wins over every push name, and both over the hint. */
  lemma SavedNamesWin(w: World, p: Parts, hint: string)
    requires !p.server.GroupServer?
    ensures var cs := Candidates(w, p); var answer := Pipeline(w, p, hint);
      && (FirstNonEmpty(SavedNames(w, cs)) != "" ==> answer == Answer(FirstNonEmpty(SavedNames(w, cs)), true))
      && (FirstNonEmpty(SavedNames(w, cs)) == "" && FirstNonEmpty(PushNames(w, cs)) != "" ==>
            answer == Answer(FirstNonEmpty(PushNames(w, cs)), true))
      && (FirstNonEmpty(SavedNames(w, cs)) == "" && FirstNonEmpty(PushNames(w, cs)) == "" && hint != "" ==>
            answer == Answer(hint, true))
  {
    var cs := Candidates(w, p);
    FirstNonEmptyOfSum(SavedNames(w, cs) + PushNames(w, cs), [hint]);
    FirstNonEmptyOfSum(SavedNames(w, cs), PushNames(w, cs));
  }

  // -------------------------------------------------------------------- the cache

  datatype Entry = Entry(name: string, resolved: bool, expires: int)

  function Ttl(resolved: bool): nat { if resolved then NAME_CACHE_TTL else NAME_NEGATIVE_TTL }

  function Looked(cache: map<Jid, Entry>, jid: Jid, now: int): Option<Entry> {
    if jid in cache && now <= cache[jid].expires then Some(cache[jid]) else None
  }

  function Remembered(cache: map<Jid, Entry>, jid: Jid, a: Answer, now: int): map<Jid, Entry> {
    (if |cache| >= NAME_CACHE_MAX_SIZE then map[] else cache)[jid := Entry(a.name, a.resolved, now + Ttl(a.resolved))]
  }

  lemma CacheStaysBounded(cache: map<Jid, Entry>, jid: Jid, a: Answer, now: int)
    requires |cache| <= NAME_CACHE_MAX_SIZE
    ensures |Remembered(cache, jid, a, now)| <= NAME_CACHE_MAX_SIZE
  {
    var base: map<Jid, Entry> := if |cache| >= NAME_CACHE_MAX_SIZE then map[] else cache;
    assert Remembered(cache, jid, a, now).Keys == base.Keys + {jid};
  }

  class NameResolver {
    var cache: map<Jid, Entry>

    constructor ()
      ensures cache == map[]
    {
      cache := map[];
    }

    /** resolve, with its loops over the candidate identities. */
    method RunPipeline(w: World, p: Parts, hint: string) returns (a: Answer)
      ensures a == Pipeline(w, p, hint)
    {
      if p.server.GroupServer? {
        return GroupPipeline(w.db, p.text);
      }
      var cs := Candidates(w, p);
      ghost var saved, pushed := SavedNames(w, cs), PushNames(w, cs);
      var i := 0;
      while i < |cs|
        invariant i <= |cs| && forall k :: 0 <= k < i ==> saved[k] == ""
      {
        if SavedName(w, cs[i]) != "" {
          FirstNonEmptyIsFirst(saved + pushed + [hint], i);
          return Answer(SavedName(w, cs[i]), true);
        }
        i := i + 1;
      }
      i := 0;
      while i < |cs|
        invariant i <= |cs| && forall k :: 0 <= k < i ==> pushed[k] == ""
      {
        if KnownPushName(w, cs[i]) != "" {
          FirstNonEmptyIsFirst(saved + pushed + [hint], |cs| + i);
          return Answer(KnownPushName(w, cs[i]), true);
        }
        i := i + 1;
      }
      if hint != "" {
        FirstNonEmptyIsFirst(saved + pushed + [hint], |cs| + |cs|);
        return Answer(hint, true);
      }
      FirstNonEmptyOfEmpty(saved + pushed + [hint]);
      var phone := KnownPhone(w, p);
      a := if phone.Some? then Answer(FormatPhone(phone.value), false) else Answer(p.text, false);
    }

    /** Only answers without a hint use the cache. `now` is read at the lookup, `later` when
        the answer is stored. */
    method Resolve(w: World, jid: Jid, hint: string, now: int, later: int) returns (a: Answer)
      requires now <= later && |cache| <= NAME_CACHE_MAX_SIZE
      modifies this
      ensures |cache| <= NAME_CACHE_MAX_SIZE
      ensures jid !in w.parsed ==> cache == old(cache) && a == if hint != "" then Answer(hint, true) else Answer(jid, false)
      ensures jid in w.parsed && hint == "" && jid in old(cache) && now <= old(cache)[jid].expires ==>
        cache == old(cache) && a == Answer(old(cache)[jid].name, old(cache)[jid].resolved)
      ensures jid in w.parsed && (hint != "" || jid !in old(cache) || now > old(cache)[jid].expires) ==>
        a == Pipeline(w, w.parsed[jid], hint)
      ensures var hit := Looked(old(cache), jid, now); var cached := hint == "" && jid in w.parsed;
        && a == (if cached && hit.Some? then Answer(hit.value.name, hit.value.resolved) else Uncached(w, jid, hint))
        && cache == if cached && hit.None? then Remembered(old(cache), jid, a, later) else old(cache)
    {
      if jid !in w.parsed {
        return if hint != "" then Answer(hint, true) else Answer(jid, false);
      }
      if hint == "" && jid in cache && now <= cache[jid].expires {
        return Answer(cache[jid].name, cache[jid].resolved);
      }
      a := RunPipeline(w, w.parsed[jid], hint);
      if hint == "" {
        CacheStaysBounded(cache, jid, a, later);
        if |cache| >= NAME_CACHE_MAX_SIZE {
          cache := map[];
        }
        cache := cache[jid := Entry(a.name, a.resolved, later + Ttl(a.resolved))];
      }
    }
  }
}
