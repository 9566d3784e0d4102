/**
 Which name wins, by the columns and maps a resolution reads: for every identity the
 names of cae_contacts and of the whatsmeow store in their order, then the push
 names, then the hint, then the phone number.
 */
module NameSources {
  import opened Wrappers
  import opened Tables
  import opened NameResolver

  // -------------------------------------------------------------------- the columns

  /** The row of cae_contacts, empty if there is none. */
  function Row(w: World, jid: Jid): Contact { if jid in w.db.contacts then w.db.contacts[jid] else Contact("", "", "") }

  /** The contact of the whatsmeow store, empty if there is none. */
  function Stored(w: World, jid: Jid): Info {
    if w.source.Some? && jid in w.source.value.contacts then w.source.value.contacts[jid] else Info("", "", "", "")
  }

  /** `o` is the other identity of `p`: the phone number of a LID, the LID of a phone number. */
  predicate OtherIdentity(w: World, p: Parts, o: Option<Parts>) {
    if w.source.Some? && p.server.LidServer? && p.text in w.source.value.pnOf then o == Some(w.source.value.pnOf[p.text])
    else if w.source.Some? && p.server.PhoneServer? && p.text in w.source.value.lidOf then o == Some(w.source.value.lidOf[p.text])
    else o.None?
  }

  function SavedColumns(w: World, jid: Jid): seq<string> {
    [Row(w, jid).fullName, Row(w, jid).firstName, Stored(w, jid).fullName, Stored(w, jid).firstName, Stored(w, jid).businessName]
  }

  function PushColumns(w: World, jid: Jid): seq<string> { [Row(w, jid).pushName, Stored(w, jid).pushName] }

  /** Everything that can name a chat that is no group, the first one first. */
  function NameColumns(w: World, p: Parts, o: Option<Parts>, hint: string): seq<string> {
    match o
    case None => SavedColumns(w, p.text) + PushColumns(w, p.text) + [hint]
    case Some(q) =>
      SavedColumns(w, p.text) + SavedColumns(w, q.text) + PushColumns(w, p.text) + PushColumns(w, q.text) + [hint]
  }

  // -------------------------------------------------------------------- the answer

  lemma FirstOfTwo(a: string, b: string)
    ensures FirstNonEmpty([a, b]) == if a != "" then a else b
  {
    assert [a, b][1..] == [b];
    assert FirstNonEmpty([b]) == b;
  }

  lemma FirstOfFive(a: string, b: string, c: string, d: string, e: string)
    ensures FirstNonEmpty([a, b, c, d, e]) == if a != "" then a else if b != "" then b else FirstNonEmpty([c, d, e])
    ensures FirstNonEmpty([c, d, e]) == if c != "" then c else if d != "" then d else e
  {
    assert [a, b, c, d, e][1..] == [b, c, d, e] && [b, c, d, e][1..] == [c, d, e] && [c, d, e][1..] == [d, e];
    FirstOfTwo(d, e);
  }

  lemma SavedIsFirstColumn(w: World, jid: Jid)
    ensures SavedName(w, jid) == FirstNonEmpty(SavedColumns(w, jid))
  {
    var r, i := Row(w, jid), Stored(w, jid);
    FirstOfFive(r.fullName, r.firstName, i.fullName, i.firstName, i.businessName);
    FirstOfTwo(r.fullName, r.firstName);
    var rows := if jid in w.db.contacts then [r.fullName, r.firstName] else [];
    var infos := if w.source.Some? && jid in w.source.value.contacts then [i.fullName, i.firstName, i.businessName] else [];
    FirstNonEmptyOfSum(rows, infos);
  }

  lemma PushIsFirstColumn(w: World, jid: Jid)
    ensures KnownPushName(w, jid) == FirstNonEmpty(PushColumns(w, jid))
  {
    var r, i := Row(w, jid), Stored(w, jid);
    FirstOfTwo(r.pushName, i.pushName);
    var rows := if jid in w.db.contacts then [r.pushName] else [];
    var infos := if w.source.Some? && jid in w.source.value.contacts then [i.pushName] else [];
    FirstNonEmptyOfSum(rows, infos);
  }

  lemma CandidatesAre(w: World, p: Parts, o: Option<Parts>)
    requires OtherIdentity(w, p, o)
    ensures Candidates(w, p) == if o.Some? then [p.text, o.value.text] else [p.text]
    ensures KnownPhone(w, p) ==
      if p.server.PhoneServer? then Some(p.user) else if p.server.LidServer? && o.Some? then Some(o.value.user) else None
  {
  }

  lemma FirstOfOne(a: string)
    ensures FirstNonEmpty([a]) == a
  {
  }

  lemma AloneIsFirstColumn(w: World, a: Jid, hint: string)
    ensures FirstNonEmpty(SavedNames(w, [a]) + PushNames(w, [a]) + [hint])
         == FirstNonEmpty(SavedColumns(w, a) + PushColumns(w, a) + [hint])
  {
    SavedIsFirstColumn(w, a);
    PushIsFirstColumn(w, a);
    assert SavedNames(w, [a]) == [SavedName(w, a)] && PushNames(w, [a]) == [KnownPushName(w, a)];
    FirstOfOne(SavedName(w, a));
    FirstOfOne(KnownPushName(w, a));
    FirstOfThree(SavedNames(w, [a]), PushNames(w, [a]), [hint]);
    FirstOfThree(SavedColumns(w, a), PushColumns(w, a), [hint]);
  }

  lemma FirstOfThree(a: seq<string>, b: seq<string>, c: seq<string>)
    ensures FirstNonEmpty(a + b + c)
         == if FirstNonEmpty(a) != "" then FirstNonEmpty(a) else if FirstNonEmpty(b) != "" then FirstNonEmpty(b) else FirstNonEmpty(c)
  {
    FirstNonEmptyOfSum(a + b, c);
    FirstNonEmptyOfSum(a, b);
  }

  lemma BothAreFirstColumns(w: World, a: Jid, b: Jid, hint: string)
    ensures FirstNonEmpty(SavedNames(w, [a, b]) + PushNames(w, [a, b]) + [hint])
         == FirstNonEmpty(SavedColumns(w, a) + SavedColumns(w, b) + PushColumns(w, a) + PushColumns(w, b) + [hint])
  {
    SavedIsFirstColumn(w, a);
    SavedIsFirstColumn(w, b);
    PushIsFirstColumn(w, a);
    PushIsFirstColumn(w, b);
    assert SavedNames(w, [a, b]) == [SavedName(w, a), SavedName(w, b)];
    assert PushNames(w, [a, b]) == [KnownPushName(w, a), KnownPushName(w, b)];
    FirstOfTwo(SavedName(w, a), SavedName(w, b));
    FirstOfTwo(KnownPushName(w, a), KnownPushName(w, b));
    FirstOfThree(SavedNames(w, [a, b]), PushNames(w, [a, b]), [hint]);
    FirstNonEmptyOfSum(SavedColumns(w, a), SavedColumns(w, b));
    FirstOfThree(SavedColumns(w, a) + SavedColumns(w, b), PushColumns(w, a), PushColumns(w, b));
    FirstNonEmptyOfSum(SavedColumns(w, a) + SavedColumns(w, b) + PushColumns(w, a) + PushColumns(w, b), [hint]);
  }

  lemma ColumnsDecide(w: World, p: Parts, o: Option<Parts>, hint: string)
    requires !p.server.GroupServer? && OtherIdentity(w, p, o)
    ensures FirstNonEmpty(SavedNames(w, Candidates(w, p)) + PushNames(w, Candidates(w, p)) + [hint])
         == FirstNonEmpty(NameColumns(w, p, o, hint))
  {
    CandidatesAre(w, p, o);
    if o.Some? {
      BothAreFirstColumns(w, p.text, o.value.text, hint);
    } else {
      AloneIsFirstColumn(w, p.text, hint);
    }
  }

  /** The first of the columns that is not empty is the answer, and it counts as resolved. */
  lemma FirstColumnNames(w: World, p: Parts, o: Option<Parts>, hint: string, k: nat)
    requires !p.server.GroupServer? && OtherIdentity(w, p, o)
    requires var names := NameColumns(w, p, o, hint); k < |names| && names[k] != "" && forall i :: 0 <= i < k ==> names[i] == ""
    ensures Pipeline(w, p, hint) == Answer(NameColumns(w, p, o, hint)[k], true)
  {
    ColumnsDecide(w, p, o, hint);
    FirstNonEmptyIsFirst(NameColumns(w, p, o, hint), k);
  }

  /** A LID without a saved name of its own has the saved name of its phone number. */
  lemma LidIsNamedByItsNumber(w: World, p: Parts, q: Parts, hint: string)
    requires p.server.LidServer? && w.source.Some? && p.text in w.source.value.pnOf && q == w.source.value.pnOf[p.text]
    requires forall i :: 0 <= i < 5 ==> SavedColumns(w, p.text)[i] == ""
    requires q.text in w.db.contacts
    ensures w.db.contacts[q.text].fullName != "" ==> Pipeline(w, p, hint) == Answer(w.db.contacts[q.text].fullName, true)
    ensures w.db.contacts[q.text].fullName == "" && w.db.contacts[q.text].firstName != "" ==>
      Pipeline(w, p, hint) == Answer(w.db.contacts[q.text].firstName, true)
  {
    OtherIsFirst(w, p, q, hint);
  }

  /** A phone number without a saved name of its own has the saved name of its LID. */
  lemma NumberIsNamedByItsLid(w: World, p: Parts, q: Parts, hint: string)
    requires p.server.PhoneServer? && w.source.Some? && p.text in w.source.value.lidOf && q == w.source.value.lidOf[p.text]
    requires forall i :: 0 <= i < 5 ==> SavedColumns(w, p.text)[i] == ""
    requires q.text in w.db.contacts
    ensures w.db.contacts[q.text].fullName != "" ==> Pipeline(w, p, hint) == Answer(w.db.contacts[q.text].fullName, true)
    ensures w.db.contacts[q.text].fullName == "" && w.db.contacts[q.text].firstName != "" ==>
      Pipeline(w, p, hint) == Answer(w.db.contacts[q.text].firstName, true)
  {
    OtherIsFirst(w, p, q, hint);
  }

  lemma OtherIsFirst(w: World, p: Parts, q: Parts, hint: string)
    requires !p.server.GroupServer? && OtherIdentity(w, p, Some(q))
    requires forall i :: 0 <= i < 5 ==> SavedColumns(w, p.text)[i] == ""
    ensures Row(w, q.text).fullName != "" ==> Pipeline(w, p, hint) == Answer(Row(w, q.text).fullName, true)
    ensures Row(w, q.text).fullName == "" && Row(w, q.text).firstName != "" ==>
      Pipeline(w, p, hint) == Answer(Row(w, q.text).firstName, true)
  {
    var names := NameColumns(w, p, Some(q), hint);
    assert forall i :: 0 <= i < 5 ==> names[i] == SavedColumns(w, p.text)[i];
    assert names[5] == Row(w, q.text).fullName && names[6] == Row(w, q.text).firstName;
    if names[5] != "" {
      FirstColumnNames(w, p, Some(q), hint, 5);
    } else if names[6] != "" {
      FirstColumnNames(w, p, Some(q), hint, 6);
    }
  }

  /** `digits` are the digits of `s`, in order. */
  predicate AreDigits(s: string, digits: string) {
    if s == "" then digits == ""
    else if '0' <= s[0] <= '9' then digits != "" && digits[0] == s[0] && AreDigits(s[1..], digits[1..])
    else AreDigits(s[1..], digits)
  }

  lemma {:induction false} DigitsAre(s: string, digits: string)
    requires AreDigits(s, digits)
    ensures Digits(s) == digits
  {
    if s != "" {
      if '0' <= s[0] <= '9' {
        DigitsAre(s[1..], digits[1..]);
      } else {
        DigitsAre(s[1..], digits);
      }
    }
  }

  /** Without a name anywhere a phone number, or the one of a LID, is shown by its digits; every
      other chat by its JID. Neither counts as resolved. */
  lemma NamelessIsANumber(w: World, p: Parts, o: Option<Parts>, digits: string)
    requires !p.server.GroupServer? && OtherIdentity(w, p, o)
    requires forall i :: 0 <= i < |NameColumns(w, p, o, "")| ==> NameColumns(w, p, o, "")[i] == ""
    ensures p.server.PhoneServer? && AreDigits(p.user, digits) ==>
      Pipeline(w, p, "") == Answer(if digits == "" then p.user else "+" + digits, false)
    ensures p.server.LidServer? && o.Some? && AreDigits(o.value.user, digits) ==>
      Pipeline(w, p, "") == Answer(if digits == "" then o.value.user else "+" + digits, false)
    ensures !p.server.PhoneServer? && !(p.server.LidServer? && o.Some?) ==> Pipeline(w, p, "") == Answer(p.text, false)
  {
    ColumnsDecide(w, p, o, "");
    FirstNonEmptyOfEmpty(NameColumns(w, p, o, ""));
    CandidatesAre(w, p, o);
    if p.server.PhoneServer? && AreDigits(p.user, digits) {
      DigitsAre(p.user, digits);
    } else if p.server.LidServer? && o.Some? && AreDigits(o.value.user, digits) {
      DigitsAre(o.value.user, digits);
    }
  }

  /** The map that leads from phone numbers to LIDs plays no part for a LID. */
  lemma LidIgnoresLidOf(w: World, p: Parts, hint: string, other: map<Jid, Parts>)
    requires p.server.LidServer? && w.source.Some?
    ensures Pipeline(w.(source := Some(w.source.value.(lidOf := other))), p, hint) == Pipeline(w, p, hint)
  {
    var v := w.(source := Some(w.source.value.(lidOf := other)));
    var o := if p.text in w.source.value.pnOf then Some(w.source.value.pnOf[p.text]) else None;
    SameColumns(w, v, p, o, hint);
  }

  /** The map that leads from LIDs to phone numbers plays no part for a phone number. */
  lemma NumberIgnoresPnOf(w: World, p: Parts, hint: string, other: map<Jid, Parts>)
    requires p.server.PhoneServer? && w.source.Some?
    ensures Pipeline(w.(source := Some(w.source.value.(pnOf := other))), p, hint) == Pipeline(w, p, hint)
  {
    var v := w.(source := Some(w.source.value.(pnOf := other)));
    var o := if p.text in w.source.value.lidOf then Some(w.source.value.lidOf[p.text]) else None;
    SameColumns(w, v, p, o, hint);
  }

  lemma SameColumns(w: World, v: World, p: Parts, o: Option<Parts>, hint: string)
    requires !p.server.GroupServer? && OtherIdentity(w, p, o) && OtherIdentity(v, p, o)
    requires v.db == w.db && v.source.Some? && w.source.Some? && v.source.value.contacts == w.source.value.contacts
    ensures Pipeline(v, p, hint) == Pipeline(w, p, hint)
  {
    ColumnsDecide(w, p, o, hint);
    ColumnsDecide(v, p, o, hint);
    CandidatesAre(w, p, o);
    CandidatesAre(v, p, o);
    assert NameColumns(v, p, o, hint) == NameColumns(w, p, o, hint);
  }

  /** A group has its stored subject, else its chat's name unless that is the JID or a LID, else
      nothing but its JID. */
  lemma GroupNames(w: World, p: Parts, hint: string, subject: string, name: string)
    requires p.server.GroupServer?
    requires subject == if p.text in w.db.groups then w.db.groups[p.text] else ""
    requires name == if p.text in w.db.chats then w.db.chats[p.text].name else ""
    ensures var isLid := |name| >= 4 && name[|name| - 4..] == "@lid";
      Pipeline(w, p, hint) ==
        if subject != "" then Answer(subject, true)
        else if name != "" && name != p.text && !isLid then Answer(name, true)
        else Answer(p.text, false)
  {
  }

  /** Answers are kept for two minutes, fallbacks for twenty seconds; a full cache is emptied
      before the answer goes in. */
  lemma RememberedEntry(cache: map<Jid, Entry>, jid: Jid, a: Answer, now: int)
    ensures var after := Remembered(cache, jid, a, now);
      && jid in after && after[jid] == Entry(a.name, a.resolved, now + if a.resolved then 120_000 else 20_000)
      && (|cache| < 4096 ==> forall j :: j != jid ==> (j in after <==> j in cache) && (j in cache ==> after[j] == cache[j]))
      && (|cache| >= 4096 ==> forall j :: j != jid ==> j !in after)
  {
  }
}
