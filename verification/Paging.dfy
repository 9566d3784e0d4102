/**
 Keyset paging: ListMessages, and a client that asks again with `before` set to the
 oldest timestamp it got.
 */
module Paging {
  import opened Wrappers
  import opened Tables

  const DEFAULT_LIST_LIMIT := 100
  const MAX_LIST_LIMIT := 1000

  function NormalizeLimit(limit: int): (n: nat)
    ensures 1 <= n <= 1000
    ensures 1 <= limit <= 1000 ==> n == limit
    ensures limit <= 0 ==> n == 100
    ensures limit > 1000 ==> n == 1000
  {
    if limit <= 0 then DEFAULT_LIST_LIMIT else if limit > MAX_LIST_LIMIT then MAX_LIST_LIMIT else limit
  }

  // --------------------------------------------------------------- newest first

  datatype Row = Row(id: Id, ts: int)

  /** The order of text columns: code point by code point, a prefix first. */
  predicate IdLess(a: Id, b: Id) {
    b != [] && (a == [] || a[0] < b[0] || (a[0] == b[0] && IdLess(a[1..], b[1..])))
  }

  lemma {:induction false} IdTotal(a: Id, b: Id)
    ensures a != b ==> IdLess(a, b) || IdLess(b, a)
  {
    if a != [] && b != [] && a[0] == b[0] {
      IdTotal(a[1..], b[1..]);
      assert a == [a[0]] + a[1..] && b == [b[0]] + b[1..];
    }
  }

  lemma {:induction false} IdTransitive(a: Id, b: Id, c: Id)
    requires IdLess(a, b) && IdLess(b, c)
    ensures IdLess(a, c)
  {
    if a != [] && a[0] == b[0] && b[0] == c[0] {
      IdTransitive(a[1..], b[1..], c[1..]);
    }
  }

  lemma {:induction false} IdIrreflexive(a: Id)
    ensures !IdLess(a, a)
  {
    if a != [] {
      IdIrreflexive(a[1..]);
    }
  }

  /** ORDER BY timestamp DESC, id DESC. */
  predicate Newer(a: Row, b: Row) { a.ts > b.ts || (a.ts == b.ts && IdLess(b.id, a.id)) }

  lemma NewerTransitive(a: Row, b: Row, c: Row)
    requires Newer(a, b) && Newer(b, c)
    ensures Newer(a, c)
  {
    if a.ts == b.ts == c.ts {
      IdTransitive(c.id, b.id, a.id);
    }
  }

  lemma NewerIrreflexive(a: Row)
    ensures !Newer(a, a)
  {
    IdIrreflexive(a.id);
  }

  predicate Ordered(l: seq<Row>) { forall i, j :: 0 <= i < j < |l| ==> Newer(l[i], l[j]) }

  predicate IsTop(rows: set<Row>, top: Row) { top in rows && forall r :: r in rows && r != top ==> Newer(top, r) }

  lemma {:induction false} TopExists(rows: set<Row>) returns (top: Row)
    requires rows != {}
    ensures IsTop(rows, top)
    decreases |rows|
  {
    var one :| one in rows;
    var rest := rows - {one};
    if rest == {} {
      assert rows == {one};
      top := one;
    } else {
      var best := TopExists(rest);
      IdTotal(one.id, best.id);
      top := if Newer(one, best) then one else best;
      forall r | r in rows && r != top ensures Newer(top, r) {
        if top == one && r != best {
          NewerTransitive(one, best, r);
        } else if top == best && r == one {
          assert one != best && !Newer(one, best);
        }
      }
    }
  }

  /** The rows of a set, newest first. */
  ghost function Listing(rows: set<Row>): (l: seq<Row>)
    ensures forall r :: r in l <==> r in rows
    ensures Ordered(l)
    decreases |rows|
  {
    if rows == {} then []
    else
      assert exists t :: IsTop(rows, t) by { var t := TopExists(rows); }
      var top :| IsTop(rows, top);
      var rest := Listing(rows - {top});
      assert forall j :: 0 <= j < |rest| ==> rest[j] in rest && Newer(top, rest[j]);
      [top] + rest
  }

  /** There is only one listing of a set. */
  lemma {:induction false} ListingIsUnique(a: seq<Row>, b: seq<Row>)
    requires Ordered(a) && Ordered(b) && forall r :: r in a <==> r in b
    ensures a == b
    decreases |a|
  {
    if a == [] {
      FirstIsIn(b);
    } else {
      assert a[0] in b;
      assert b[0] in a;
      FirstsAgree(a, b);
      RestElements(a);
      RestElements(b);
      ListingIsUnique(a[1..], b[1..]);
      assert a == [a[0]] + a[1..] && b == [b[0]] + b[1..];
    }
  }

  lemma FirstIsIn(b: seq<Row>)
    ensures b == [] || b[0] in b
  {
  }

  lemma FirstsAgree(a: seq<Row>, b: seq<Row>)
    requires Ordered(a) && Ordered(b) && a != [] && b != [] && a[0] in b && b[0] in a
    ensures a[0] == b[0]
  {
    if a[0] != b[0] {
      assert Newer(a[0], b[0]) && Newer(b[0], a[0]);
      NewerTransitive(a[0], b[0], a[0]);
      NewerIrreflexive(a[0]);
    }
  }

  lemma RestElements(a: seq<Row>)
    requires Ordered(a) && a != []
    ensures Ordered(a[1..]) && forall r :: r in a[1..] <==> r in a && r != a[0]
  {
    NewerIrreflexive(a[0]);
    forall r | r in a && r != a[0] ensures r in a[1..] {
      var i :| 0 <= i < |a| && a[i] == r;
      assert a[1..][i - 1] == r;
    }
  }

  // ----------------------------------------------------------------- one request

  function RowsOf(db: Tables, chat: Jid, before: int): set<Row> {
    set x | x in db.messages && db.messages[x].chat == chat && (before <= 0 || db.messages[x].ts < before)
      :: Row(x, db.messages[x].ts)
  }

  function Take(l: seq<Row>, n: nat): seq<Row> { if n <= |l| then l[..n] else l }

  ghost function ListMessages(db: Tables, chat: Jid, limit: int, before: int): seq<Row> {
    Take(Listing(RowsOf(db, chat, before)), NormalizeLimit(limit))
  }

  /** `b` comes after `a` in the order of ids: at the first difference, or as the longer one. */
  lemma {:induction false} IdLessIff(a: Id, b: Id)
    ensures IdLess(a, b) <==> exists k :: IdsPart(a, b, k)
  {
    if b != [] && a != [] && a[0] == b[0] {
      IdLessIff(a[1..], b[1..]);
      forall k | IdsPart(a[1..], b[1..], k) ensures IdsPart(a, b, k + 1) {
        assert a[..k + 1] == [a[0]] + a[1..][..k] && b[..k + 1] == [b[0]] + b[1..][..k];
      }
      forall k | IdsPart(a, b, k) ensures IdsPart(a[1..], b[1..], k - 1) {
        assert k > 0 && a[1..][..k - 1] == a[..k][1..] && b[1..][..k - 1] == b[..k][1..];
      }
    } else if b != [] && (a == [] || a[0] < b[0]) {
      assert IdsPart(a, b, 0);
    } else if b != [] {
      forall k | 0 < k <= |a| && k < |b| ensures a[..k] != b[..k] {
        assert a[..k][0] == a[0] && b[..k][0] == b[0];
      }
    }
  }

  /** The ids agree up to `k`, where `a` ends or has the lower code point. */
  predicate IdsPart(a: Id, b: Id, k: int) {
    0 <= k <= |a| && k < |b| && a[..k] == b[..k] && (k == |a| || a[k] < b[k])
  }

  /** A row that the request asks for and the page does not show. */
  predicate LeftOut(m: Message, chat: Jid, before: int, x: Id, page: seq<Row>) {
    m.chat == chat && (before <= 0 || m.ts < before) && Row(x, m.ts) !in page
  }

  /** What one request answers: rows of the chat, older than a positive `before`, newest first and
      by falling id at the same time, at most the limit; a row left out belongs behind all of them,
      and then the page is full. */
  lemma PageIs(db: Tables, chat: Jid, limit: int, before: int)
    ensures var page := ListMessages(db, chat, limit, before);
      var most := if limit <= 0 then 100 else if limit > 1000 then 1000 else limit;
      && |page| <= most
      && (forall r :: r in page ==>
            r.id in db.messages && db.messages[r.id].chat == chat && db.messages[r.id].ts == r.ts && (before <= 0 || r.ts < before))
      && (forall i, j :: 0 <= i < j < |page| ==>
            page[i].ts > page[j].ts || (page[i].ts == page[j].ts && IdLess(page[j].id, page[i].id)))
      && (forall x :: x in db.messages && LeftOut(db.messages[x], chat, before, x, page) ==>
            |page| == most && forall i :: 0 <= i < |page| ==>
              page[i].ts > db.messages[x].ts || (page[i].ts == db.messages[x].ts && IdLess(x, page[i].id)))
  {
    var l := Listing(RowsOf(db, chat, before));
    var page := ListMessages(db, chat, limit, before);
    forall r | r in page ensures r in RowsOf(db, chat, before) {
      assert r in l;
    }
    forall x | x in db.messages && LeftOut(db.messages[x], chat, before, x, page)
      ensures page != l && forall i :: 0 <= i < |page| ==> Newer(page[i], Row(x, db.messages[x].ts))
    {
      assert Row(x, db.messages[x].ts) in l;
      var k :| 0 <= k < |l| && l[k] == Row(x, db.messages[x].ts);
      assert forall i :: 0 <= i < |page| ==> page[i] == l[i] && page[i] in page;
    }
  }

  /** The rest of a listing from the first row older than `before`. */
  function Older(l: seq<Row>, before: int): (rest: seq<Row>)
    ensures |rest| <= |l|
  {
    if l == [] || l[0].ts < before then l else Older(l[1..], before)
  }

  /** In an ordered listing that rest is exactly the rows older than `before`. */
  lemma {:induction false} OlderRows(l: seq<Row>, before: int)
    requires Ordered(l)
    ensures Ordered(Older(l, before))
    ensures forall r :: r in Older(l, before) <==> r in l && r.ts < before
  {
    if l != [] {
      assert forall k :: 0 <= k < |l| ==> l[k].ts <= l[0].ts;
      if l[0].ts >= before {
        RestElements(l);
        OlderRows(l[1..], before);
      }
    }
  }

  lemma BoundedRows(db: Tables, chat: Jid, before: int, r: Row)
    requires before > 0
    ensures r in RowsOf(db, chat, before) <==> r in RowsOf(db, chat, 0) && r.ts < before
  {
  }

  /** A request with a positive `before` lists the tail of the whole listing. */
  lemma ListingBefore(db: Tables, chat: Jid, before: int)
    requires before > 0
    ensures Listing(RowsOf(db, chat, before)) == Older(Listing(RowsOf(db, chat, 0)), before)
  {
    var all := Listing(RowsOf(db, chat, 0));
    OlderRows(all, before);
    forall r ensures r in Older(all, before) <==> r in Listing(RowsOf(db, chat, before)) {
      BoundedRows(db, chat, before, r);
    }
    ListingIsUnique(Listing(RowsOf(db, chat, before)), Older(all, before));
  }

  // ------------------------------------------------------------ following the pages

  /** All pages after each other, as the rows of a listing `l` with `n` per page. */
  function Pages(l: seq<Row>, n: nat): seq<Row>
    requires n > 0
    decreases |l|
  {
    if |l| <= n then l else l[..n] + Pages(Older(l[n..], l[n - 1].ts), n)
  }

  /** Every row of the chat has a positive timestamp: `before` then bounds each request. */
  predicate PositiveTimes(db: Tables, chat: Jid) {
    forall x :: x in db.messages && db.messages[x].chat == chat ==> db.messages[x].ts > 0
  }

  lemma {:induction false} OlderSkips(l: seq<Row>, n: nat)
    requires Ordered(l) && 0 < n <= |l|
    ensures Older(l, l[n - 1].ts) == Older(l[n..], l[n - 1].ts)
  {
    if n == 1 {
      assert Older(l, l[0].ts) == Older(l[1..], l[0].ts);
    } else {
      assert l[0].ts >= l[n - 1].ts;
      assert l[1..][n - 1..] == l[n..];
      OlderSkips(l[1..], n - 1);
    }
  }

  lemma {:induction false} OlderTwice(l: seq<Row>, later: int, earlier: int)
    requires Ordered(l) && earlier <= later
    ensures Older(Older(l, later), earlier) == Older(l, earlier)
  {
    if l != [] && l[0].ts >= later {
      OlderTwice(l[1..], later, earlier);
    }
  }

  /** The oldest timestamp of the first `n` rows, which the client asks from next. */
  lemma NextListing(db: Tables, chat: Jid, before: int, n: nat)
    requires 0 < n <= |Listing(RowsOf(db, chat, before))| && Listing(RowsOf(db, chat, before))[n - 1].ts > 0
    ensures var l := Listing(RowsOf(db, chat, before));
      Listing(RowsOf(db, chat, l[n - 1].ts)) == Older(l[n..], l[n - 1].ts)
  {
    var l := Listing(RowsOf(db, chat, before));
    var ts := l[n - 1].ts;
    assert l[n - 1] in RowsOf(db, chat, before);
    ListingBefore(db, chat, ts);
    OlderSkips(l, n);
    if before > 0 {
      ListingBefore(db, chat, before);
      OlderTwice(Listing(RowsOf(db, chat, 0)), before, ts);
    } else {
      assert RowsOf(db, chat, before) == RowsOf(db, chat, 0);
    }
  }

  function Oldest(page: seq<Row>): int
    requires page != []
  {
    page[|page| - 1].ts
  }

  lemma NextPages(db: Tables, chat: Jid, limit: int, before: int)
    requires var page := ListMessages(db, chat, limit, before); page != [] && Oldest(page) > 0
    ensures var l, page := Listing(RowsOf(db, chat, before)), ListMessages(db, chat, limit, before);
      |page| <= |l| && Listing(RowsOf(db, chat, Oldest(page))) == Older(l[|page|..], Oldest(page))
  {
    NextListing(db, chat, before, |ListMessages(db, chat, limit, before)|);
  }

  lemma NextIsShorter(db: Tables, chat: Jid, limit: int, before: int)
    requires PositiveTimes(db, chat) && ListMessages(db, chat, limit, before) != []
    ensures var l, page := Listing(RowsOf(db, chat, before)), ListMessages(db, chat, limit, before);
      && |page| <= |l| && Listing(RowsOf(db, chat, Oldest(page))) == Older(l[|page|..], Oldest(page))
      && |Listing(RowsOf(db, chat, Oldest(page)))| < |l|
  {
    var l, page := Listing(RowsOf(db, chat, before)), ListMessages(db, chat, limit, before);
    assert page[|page| - 1] == l[|page| - 1] && l[|page| - 1] in RowsOf(db, chat, before);
    NextPages(db, chat, limit, before);
  }

  /** What a client collects that starts at `before` and goes on until a page is empty. */
  ghost function AllPages(db: Tables, chat: Jid, limit: int, before: int): seq<Row>
    requires PositiveTimes(db, chat)
    decreases |Listing(RowsOf(db, chat, before))|
  {
    var page := ListMessages(db, chat, limit, before);
    if page == [] then []
    else
      NextIsShorter(db, chat, limit, before);
      page + AllPages(db, chat, limit, Oldest(page))
  }

  lemma PagesOfAll(l: seq<Row>, n: nat)
    requires n > 0 && l != []
    ensures var page := Take(l, n); Pages(l, n) == page + Pages(Older(l[|page|..], Oldest(page)), n)
  {
    if |l| <= n {
      assert l[|l|..] == [];
    }
  }

  /** The client's pages are those of the listing it starts with. */
  lemma {:induction false} AllPagesArePages(db: Tables, chat: Jid, limit: int, before: int)
    requires PositiveTimes(db, chat)
    ensures AllPages(db, chat, limit, before) == Pages(Listing(RowsOf(db, chat, before)), NormalizeLimit(limit))
    decreases |Listing(RowsOf(db, chat, before))|
  {
    var page := ListMessages(db, chat, limit, before);
    if page != [] {
      NextIsShorter(db, chat, limit, before);
      AllPagesArePages(db, chat, limit, Oldest(page));
      PagesOfAll(Listing(RowsOf(db, chat, before)), NormalizeLimit(limit));
    }
  }

  // ---------------------------------------------------------------- no repetition

  lemma Tail(l: seq<Row>, n: nat)
    requires Ordered(l) && n <= |l|
    ensures Ordered(l[..n]) && Ordered(l[n..])
    ensures forall r :: r in l <==> r in l[..n] || r in l[n..]
  {
    assert l == l[..n] + l[n..];
  }

  lemma OrderedJoin(a: seq<Row>, b: seq<Row>)
    requires Ordered(a) && Ordered(b) && a != []
    requires forall r :: r in b ==> r.ts < Oldest(a)
    ensures Ordered(a + b)
  {
    forall i, k | 0 <= i < |a| && 0 <= k < |b| ensures Newer(a[i], b[k]) {
      assert b[k] in b;
      assert a[i].ts >= Oldest(a);
    }
  }

  /** No row comes twice, and the pages come newest first. */
  lemma {:induction false} PagesAreOrdered(l: seq<Row>, n: nat)
    requires Ordered(l) && n > 0
    ensures Ordered(Pages(l, n)) && forall r :: r in Pages(l, n) ==> r in l
    decreases |l|
  {
    if |l| > n {
      var rest := Older(l[n..], l[n - 1].ts);
      Tail(l, n);
      OlderRows(l[n..], l[n - 1].ts);
      PagesAreOrdered(rest, n);
      OrderedJoin(l[..n], Pages(rest, n));
    }
  }

  /** A row that no page shows has the timestamp of one that a page shows. */
  lemma {:induction false} SkippedRowsAreTied(l: seq<Row>, n: nat, r: Row) returns (shown: Row)
    requires Ordered(l) && n > 0 && r in l && r !in Pages(l, n)
    ensures shown in Pages(l, n) && shown.ts == r.ts
    decreases |l|
  {
    var oldest := l[n - 1];
    var rest := Older(l[n..], oldest.ts);
    Tail(l, n);
    OlderRows(l[n..], oldest.ts);
    assert r in l[n..] && l[..n][n - 1] == oldest;
    if r.ts < oldest.ts {
      shown := SkippedRowsAreTied(rest, n, r);
    } else {
      var i :| 0 <= i < |l[n..]| && l[n..][i] == r;
      assert Newer(l[n - 1], l[n + i]);
      shown := oldest;
    }
  }

  // ------------------------------------------------------------------- completeness

  /** No page ends between two rows with the same timestamp. */
  predicate NoTieAtPageEnds(l: seq<Row>, n: nat)
    requires n > 0
    decreases |l|
  {
    |l| > n ==> l[n - 1].ts != l[n].ts && NoTieAtPageEnds(l[n..], n)
  }

  lemma {:induction false} PagesAreNoLonger(l: seq<Row>, n: nat)
    requires n > 0
    ensures |Pages(l, n)| <= |l|
    decreases |l|
  {
    if |l| > n {
      PagesAreNoLonger(Older(l[n..], l[n - 1].ts), n);
    }
  }

  lemma TiedPageEndLoses(l: seq<Row>, n: nat)
    requires n > 0 && |l| > n && l[n - 1].ts == l[n].ts
    ensures |Pages(l, n)| < |l|
  {
    var rest := Older(l[n..], l[n - 1].ts);
    assert rest == Older(l[n..][1..], l[n - 1].ts);
    PagesAreNoLonger(rest, n);
  }

  lemma {:induction false} PagesAreCompleteIff(l: seq<Row>, n: nat)
    requires Ordered(l) && n > 0
    ensures Pages(l, n) == l <==> NoTieAtPageEnds(l, n)
    decreases |l|
  {
    if |l| > n {
      if l[n - 1].ts == l[n].ts {
        TiedPageEndLoses(l, n);
      } else {
        assert Newer(l[n - 1], l[n]);
        assert Older(l[n..], l[n - 1].ts) == l[n..];
        Tail(l, n);
        PagesAreCompleteIff(l[n..], n);
        assert l == l[..n] + l[n..];
        assert Pages(l, n)[n..] == Pages(l[n..], n);
      }
    }
  }

  /** Paging returns the whole chat, newest first, iff no page ends inside a tie. */
  lemma PagingIsCompleteIff(db: Tables, chat: Jid, limit: int)
    requires PositiveTimes(db, chat)
    ensures var all := Listing(RowsOf(db, chat, 0));
      AllPages(db, chat, limit, 0) == all <==> NoTieAtPageEnds(all, NormalizeLimit(limit))
  {
    AllPagesArePages(db, chat, limit, 0);
    PagesAreCompleteIff(Listing(RowsOf(db, chat, 0)), NormalizeLimit(limit));
  }

  predicate DistinctTimes(l: seq<Row>) { forall i, j :: 0 <= i < j < |l| ==> l[i].ts != l[j].ts }

  lemma {:induction false} DistinctTimesHaveNoTies(l: seq<Row>, n: nat)
    requires DistinctTimes(l) && n > 0
    ensures NoTieAtPageEnds(l, n)
    decreases |l|
  {
    if |l| > n {
      DistinctTimesHaveNoTies(l[n..], n);
    }
  }

  /** With pairwise distinct timestamps it is complete for every limit. */
  lemma PagingIsComplete(db: Tables, chat: Jid, limit: int)
    requires PositiveTimes(db, chat) && DistinctTimes(Listing(RowsOf(db, chat, 0)))
    ensures AllPages(db, chat, limit, 0) == Listing(RowsOf(db, chat, 0))
  {
    DistinctTimesHaveNoTies(Listing(RowsOf(db, chat, 0)), NormalizeLimit(limit));
    PagingIsCompleteIff(db, chat, limit);
  }

  /** Paging ends, never repeats a row, and only skips rows tied with one it shows. */
  lemma PagingNeverRepeats(db: Tables, chat: Jid, limit: int)
    requires PositiveTimes(db, chat)
    ensures var shown := AllPages(db, chat, limit, 0);
      && Ordered(shown) && (forall r :: r in shown ==> r in RowsOf(db, chat, 0))
      && (forall r :: r in RowsOf(db, chat, 0) && r !in shown ==> exists s :: s in shown && s.ts == r.ts)
  {
    var all, n := Listing(RowsOf(db, chat, 0)), NormalizeLimit(limit);
    AllPagesArePages(db, chat, limit, 0);
    PagesAreOrdered(all, n);
    forall r | r in RowsOf(db, chat, 0) && r !in Pages(all, n) ensures exists s :: s in Pages(all, n) && s.ts == r.ts {
      var s := SkippedRowsAreTied(all, n, r);
    }
  }

  /** Without positive times the next request is unbounded again and the client starts over. */
  lemma NonPositiveTimesRestart(db: Tables, chat: Jid, limit: int, before: int)
    requires before <= 0
    ensures ListMessages(db, chat, limit, before) == ListMessages(db, chat, limit, 0)
  {
    assert RowsOf(db, chat, before) == RowsOf(db, chat, 0);
  }

  // ------------------------------------------------------------ when the client gets done

  /** The client gets an empty page after at most `k` others. */
  ghost predicate EndsIn(db: Tables, chat: Jid, limit: int, before: int, k: nat)
    decreases k
  {
    var page := ListMessages(db, chat, limit, before);
    page == [] || (k > 0 && EndsIn(db, chat, limit, Oldest(page), k - 1))
  }

  /** Every page of the listing ends at a positive time. */
  predicate EndsPositive(l: seq<Row>, n: nat)
    requires n > 0
    decreases |l|
  {
    l != [] ==>
      var page := Take(l, n);
      Oldest(page) > 0 && EndsPositive(Older(l[|page|..], Oldest(page)), n)
  }

  lemma {:induction false} PositiveEnds(db: Tables, chat: Jid, limit: int, before: int) returns (k: nat)
    requires EndsPositive(Listing(RowsOf(db, chat, before)), NormalizeLimit(limit))
    ensures EndsIn(db, chat, limit, before, k)
    decreases |Listing(RowsOf(db, chat, before))|
  {
    var page := ListMessages(db, chat, limit, before);
    k := 0;
    if page != [] {
      NextPages(db, chat, limit, before);
      k := PositiveEnds(db, chat, limit, Oldest(page));
      k := k + 1;
    }
  }

  /** From a page that leads to an end that is not positive, the client never gets done. */
  lemma {:induction false} NeverDone(db: Tables, chat: Jid, limit: int, before: int, k: nat)
    requires !EndsPositive(Listing(RowsOf(db, chat, 0)), NormalizeLimit(limit))
    requires !EndsPositive(Listing(RowsOf(db, chat, before)), NormalizeLimit(limit))
    ensures !EndsIn(db, chat, limit, before, k)
    decreases k
  {
    var page := ListMessages(db, chat, limit, before);
    if k > 0 {
      if Oldest(page) > 0 {
        NextPages(db, chat, limit, before);
      } else {
        assert RowsOf(db, chat, Oldest(page)) == RowsOf(db, chat, 0);
      }
      NeverDone(db, chat, limit, Oldest(page), k - 1);
    }
  }

  ghost predicate GetsDone(db: Tables, chat: Jid, limit: int, before: int) {
    exists k: nat :: EndsIn(db, chat, limit, before, k)
  }

  lemma DoneFrom(db: Tables, chat: Jid, limit: int, before: int)
    requires EndsPositive(Listing(RowsOf(db, chat, before)), NormalizeLimit(limit))
    ensures GetsDone(db, chat, limit, before)
  {
    var k := PositiveEnds(db, chat, limit, before);
  }

  /** Whatever the times are: the client gets done iff every page ends at a positive one. */
  lemma PagingEndsIff(db: Tables, chat: Jid, limit: int)
    ensures GetsDone(db, chat, limit, 0) <==> EndsPositive(Listing(RowsOf(db, chat, 0)), NormalizeLimit(limit))
  {
    if EndsPositive(Listing(RowsOf(db, chat, 0)), NormalizeLimit(limit)) {
      DoneFrom(db, chat, limit, 0);
    } else {
      forall k: nat ensures !EndsIn(db, chat, limit, 0, k) {
        NeverDone(db, chat, limit, 0, k);
      }
    }
  }

  // ------------------------------------------------------------- chats that do not page well

  function SampleRow(chat: Jid, ts: int): Message { Message(chat, "s", false, ts, "text", None, "", false, false, "", false) }

  lemma RowIsListed(db: Tables, chat: Jid, x: Id)
    requires x in db.messages && db.messages[x].chat == chat
    ensures Row(x, db.messages[x].ts) in Listing(RowsOf(db, chat, 0))
  {
    assert Row(x, db.messages[x].ts) in RowsOf(db, chat, 0);
  }

  /** Two messages of one time, read one by one: the second is never shown. */
  lemma TiedRowsAreSkipped(chat: Jid) returns (db: Tables)
    ensures PositiveTimes(db, chat) && AllPages(db, chat, 1, 0) != Listing(RowsOf(db, chat, 0))
  {
    db := EMPTY.(messages := map["a" := SampleRow(chat, 5), "b" := SampleRow(chat, 5)]);
    var all := Listing(RowsOf(db, chat, 0));
    RowIsListed(db, chat, "a");
    RowIsListed(db, chat, "b");
    assert Row("a", 5) in all && Row("b", 5) in all && "a" != "b";
    TiedPair(all);
    PagingIsCompleteIff(db, chat, 1);
  }

  lemma TiedPair(l: seq<Row>)
    requires Row("a", 5) in l && Row("b", 5) in l && forall r :: r in l ==> r.ts == 5
    ensures !NoTieAtPageEnds(l, 1)
  {
    assert Row("a", 5) != Row("b", 5);
    assert |l| > 1;
    assert l[0] in l && l[1] in l;
  }

  /** A message of time 0: the client asks for the first page again and again. */
  lemma ZeroTimeNeverEnds(chat: Jid, limit: int) returns (db: Tables)
    ensures !GetsDone(db, chat, limit, 0)
  {
    db := EMPTY.(messages := map["a" := SampleRow(chat, 0)]);
    var all := Listing(RowsOf(db, chat, 0));
    RowIsListed(db, chat, "a");
    assert all != [];
    var page := Take(all, NormalizeLimit(limit));
    assert page[|page| - 1] == all[|page| - 1];
    assert all[|page| - 1] in all;
    PagingEndsIff(db, chat, limit);
  }
}
