/**
 The entries of a QML list body: its tokens, split at the commas outside all
 brackets. A trailing comma adds no entry.
 */
module QmlLists {
  import opened Lexer
  import opened QmlTokens

  predicate IsOpener(t: Tok) { t.code && (t.c == '[' || t.c == '{' || t.c == '(') }
  predicate IsCloser(t: Tok) { t.code && (t.c == ']' || t.c == '}' || t.c == ')') }
  predicate IsComma(t: Tok) { t == Tok(',', true) }

  function NestNext(n: nat, t: Tok): nat {
    if IsOpener(t) then n + 1 else if IsCloser(t) && n > 0 then n - 1 else n
  }

  function Nest(n: nat, ts: seq<Tok>): nat
    decreases |ts|
  {
    if ts == [] then n else NestNext(Nest(n, ts[..|ts| - 1]), ts[|ts| - 1])
  }

  datatype Split = Split(nest: nat, complete: seq<seq<Tok>>, current: seq<Tok>)

  const NOTHING := Split(0, [], [])

  function SplitNext(p: Split, t: Tok): Split {
    if IsComma(t) && p.nest == 0 then Split(0, p.complete + [p.current], [])
    else Split(NestNext(p.nest, t), p.complete, p.current + [t])
  }

  function SplitAll(p: Split, ts: seq<Tok>): Split
    decreases |ts|
  {
    if ts == [] then p else SplitNext(SplitAll(p, ts[..|ts| - 1]), ts[|ts| - 1])
  }

  lemma {:induction false} SplitSum(p: Split, a: seq<Tok>, b: seq<Tok>)
    ensures SplitAll(p, a + b) == SplitAll(SplitAll(p, a), b)
    decreases |b|
  {
    if b == [] {
      assert a + b == a;
    } else {
      assert (a + b)[..|a + b| - 1] == a + b[..|b| - 1];
      SplitSum(p, a, b[..|b| - 1]);
    }
  }

  function Done(p: Split): seq<seq<Tok>> { p.complete + if p.current == [] then [] else [p.current] }

  function Entries(ts: seq<Tok>): seq<seq<Tok>> { Done(SplitAll(NOTHING, ts)) }

  lemma {:induction false} SplitNest(p: Split, ts: seq<Tok>)
    ensures SplitAll(p, ts).nest == Nest(p.nest, ts)
    decreases |ts|
  {
    if ts != [] {
      SplitNest(p, ts[..|ts| - 1]);
    }
  }

  /** No comma of `ts` is outside all brackets, when `n` are open before it. */
  predicate NoBreak(n: nat, ts: seq<Tok>)
    decreases |ts|
  {
    ts != [] ==>
      NoBreak(n, ts[..|ts| - 1]) && !(IsComma(ts[|ts| - 1]) && Nest(n, ts[..|ts| - 1]) == 0)
  }

  lemma {:induction false} UnbrokenStays(p: Split, ts: seq<Tok>)
    requires NoBreak(p.nest, ts)
    ensures SplitAll(p, ts) == Split(Nest(p.nest, ts), p.complete, p.current + ts)
    decreases |ts|
  {
    if ts != [] {
      UnbrokenStays(p, ts[..|ts| - 1]);
      assert p.current + ts == p.current + ts[..|ts| - 1] + [ts[|ts| - 1]];
    } else {
      assert p.current + ts == p.current;
    }
  }

  /** The tokens of exactly one entry. */
  predicate IsEntry(e: seq<Tok>) { e != [] && NoBreak(0, e) && Nest(0, e) == 0 }

  /** A comma between brackets of any of the three kinds divides no entry. */
  lemma BracketedIsEntry(o: char, ts: seq<Tok>, cl: char)
    requires (o == '[' && cl == ']') || (o == '{' && cl == '}') || (o == '(' && cl == ')')
    requires forall t :: t in ts && t.code ==> t.c !in "[]{}()"
    ensures IsEntry([Tok(o, true)] + ts + [Tok(cl, true)])
  {
    NestStays(o, ts);
    var e := [Tok(o, true)] + ts + [Tok(cl, true)];
    assert e[..|e| - 1] == [Tok(o, true)] + ts;
  }

  lemma {:induction false} NestStays(o: char, ts: seq<Tok>)
    requires (o == '[' || o == '{' || o == '(') && forall t :: t in ts && t.code ==> t.c !in "[]{}()"
    ensures Nest(0, [Tok(o, true)] + ts) == 1 && NoBreak(0, [Tok(o, true)] + ts)
    decreases |ts|
  {
    var e := [Tok(o, true)] + ts;
    if ts == [] {
      assert e[..0] == [];
    } else {
      assert e[..|e| - 1] == [Tok(o, true)] + ts[..|ts| - 1];
      assert ts[|ts| - 1] in ts;
      NestStays(o, ts[..|ts| - 1]);
    }
  }

  lemma EntryJoins(p: Split, e: seq<Tok>)
    requires IsEntry(e) && p.nest == 0
    ensures Done(SplitAll(p, e)) == p.complete + [p.current + e]
  {
    UnbrokenStays(p, e);
  }

  /** What insert_entry does to the tokens of a list body that ends in code. */
  function Appended(ts: seq<Tok>, e: seq<Tok>): seq<Tok>
    requires ts != []
  {
    (if IsComma(ts[|ts| - 1]) then ts else ts + [Tok(',', true)]) + e
  }

  lemma LastComma(ts: seq<Tok>)
    requires Nest(0, ts) == 0 && EndsInCode(ts)
    ensures (SplitAll(NOTHING, ts).current == []) <==> IsComma(ts[|ts| - 1])
  {
    SplitNest(NOTHING, ts);
    SplitNest(NOTHING, ts[..|ts| - 1]);
  }

  lemma AppendAfterCode(ts: seq<Tok>, e: seq<Tok>)
    requires Nest(0, ts) == 0 && EndsInCode(ts) && IsEntry(e)
    ensures Entries(Appended(ts, e)) == Entries(ts) + [e]
  {
    var p := SplitAll(NOTHING, ts);
    SplitNest(NOTHING, ts);
    LastComma(ts);
    if IsComma(ts[|ts| - 1]) {
      SplitSum(NOTHING, ts, e);
      EntryJoins(p, e);
      assert p.current + e == e;
    } else {
      var comma := [Tok(',', true)];
      assert (ts + comma)[..|ts|] == ts;
      var q := SplitAll(NOTHING, ts + comma);
      assert q == SplitNext(p, Tok(',', true));
      SplitSum(NOTHING, ts + comma, e);
      EntryJoins(q, e);
      assert q.current + e == e;
    }
  }

  /** A string token more changes neither the nesting nor the number of entries. */
  lemma {:induction false} StringTokenCounts(p: Split, c: char, b: seq<Tok>)
    ensures SplitAll(p, [Tok(c, false)] + b).nest == SplitAll(p, b).nest
    ensures |SplitAll(p, [Tok(c, false)] + b).complete| == |SplitAll(p, b).complete|
    decreases |b|
  {
    var t := [Tok(c, false)];
    if b == [] {
      assert t + b == t && t[..0] == [];
    } else {
      assert (t + b)[..|t + b| - 1] == t + b[..|b| - 1];
      StringTokenCounts(p, c, b[..|b| - 1]);
    }
  }

  /** After a list that ends in a string no comma goes between: the entry joins the last one. */
  lemma AppendAfterString(a: seq<Tok>, b: seq<Tok>, e: seq<Tok>)
    requires Nest(0, a + b) == 0 && EndsInString(a + b) && IsEntry(e)
    ensures |Entries(a + ([Tok(',', false)] + b) + e)| == |Entries(a + b)|
  {
    var p := SplitAll(NOTHING, a);
    var t := [Tok(',', false)];
    SplitNest(NOTHING, a + b);
    SplitSum(NOTHING, a, b);
    CurrentIsNonempty(a + b);
    SplitTwice(a, t + b, e);
    StringTokenCounts(p, ',', b);
    EntryJoins(SplitAll(p, t + b), e);
  }

  lemma CurrentIsNonempty(ts: seq<Tok>)
    requires EndsInString(ts)
    ensures SplitAll(NOTHING, ts).current != []
  {
  }

  lemma SplitTwice(a: seq<Tok>, b: seq<Tok>, c: seq<Tok>)
    ensures SplitAll(NOTHING, a + b + c) == SplitAll(SplitAll(SplitAll(NOTHING, a), b), c)
  {
    SplitSum(NOTHING, a, b);
    SplitSum(NOTHING, a + b, c);
  }

  lemma AppendWithoutComma(ts: seq<Tok>, e: seq<Tok>)
    requires Nest(0, ts) == 0 && EndsInString(ts) && IsEntry(e)
    ensures |Entries(ts + e)| == |Entries(ts)|
  {
    SplitNest(NOTHING, ts);
    SplitSum(NOTHING, ts, e);
    EntryJoins(SplitAll(NOTHING, ts), e);
    CurrentIsNonempty(ts);
  }

  /** In an empty list the comma comes before the entry and leaves an empty one. */
  lemma AppendToNothing(e: seq<Tok>)
    requires IsEntry(e)
    ensures Entries([Tok(',', true)] + e) == [[], e]
  {
    var comma := [Tok(',', true)];
    assert comma[..0] == [];
    SplitSum(NOTHING, comma, e);
    EntryJoins(SplitAll(NOTHING, comma), e);
    assert [] + e == e;
  }

  /** A comma between `a` and `b`, or none, then an entry: the entries become the old ones and
      the new one exactly when the list ended in code. */
  lemma AppendIff(a: seq<Tok>, x: seq<Tok>, b: seq<Tok>, e: seq<Tok>)
    requires Nest(0, a + b) == 0 && IsEntry(e)
    requires x == [] || x == [Tok(',', true)] || x == [Tok(',', false)]
    requires EndsInCode(a + b) ==> b == [] && x == if IsComma((a + b)[|a + b| - 1]) then [] else [Tok(',', true)]
    requires EndsInString(a + b) ==> x != [Tok(',', true)]
    requires a + b == [] ==> x == [Tok(',', true)]
    ensures Entries(a + (x + b) + e) == Entries(a + b) + [e] <==> EndsInCode(a + b)
  {
    if EndsInCode(a + b) {
      assert a + b == a;
      AppendIsAppended(a, x, b, e);
      AppendAfterCode(a, e);
    } else if a + b == [] {
      AppendToEmpty(a, x, b, e);
    } else if x == [] {
      assert x + b == b;
      AppendWithoutComma(a + b, e);
    } else {
      AppendAfterString(a, b, e);
    }
  }

  lemma AppendIsAppended(a: seq<Tok>, x: seq<Tok>, b: seq<Tok>, e: seq<Tok>)
    requires a != [] && b == [] && x == if IsComma(a[|a| - 1]) then [] else [Tok(',', true)]
    ensures a + (x + b) + e == Appended(a, e)
  {
    assert x + b == x && a + [] == a;
  }

  lemma AppendToEmpty(a: seq<Tok>, x: seq<Tok>, b: seq<Tok>, e: seq<Tok>)
    requires a + b == [] && x == [Tok(',', true)] && IsEntry(e)
    ensures Entries(a + (x + b) + e) != Entries(a + b) + [e]
  {
    assert |a| == 0 && |b| == 0 && a + (x + b) == x;
    AppendToNothing(e);
    assert Entries([]) == [];
  }

  // ------------------------------------------------------------------------ objects

  lemma {:induction false} BraceCountsShift(b: Braces, more: nat, ts: seq<Tok>)
    ensures var r := BraceToks(b, ts);
      BraceToks(Braces(b.nest, b.objects + more), ts) == Braces(r.nest, r.objects + more)
    decreases |ts|
  {
    if ts != [] {
      BraceCountsShift(b, more, ts[..|ts| - 1]);
    }
  }

  /** `x`, a comma or nothing, and an entry of one object more. */
  lemma ObjectsGrow(a: seq<Tok>, x: seq<Tok>, b: seq<Tok>, e: seq<Tok>)
    requires x == [] || (|x| == 1 && x[0].c == ',')
    requires BraceToks(Braces(0, 0), a + b).nest == 0 && BraceToks(Braces(0, 0), e) == Braces(0, 1)
    ensures BraceToks(Braces(0, 0), a + (x + b) + e).objects == BraceToks(Braces(0, 0), a + b).objects + 1
  {
    var zero := Braces(0, 0);
    var after := BraceToks(zero, a);
    BraceToksSum(zero, a, b);
    BraceToksSum(zero, a, x + b);
    BraceToksSum(after, x, b);
    BraceToksSum(zero, a + (x + b), e);
    assert BraceToks(after, x) == after by {
      if x != [] {
        assert x[..0] == [];
      }
    }
    BraceCountsShift(zero, BraceToks(zero, a + b).objects, e);
  }

  // ----------------------------------------------------------------- square brackets

  /** With one '[' open before `ts`, it stays open all along. */
  predicate StaysOpen(ts: seq<Tok>) { OpenFrom(0, ts) }

  /** With `d` more of them open, they stay open. */
  predicate OpenFrom(d: int, ts: seq<Tok>)
    decreases |ts|
  {
    ts != [] ==> OpenFrom(d, ts[..|ts| - 1]) && d + Squares(ts) >= 0
  }

  predicate NoSquares(ts: seq<Tok>) { forall t :: t in ts ==> SquareOf(t) == 0 }

  lemma {:induction false} NoSquaresIsZero(ts: seq<Tok>)
    requires NoSquares(ts)
    ensures Squares(ts) == 0
    decreases |ts|
  {
    if ts != [] {
      NoSquaresIsZero(ts[..|ts| - 1]);
    }
  }

  lemma {:induction false} OpenSum(d: int, a: seq<Tok>, b: seq<Tok>)
    ensures OpenFrom(d, a + b) <==> OpenFrom(d, a) && OpenFrom(d + Squares(a), b)
    decreases |b|
  {
    if b == [] {
      assert a + b == a;
    } else {
      assert (a + b)[..|a + b| - 1] == a + b[..|b| - 1];
      OpenSum(d, a, b[..|b| - 1]);
      SquaresSum(a, b);
    }
  }

  lemma {:induction false} NoSquaresIsOpen(d: int, ts: seq<Tok>)
    requires NoSquares(ts) && d >= 0
    ensures OpenFrom(d, ts)
    decreases |ts|
  {
    NoSquaresIsZero(ts);
    if ts != [] {
      NoSquaresIsOpen(d, ts[..|ts| - 1]);
    }
  }

  /** Tokens that are no square brackets may go in anywhere. */
  lemma InsertKeepsOpen(a: seq<Tok>, x: seq<Tok>, b: seq<Tok>)
    requires StaysOpen(a + b) && NoSquares(x)
    ensures StaysOpen(a + (x + b)) && Squares(a + (x + b)) == Squares(a + b)
  {
    NoSquaresIsZero(x);
    SquaresSum(a, x + b);
    SquaresSum(x, b);
    SquaresSum(a, b);
    OpenSum(0, a, b);
    OpenSum(0, a, x + b);
    OpenSum(Squares(a), x, b);
    OpenEnds(0, a);
    NoSquaresIsOpen(Squares(a), x);
  }

  lemma OpenEnds(d: int, ts: seq<Tok>)
    requires OpenFrom(d, ts) && d >= 0
    ensures d + Squares(ts) >= 0
  {
  }

  lemma PrefixIsOpen(d: int, ts: seq<Tok>, i: nat)
    requires OpenFrom(d, ts) && i <= |ts| && d >= 0
    ensures OpenFrom(d, ts[..i]) && d + Squares(ts[..i]) >= 0
  {
    assert ts == ts[..i] + ts[i..];
    OpenSum(d, ts[..i], ts[i..]);
    OpenEnds(d, ts[..i]);
  }
}
