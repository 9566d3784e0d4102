/**
 Contact search: user text is escaped and wrapped in `%` before it reaches SQL's
 LIKE with ESCAPE '\'. `Like` is the matcher, `EscapeLike` the escaping loop.
 */
module LikeEscape {
  import opened Wrappers

  /** LIKE folds the case of ASCII letters only. */
  function Fold(c: char): char {
    if 'A' <= c <= 'Z' then (c as int + 32) as char else c
  }

  predicate FoldEq(s: string, t: string) {
    |s| == |t| && forall i :: 0 <= i < |s| ==> Fold(s[i]) == Fold(t[i])
  }

  /** Two texts are the same up to case when they differ at most in the case of ASCII letters. */
  lemma SameUpToAsciiCase(s: string, t: string)
    ensures FoldEq(s, t) <==> |s| == |t| && forall i :: 0 <= i < |s| ==>
      || s[i] == t[i]
      || ('A' <= s[i] <= 'Z' && t[i] as int == s[i] as int + 32)
      || ('A' <= t[i] <= 'Z' && s[i] as int == t[i] as int + 32)
  {
    if |s| == |t| {
      forall i | 0 <= i < |s| ensures Fold(s[i]) == Fold(t[i]) <==>
        || s[i] == t[i]
        || ('A' <= s[i] <= 'Z' && t[i] as int == s[i] as int + 32)
        || ('A' <= t[i] <= 'Z' && s[i] as int == t[i] as int + 32)
      {
      }
    }
  }

  /** `s LIKE pattern ESCAPE '\'`. A dangling escape matches nothing. */
  predicate Like(pattern: string, s: string)
    decreases |pattern|, |s|
  {
    if pattern == [] then s == []
    else if pattern[0] == '%' then Like(pattern[1..], s) || (s != [] && Like(pattern, s[1..]))
    else if pattern[0] == '\\' then
      |pattern| >= 2 && s != [] && Fold(pattern[1]) == Fold(s[0]) && Like(pattern[2..], s[1..])
    else
      s != [] && (pattern[0] == '_' || Fold(pattern[0]) == Fold(s[0])) && Like(pattern[1..], s[1..])
  }

  predicate Special(c: char) { c == '\\' || c == '%' || c == '_' }

  function Escape(s: string): string {
    if s == [] then []
    else Escape(s[..|s| - 1]) + (if Special(s[|s| - 1]) then ['\\'] else []) + [s[|s| - 1]]
  }

  /** The escaping loop, with its shortcut for text without metacharacters. */
  method EscapeLike(s: string) returns (r: string)
    ensures r == Escape(s)
  {
    if forall i :: 0 <= i < |s| ==> !Special(s[i]) {
      PlainTextIsUnchanged(s);
      return s;
    }
    r := [];
    for i := 0 to |s|
      invariant r == Escape(s[..i])
    {
      assert s[..i + 1][..i] == s[..i];
      if Special(s[i]) {
        r := r + ['\\'];
      }
      r := r + [s[i]];
    }
    assert s[..|s|] == s;
  }

  lemma {:induction false} PlainTextIsUnchanged(s: string)
    requires forall i :: 0 <= i < |s| ==> !Special(s[i])
    ensures Escape(s) == s
  {
    if s != [] {
      PlainTextIsUnchanged(s[..|s| - 1]);
    }
  }

  lemma {:induction false} EscapeFromTheFront(s: string)
    requires s != []
    ensures Escape(s) == (if Special(s[0]) then ['\\'] else []) + [s[0]] + Escape(s[1..])
  {
    if |s| > 1 {
      EscapeFromTheFront(s[..|s| - 1]);
      assert s[..|s| - 1][1..] == s[1..][..|s| - 2];
    }
  }

  /** Escaped text matches exactly itself, up to case, before the rest of a pattern. */
  lemma {:induction false} EscapedMatchesItself(q: string, rest: string, s: string)
    ensures Like(Escape(q) + rest, s) <==> |q| <= |s| && FoldEq(q, s[..|q|]) && Like(rest, s[|q|..])
    decreases |q|
  {
    if q == [] {
      assert Escape(q) + rest == rest;
      assert s[|q|..] == s && s[..|q|] == [];
    } else {
      EscapeFromTheFront(q);
      var head := if Special(q[0]) then ['\\'] + [q[0]] else [q[0]];
      var pattern := Escape(q) + rest;
      var tail := Escape(q[1..]) + rest;
      assert pattern == head + tail;
      if s != [] {
        EscapedMatchesItself(q[1..], rest, s[1..]);
        assert Like(pattern, s) <==> Fold(q[0]) == Fold(s[0]) && Like(tail, s[1..]) by {
          assert pattern[|head|..] == tail;
        }
        if |q| <= |s| {
          assert s[1..][|q[1..]|..] == s[|q|..];
          assert s[1..][..|q[1..]|] == s[..|q|][1..];
          assert FoldEq(q, s[..|q|]) <==> Fold(q[0]) == Fold(s[0]) && FoldEq(q[1..], s[..|q|][1..]) by {
            FoldEqFromTheFront(q, s[..|q|]);
          }
        }
      }
    }
  }

  lemma FoldEqFromTheFront(q: string, s: string)
    requires q != [] && s != []
    ensures FoldEq(q, s) <==> Fold(q[0]) == Fold(s[0]) && FoldEq(q[1..], s[1..])
  {
    if FoldEq(q[1..], s[1..]) && Fold(q[0]) == Fold(s[0]) {
      forall i | 0 <= i < |q| ensures Fold(q[i]) == Fold(s[i]) {
        if i > 0 {
          assert q[i] == q[1..][i - 1] && s[i] == s[1..][i - 1];
        }
      }
    }
  }

  lemma {:induction false} PercentMatchesAll(s: string)
    ensures Like("%", s)
  {
    if s != [] {
      PercentMatchesAll(s[1..]);
    }
  }

  predicate OccursAt(q: string, s: string, i: int) {
    0 <= i && i + |q| <= |s| && FoldEq(q, s[i..i + |q|])
  }

  ghost predicate Occurs(q: string, s: string) { exists i :: OccursAt(q, s, i) }

  function Pattern(q: string): string { "%" + Escape(q) + "%" }

  lemma OccursShifted(q: string, s: string, i: nat)
    requires s != []
    ensures OccursAt(q, s[1..], i) <==> OccursAt(q, s, i + 1)
  {
    if i + 1 + |q| <= |s| {
      assert s[1..][i..i + |q|] == s[i + 1..i + 1 + |q|];
    }
  }

  /** The search pattern matches exactly the strings that contain the query, up to case. */
  lemma {:induction false} PatternFindsSubstrings(q: string, s: string)
    ensures Like(Pattern(q), s) <==> Occurs(q, s)
    decreases |s|
  {
    var body := Escape(q) + "%";
    assert Pattern(q)[1..] == body;
    EscapedMatchesItself(q, "%", s);
    if |q| <= |s| {
      PercentMatchesAll(s[|q|..]);
      assert s[0..0 + |q|] == s[..|q|];
    }
    assert Like(body, s) <==> OccursAt(q, s, 0);
    if s != [] {
      PatternFindsSubstrings(q, s[1..]);
      forall i | OccursAt(q, s[1..], i) ensures OccursAt(q, s, i + 1) {
        OccursShifted(q, s, i);
      }
      forall i | OccursAt(q, s, i) && i > 0 ensures OccursAt(q, s[1..], i - 1) {
        OccursShifted(q, s, i - 1);
      }
    }
  }

  /** The name columns of cae_contacts can be NULL; LIKE on NULL is not true. */
  datatype Contact = Contact(jid: string, fullName: Option<string>, pushName: Option<string>, firstName: Option<string>)

  predicate ColumnLike(column: Option<string>, pattern: string) { column.Some? && Like(pattern, column.value) }

  /** The WHERE clause of SearchContacts for an already trimmed query. */
  predicate Selected(c: Contact, trimmed: string) {
    var like := Pattern(trimmed);
    || like == "%%"
    || Like(like, c.jid)
    || ColumnLike(c.fullName, like)
    || ColumnLike(c.pushName, like)
    || ColumnLike(c.firstName, like)
  }

  ghost predicate ColumnHas(column: Option<string>, q: string) { column.Some? && Occurs(q, column.value) }

  lemma {:induction false} EscapeKeepsLength(s: string)
    ensures |Escape(s)| >= |s|
  {
    if s != [] {
      EscapeKeepsLength(s[..|s| - 1]);
    }
  }

  /** A contact is found iff the query is empty or occurs in one of its searched columns. */
  lemma SearchFindsExactlyTheMatches(c: Contact, trimmed: string)
    ensures Selected(c, trimmed) <==>
      || trimmed == ""
      || Occurs(trimmed, c.jid)
      || ColumnHas(c.fullName, trimmed)
      || ColumnHas(c.pushName, trimmed)
      || ColumnHas(c.firstName, trimmed)
  {
    EscapeKeepsLength(trimmed);
    assert Pattern(trimmed) == "%%" <==> trimmed == "" by {
      assert |Pattern(trimmed)| >= |trimmed| + 2;
    }
    PatternFindsSubstrings(trimmed, c.jid);
    if c.fullName.Some? { PatternFindsSubstrings(trimmed, c.fullName.value); }
    if c.pushName.Some? { PatternFindsSubstrings(trimmed, c.pushName.value); }
    if c.firstName.Some? { PatternFindsSubstrings(trimmed, c.firstName.value); }
  }
}
