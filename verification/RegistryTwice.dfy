/**
 When build_registry is idempotent: exactly when the separating comma is not put on
 the only line that holds the import.

 The entry step inserts a comma behind the last significant character before the list's
 closing line, and a marked block. The block brings no import line (`PatchOk`). The comma
 changes one line, which then is no import line any more; the import survives iff it is on
 another one. If it does not survive, the line that the comma fell on was the import line
 itself, and it still begins like an import, so a second build finds a place behind it and
 inserts the import again. `RegistryDiffers` has such texts.
 */
module RegistryTwice {
  import opened PythonText
  import opened Wrappers
  import opened Lexer
  import opened QmlTokens
  import opened ListPatcher
  import opened TextLines
  import opened RegistryPatch

  // ----------------------------------------------------- the line the comma goes on

  /** Length of `head` before the comma, if the comma is put inside it. */
  function CommaAt(head: string): int {
    var last := LastSignificant(head);
    if 0 <= last < |head| - 1 && head[last] != ',' then last + 1 else -1
  }

  /** The lines of `t` without the one on which the comma is put. */
  function OtherLines(t: string, start: nat): seq<string>
    requires start <= |t|
  {
    var n := CommaAt(t[..start]);
    if n < 0 then Split(t)
    else
      Above(t[..n]) + Below(t[n..start - 1]) + Split(t[start..])
  }

  /** The lines of a text but its last one; its last one; its first one; the others. */
  function Above(u: string): seq<string> { Split(u)[..|Split(u)| - 1] }
  function Bottom(u: string): string { Split(u)[|Split(u)| - 1] }
  function Top(v: string): string { Split(v)[0] }
  function Below(v: string): seq<string> { Split(v)[1..] }

  lemma SplitHere(a: string, b: string)
    ensures Split(a + b) == Above(a) + [Bottom(a) + Top(b)] + Below(b)
  {
    SplitSum(a, b);
  }

  lemma SplitComma(b: string)
    ensures Split("," + b) == ["," + Split(b)[0]] + Split(b)[1..]
  {
    assert "," + b == [','] + b;
    SplitCons(',', b);
  }

  lemma SplitWithComma(a: string, b: string)
    ensures Split(a + ("," + b)) == Above(a) + [Bottom(a) + ("," + Top(b))] + Below(b)
  {
    SplitHere(a, "," + b);
    SplitComma(b);
  }

  lemma CommaIsForeign(imp: string, x: string, y: string)
    requires ',' !in imp
    ensures !IsImport(imp, x + ("," + y))
  {
    var l := x + ("," + y);
    assert l[|x|] == ',';
    assert ',' in l && !IsTab(',');
    ForeignIsNoImport(imp, l);
  }

  lemma HasImportOf(imp: string, l: string)
    ensures HasImport(imp, [l]) <==> IsImport(imp, l)
  {
    assert l in [l];
  }

  lemma HasImportAround(imp: string, a: seq<string>, l: string, b: seq<string>)
    ensures HasImport(imp, a + [l] + b) <==> HasImport(imp, a) || IsImport(imp, l) || HasImport(imp, b)
  {
    HasImportSum(imp, a + [l], b);
    HasImportSum(imp, a, [l]);
    HasImportOf(imp, l);
  }

  // ----------------------------------------------- does the import line survive

  /** Lines of a text that is cut at a newline. */
  lemma CutLines(t: string, start: nat)
    requires 0 < start <= |t| && t[start - 1] == '\n'
    ensures Split(t) == Split(t[..start - 1]) + Split(t[start..])
    ensures t[..start] == t[..start - 1] + "\n"
  {
    assert t == t[..start - 1] + ("\n" + t[start..]);
    SplitAtNewline(t[..start - 1], t[start..]);
  }

  predicate PatchOk(imp: string, lines: seq<string>) {
    lines != [] && forall l :: l in lines ==> '\n' !in l && Foreign(imp, l)
  }

  /** The block itself, also behind a comma, brings no import line. */
  lemma BlockBringsNone(imp: string, indent: string, lines: seq<string>, rest: string)
    requires PatchOk(imp, lines) && '\n' !in indent && ',' !in imp
    ensures HasImport(imp, Split(BlockText(indent, lines) + rest)) <==> HasImport(imp, Split(rest))
    ensures HasImport(imp, Split("," + (BlockText(indent, lines) + rest))) <==> HasImport(imp, Split(rest))
  {
    var ind := Indented(indent, lines);
    BlockLines(indent, lines, rest);
    IndentedIsForeign(imp, indent, lines);
    HasImportSum(imp, ind, Split(rest));
    SplitComma(BlockText(indent, lines) + rest);
    CommaInFront(imp, ind, Split(rest));
  }

  /** A comma in front of the first line. */
  lemma CommaInFront(imp: string, ind: seq<string>, rest: seq<string>)
    requires ind != [] && !HasImport(imp, ind) && ',' !in imp
    ensures HasImport(imp, ["," + (ind + rest)[0]] + (ind + rest)[1..]) <==> HasImport(imp, rest)
  {
    var l := "," + ind[0];
    assert (ind + rest)[0] == ind[0] && (ind + rest)[1..] == ind[1..] + rest;
    assert "" + ("," + ind[0]) == l;
    CommaIsForeign(imp, "", ind[0]);
    assert ind == [ind[0]] + ind[1..];
    HasImportSum(imp, [ind[0]], ind[1..]);
    HasImportSum(imp, ind[1..], rest);
    HasImportSum(imp, [l], ind[1..] + rest);
    HasImportOf(imp, l);
  }

  lemma HeadInside(a: string)
    requires CommaAt(a + "\n") >= 0
    ensures var n := CommaAt(a + "\n"); 0 < n <= |a| && WithComma(a + "\n") == a[..n] + ("," + (a[n..] + "\n"))
  {
    var n := CommaAt(a + "\n");
    assert (a + "\n")[..n] == a[..n] && (a + "\n")[n..] == a[n..] + "\n";
  }

  /** The text after the insertion, by where the comma goes. */
  lemma InsertedInside(t: string, start: nat, close: nat, p: Patch)
    requires close <= |t| && start == LineStart(t, close) && CommaAt(t[..start]) >= 0
    ensures 0 < CommaAt(t[..start]) < start
    ensures var n := CommaAt(t[..start]);
      Inserted(t, close, p)
      == (t[..n] + ("," + t[n..start - 1])) + ("\n" + (BlockText(t[start..close], Lines(p)) + t[start..]))
  {
    CutLines(t, start);
    var a, n := t[..start - 1], CommaAt(t[..start]);
    HeadInside(a);
    assert a[..n] == t[..n] && a[n..] == t[n..start - 1];
    MoveNewline(t[..n], t[n..start - 1], BlockText(t[start..close], Lines(p)), t[start..]);
  }

  lemma MoveNewline(u: string, v: string, block: string, rest: string)
    ensures u + ("," + (v + "\n")) + block + rest == (u + ("," + v)) + ("\n" + (block + rest))
  {
  }

  lemma HeadAfter(head: string)
    requires CommaAt(head) < 0
    ensures WithComma(head) == head || WithComma(head) == head + ","
  {
    LastIsBefore(head);
    if LastSignificant(head) == |head| - 1 >= 0 {
      assert head[..|head|] == head && head[|head|..] == "" && "," + "" == ",";
    }
  }

  lemma MoveTail(a: string, block: string, rest: string)
    ensures (a + "\n") + block + rest == a + ("\n" + (block + rest))
    ensures ((a + "\n") + ",") + block + rest == a + ("\n" + ("," + (block + rest)))
  {
  }

  lemma InsertedAfter(t: string, start: nat, close: nat, p: Patch)
    requires close <= |t| && start == LineStart(t, close) && CommaAt(t[..start]) < 0 && start > 0
    ensures var tail := BlockText(t[start..close], Lines(p)) + t[start..];
      Inserted(t, close, p) == t[..start - 1] + ("\n" + tail) || Inserted(t, close, p) == t[..start - 1] + ("\n" + ("," + tail))
  {
    CutLines(t, start);
    HeadAfter(t[..start]);
    MoveTail(t[..start - 1], BlockText(t[start..close], Lines(p)), t[start..]);
  }

  lemma TailOnly(imp: string, a: string, tail: string, rest: string)
    requires HasImport(imp, Split(tail)) <==> HasImport(imp, Split(rest))
    ensures HasImport(imp, Split(a + ("\n" + tail))) <==> HasImport(imp, Split(a) + Split(rest))
  {
    SplitAtNewline(a, tail);
    HasImportSum(imp, Split(a), Split(tail));
    HasImportSum(imp, Split(a), Split(rest));
  }

  lemma InsertedFirst(t: string, close: nat, p: Patch)
    requires close <= |t| && LineStart(t, close) == 0
    ensures Inserted(t, close, p) == BlockText(t[0..close], Lines(p)) + t && OtherLines(t, 0) == Split(t) && t[0..] == t
  {
    assert t[..0] == "" && WithComma("") == "";
  }

  lemma CommaLineAlone(imp: string, u: string, v: string)
    requires ',' !in imp
    ensures HasImport(imp, Split(u + ("," + v))) <==> HasImport(imp, Above(u)) || HasImport(imp, Below(v))
  {
    SplitWithComma(u, v);
    HasImportAround(imp, Above(u), Bottom(u) + ("," + Top(v)), Below(v));
    CommaIsForeign(imp, Bottom(u), Top(v));
  }

  lemma OthersSum(imp: string, a: seq<string>, b: seq<string>, c: seq<string>)
    ensures HasImport(imp, a + b + c) <==> HasImport(imp, a) || HasImport(imp, b) || HasImport(imp, c)
  {
    HasImportSum(imp, a + b, c);
    HasImportSum(imp, a, b);
  }

  lemma LinesSum(imp: string, a: string, tail: string)
    ensures HasImport(imp, Split(a + ("\n" + tail))) <==> HasImport(imp, Split(a)) || HasImport(imp, Split(tail))
  {
    SplitAtNewline(a, tail);
    HasImportSum(imp, Split(a), Split(tail));
  }

  lemma CommaLineDies(imp: string, u: string, v: string, tail: string, rest: string)
    requires ',' !in imp && (HasImport(imp, Split(tail)) <==> HasImport(imp, Split(rest)))
    ensures HasImport(imp, Split((u + ("," + v)) + ("\n" + tail))) <==> HasImport(imp, Above(u) + Below(v) + Split(rest))
  {
    LinesSum(imp, u + ("," + v), tail);
    CommaLineAlone(imp, u, v);
    OthersSum(imp, Above(u), Below(v), Split(rest));
  }

  lemma SurvivesAfter(imp: string, t: string, close: nat, p: Patch)
    requires close <= |t| && LineStart(t, close) > 0 && CommaAt(t[..LineStart(t, close)]) < 0
    requires PatchOk(imp, Lines(p)) && ',' !in imp
    ensures HasImport(imp, Split(Inserted(t, close, p))) <==> HasImport(imp, Split(t))
  {
    var start := LineStart(t, close);
    var rest := t[start..];
    var tail := BlockText(t[start..close], Lines(p)) + rest;
    BlockBringsNone(imp, t[start..close], Lines(p), rest);
    CutLines(t, start);
    InsertedAfter(t, start, close, p);
    TailOnly(imp, t[..start - 1], tail, rest);
    TailOnly(imp, t[..start - 1], "," + tail, rest);
  }

  lemma SurvivesInside(imp: string, t: string, close: nat, p: Patch)
    requires close <= |t| && CommaAt(t[..LineStart(t, close)]) >= 0
    requires PatchOk(imp, Lines(p)) && ',' !in imp
    ensures HasImport(imp, Split(Inserted(t, close, p))) <==> HasImport(imp, OtherLines(t, LineStart(t, close)))
  {
    var start := LineStart(t, close);
    var n, rest := CommaAt(t[..start]), t[start..];
    BlockBringsNone(imp, t[start..close], Lines(p), rest);
    InsertedInside(t, start, close, p);
    CommaLineDies(imp, t[..n], t[n..start - 1], BlockText(t[start..close], Lines(p)) + rest, rest);
    OtherLinesInside(t, start);
  }

  lemma OtherLinesInside(t: string, start: nat)
    requires start <= |t| && CommaAt(t[..start]) >= 0
    ensures CommaAt(t[..start]) < start
    ensures OtherLines(t, start)
         == Above(t[..CommaAt(t[..start])]) + Below(t[CommaAt(t[..start])..start - 1]) + Split(t[start..])
  {
  }

  lemma SurvivesFirst(imp: string, t: string, close: nat, p: Patch)
    requires close <= |t| && LineStart(t, close) == 0
    requires PatchOk(imp, Lines(p)) && ',' !in imp
    ensures HasImport(imp, Split(Inserted(t, close, p))) <==> HasImport(imp, Split(t))
    ensures OtherLines(t, 0) == Split(t)
  {
    BlockBringsNone(imp, t[0..close], Lines(p), t);
    InsertedFirst(t, close, p);
  }

  /** The import lines after the insertion are those that the comma does not fall on. */
  lemma ImportSurvivesIff(imp: string, t: string, close: nat, p: Patch)
    requires close <= |t| && PatchOk(imp, Lines(p)) && ',' !in imp
    ensures HasImport(imp, Split(Inserted(t, close, p))) <==> HasImport(imp, OtherLines(t, LineStart(t, close)))
  {
    var start := LineStart(t, close);
    if start == 0 {
      SurvivesFirst(imp, t, close, p);
    } else if CommaAt(t[..start]) < 0 {
      SurvivesAfter(imp, t, close, p);
    } else {
      SurvivesInside(imp, t, close, p);
    }
  }

  // ---------------------------------------------------- what follows the last character

  predicate Calm(ch: char) { !IsQuote(ch) && ch != '/' && ch != '*' && ch != '\\' }

  lemma {:induction false} LastGrows(s: string, r: string)
    ensures LastBefore(s) <= LastBefore(s + r)
    decreases |r|
  {
    if r == "" {
      assert s + r == s;
    } else {
      var r', c := r[..|r| - 1], r[|r| - 1];
      assert s + r == (s + r') + [c];
      LastGrows(s, r');
      LastGrowsByOne(s + r', c);
    }
  }

  lemma LastGrowsByOne(s: string, c: char)
    ensures LastBefore(s) <= LastBefore(s + [c])
  {
    NextMarks(s, c);
    var none, back := Marks(Run(Code, s), c);
    if !none && back == 1 {
      SlashIsLast(s);
      SlashIsUnmarked(s);
    }
  }

  lemma SlashIsUnmarked(s: string)
    requires Run(Code, s).Slash?
    ensures LastBefore(s) < |s| - 1 || s == ""
  {
    SlashIsLast(s);
    var s', c := s[..|s| - 1], s[|s| - 1];
    assert s == s' + [c];
    NextMarks(s', c);
    QuotesAreQuotes(s');
    NoEmission(Run(Code, s'), c, |s'|, LastBefore(s'));
  }

  /** Just after a marked character the scanner is in code or in a string. */
  lemma MarkedMode(s: string, c: char)
    requires LastBefore(s + [c]) == |s|
    ensures Run(Code, s + [c]).Code? || Run(Code, s + [c]).Quoted?
  {
    NextMarks(s, c);
  }

  lemma {:induction false} ModeAfterLast(u: string, r: string)
    requires u != "" && u[|u| - 1] != '/' && LastBefore(u + r) == |u| - 1
    ensures LastBefore(u) == |u| - 1 && (Run(Code, u).Code? || Run(Code, u).Quoted?)
    decreases |r|
  {
    if r == "" {
      assert u + r == u && u == u[..|u| - 1] + [u[|u| - 1]];
      MarkedMode(u[..|u| - 1], u[|u| - 1]);
    } else {
      var r', c := r[..|r| - 1], r[|r| - 1];
      assert u + r == (u + r') + [c];
      SlashNeedsSlash(u);
      assert r' == "" ==> u + r' == u;
      NotMarkedAgain(u + r', c);
      ModeAfterLast(u, r');
    }
  }

  lemma SlashNeedsSlash(s: string)
    ensures Run(Code, s).Slash? ==> s != "" && s[|s| - 1] == '/'
  {
    if Run(Code, s).Slash? {
      SlashIsLast(s);
    }
  }

  lemma NotMarkedAgain(s: string, c: char)
    requires LastBefore(s + [c]) < |s| - 1 || (LastBefore(s + [c]) == |s| - 1 && !Run(Code, s).Slash?)
    ensures LastBefore(s) == LastBefore(s + [c])
  {
    NextMarks(s, c);
    var none, back := Marks(Run(Code, s), c);
  }

  lemma CalmStep(m: Mode, c: char, i: int, last: int)
    requires m.Code? || (m.Quoted? && IsQuote(m.q))
    requires Calm(c) && LastNext(m, c, i, last) == last != i
    ensures IsSpace(c) && Step(m, c) == m
  {
  }

  /** Calm characters behind the last significant one are blank. */
  lemma {:induction false} CalmTailIsBlank(u: string, y: string)
    requires u != "" && LastBefore(u) == |u| - 1 && LastBefore(u + y) == |u| - 1
    requires Run(Code, u).Code? || Run(Code, u).Quoted?
    requires forall ch :: ch in y ==> Calm(ch)
    ensures (forall ch :: ch in y ==> IsSpace(ch)) && Run(Code, u + y) == Run(Code, u)
    decreases |y|
  {
    if y == "" {
      assert u + y == u;
    } else {
      var y', c := y[..|y| - 1], y[|y| - 1];
      assert y == y' + [c] && u + y == (u + y') + [c];
      assert c in y && forall ch :: ch in y ==> ch in y' || ch == c;
      assert forall ch :: ch in y' ==> ch in y;
      LastGrows(u, y');
      LastGrows(u + y', [c]);
      CalmTailIsBlank(u, y');
      NextMarks(u + y', c);
      QuotesAreQuotes(u);
      CalmStep(Run(Code, u), c, |u + y'|, |u| - 1);
    }
  }

  // ------------------------------------------------- the import line hit by the comma

  lemma {:induction false} FirstLineIsPrefix(v: string)
    ensures Split(v)[0] <= v
    decreases |v|
  {
    if v != "" && v[0] != '\n' {
      FirstLineIsPrefix(v[1..]);
      assert v == [v[0]] + v[1..];
      SplitCons(v[0], v[1..]);
    }
  }

  lemma BottomCons(c: char, u: string)
    ensures Bottom([c] + u) == if c != '\n' && |Split(u)| == 1 then [c] + Bottom(u) else Bottom(u)
    ensures |Split([c] + u)| == 1 <==> c != '\n' && |Split(u)| == 1
  {
    SplitCons(c, u);
  }

  lemma {:induction false} LastLineIsSuffix(u: string)
    ensures |Bottom(u)| <= |u| && u[|u| - |Bottom(u)|..] == Bottom(u)
    ensures |Bottom(u)| < |u| ==> u[|u| - |Bottom(u)| - 1] == '\n'
    ensures |Split(u)| == 1 ==> Bottom(u) == u
    ensures |Split(u)| > 1 ==> |Bottom(u)| < |u|
    decreases |u|
  {
    if u != "" {
      var c, rest := u[0], u[1..];
      LastLineIsSuffix(rest);
      assert u == [c] + rest;
      BottomCons(c, rest);
      var k := |Bottom(rest)|;
      assert u[|u| - k..] == rest[|rest| - k..];
      assert k < |rest| ==> u[|u| - k - 1] == rest[|rest| - k - 1];
    }
  }

  predicate PlainImport(imp: string) {
    && |imp| > 7 && imp[..7] == "import " && !IsSpace(imp[|imp| - 1])
    && forall ch :: ch in imp ==> Calm(ch) && ch != ',' && ch != '\n'
  }

  lemma ImportLineIsCalm(imp: string, l: string)
    requires PlainImport(imp) && IsImport(imp, l)
    ensures forall ch :: ch in l ==> Calm(ch)
  {
    var i :| 0 <= i <= |l| && ImportAt(imp, l, i);
    forall k | 0 <= k < |l| ensures Calm(l[k]) {
      if i <= k < i + |imp| {
        assert l[k] == l[i..i + |imp|][k - i] && l[k] in imp;
      }
    }
  }

  /** With only blanks in `y`, the import lies in `x`, and a comma behind `x` leaves a line
      that starts with an import. */
  lemma StillStarts(imp: string, x: string, y: string)
    requires PlainImport(imp) && IsImport(imp, x + y) && forall ch :: ch in y ==> IsSpace(ch)
    ensures StartsImport(x + ("," + y))
  {
    var l, l' := x + y, x + ("," + y);
    var i :| 0 <= i <= |l| && ImportAt(imp, l, i);
    var e := i + |imp| - 1;
    assert l[e] == l[i..i + |imp|][|imp| - 1] == imp[|imp| - 1];
    assert forall k :: |x| <= k < |l| ==> l[k] in y;
    assert e < |x|;
    assert l'[i..i + |imp|] == l[i..i + |imp|] == imp;
    assert l'[i..i + 7] == l'[i..i + |imp|][..7] == imp[..7];
    assert l'[i] == imp[0] == 'i';
    assert IsSpace(' ') && IsSpace('\t') && !IsSpace('i');
    forall k | 0 <= k < i ensures IsSpace(l'[k]) {
      assert l'[k] == l[k] && IsTab(l[k]);
    }
    LeadIs(l', i);
    assert l'[e] == l[e] && !IsSpace(l'[e]);
  }

  lemma LeadIs(l: string, i: nat)
    requires i < |l| && !IsSpace(l[i]) && forall k :: 0 <= k < i ==> IsSpace(l[k])
    ensures Lead(l) == i
  {
  }

  lemma {:induction false} LastImportFinds(lines: seq<string>, l: string)
    requires l in lines && StartsImport(l)
    ensures LastImport(lines) >= 0
    decreases |lines|
  {
    if !StartsImport(lines[|lines| - 1]) {
      assert l in lines[..|lines| - 1];
      LastImportFinds(lines[..|lines| - 1], l);
    }
  }

  lemma BottomEndsWell(imp: string, u: string, y: string)
    requires PlainImport(imp) && u != "" && IsImport(imp, Bottom(u) + y)
    ensures u[|u| - 1] != '/'
  {
    var x := Bottom(u);
    ImportLineIsCalm(imp, x + y);
    LastLineIsSuffix(u);
    if x != "" {
      assert u[|u| - 1] == u[|u| - |x|..][|x| - 1] == x[|x| - 1];
      assert (x + y)[|x| - 1] in x + y;
    }
  }

  /** Nothing but blanks follows the comma's place on an import line. */
  lemma RestOfImportLineIsBlank(imp: string, u: string, v: string)
    requires PlainImport(imp) && u != "" && LastBefore(u + (v + "\n")) == |u| - 1
    requires IsImport(imp, Bottom(u) + Split(v)[0])
    ensures forall ch :: ch in Split(v)[0] ==> IsSpace(ch)
  {
    var x, y := Bottom(u), Split(v)[0];
    BottomEndsWell(imp, u, y);
    ModeAfterLast(u, v + "\n");
    FirstLineIsPrefix(v);
    assert v == y + v[|y|..];
    MoveLine(u, y, v[|y|..]);
    StillLast(u, y, v[|y|..] + "\n");
    ImportLineIsCalm(imp, x + y);
    assert forall ch :: ch in y ==> ch in x + y;
    CalmTailIsBlank(u, y);
  }

  lemma MoveLine(u: string, y: string, z: string)
    ensures u + ((y + z) + "\n") == (u + y) + (z + "\n")
  {
  }

  lemma StillLast(u: string, y: string, z: string)
    requires LastBefore(u) == LastBefore((u + y) + z)
    ensures LastBefore(u + y) == LastBefore(u)
  {
    LastGrows(u, y);
    LastGrows(u + y, z);
  }

  lemma HeadOfHit(t: string, start: nat)
    requires 0 < start <= |t| && t[start - 1] == '\n' && CommaAt(t[..start]) >= 0
    ensures var n := CommaAt(t[..start]);
      0 < n < start && t[..start] == t[..n] + (t[n..start - 1] + "\n") && LastBefore(t[..start]) == n - 1
  {
    SlashNeedsSlash(t[..start]);
  }

  lemma HitIsImport(imp: string, t: string, start: nat)
    requires 0 < start <= |t| && t[start - 1] == '\n' && CommaAt(t[..start]) >= 0
    requires HasImport(imp, Split(t)) && !HasImport(imp, OtherLines(t, start))
    ensures 0 < CommaAt(t[..start]) < start
    ensures IsImport(imp, Bottom(t[..CommaAt(t[..start])]) + Top(t[CommaAt(t[..start])..start - 1]))
  {
    HeadOfHit(t, start);
    CutLines(t, start);
    OtherLinesInside(t, start);
    var u, v := t[..CommaAt(t[..start])], t[CommaAt(t[..start])..start - 1];
    assert t[..start - 1] == u + v;
    SplitHere(u, v);
    HasImportSum(imp, Split(u + v), Split(t[start..]));
    HasImportAround(imp, Above(u), Bottom(u) + Top(v), Below(v));
    OthersSum(imp, Above(u), Below(v), Split(t[start..]));
  }

  lemma HitLineIsThere(u: string, v: string, tail: string)
    ensures Bottom(u) + ("," + Top(v)) in Split((u + ("," + v)) + ("\n" + tail))
  {
    var hit := Bottom(u) + ("," + Top(v));
    SplitAtNewline(u + ("," + v), tail);
    SplitWithComma(u, v);
    assert (Above(u) + [hit] + Below(v))[|Above(u)|] == hit;
    assert hit in Above(u) + [hit] + Below(v);
  }

  /** If the comma falls on the only import line, that line still starts with an import. */
  lemma HitLineStillStarts(imp: string, t: string, close: nat, p: Patch)
    requires close <= |t| && PlainImport(imp)
    requires HasImport(imp, Split(t)) && !HasImport(imp, OtherLines(t, LineStart(t, close)))
    ensures LastImport(Split(Inserted(t, close, p))) >= 0
  {
    var start := LineStart(t, close);
    assert CommaAt(t[..start]) >= 0;
    HitIsImport(imp, t, start);
    HeadOfHit(t, start);
    var u, v := t[..CommaAt(t[..start])], t[CommaAt(t[..start])..start - 1];
    RestOfImportLineIsBlank(imp, u, v);
    StillStarts(imp, Bottom(u), Top(v));
    InsertedInside(t, start, close, p);
    HitLineIsThere(u, v, BlockText(t[start..close], Lines(p)) + t[start..]);
    LastImportFinds(Split(Inserted(t, close, p)), Bottom(u) + ("," + Top(v)));
  }

  // ------------------------------------------------------------------- main result

  /** What a caller can check on the text after its import step: the entry is already there, or
      there is no list to enter it in, or the separating comma does not go on the only line
      that holds the import. */
  ghost predicate CommaSpares(c: Config, find: string -> Option<nat>, t: string)
    requires Locates(find)
  {
    Contains(t, c.sentinel) || CloseOf(t, find(t)).None?
    || HasImport(c.importLine, OtherLines(t, LineStart(t, CloseOf(t, find(t)).value)))
  }

  ghost predicate Fits(c: Config) {
    && PlainImport(c.importLine) && PatchOk(c.importLine, Lines(c.patch)) && SentinelOk(c)
    && '\n' !in c.importBegin && '\n' !in c.importEnd
  }

  lemma EnteredSettledIff(c: Config, find: string -> Option<nat>, t: string)
    requires Locates(find) && Fits(c) && HasImport(c.importLine, Split(t))
    ensures Settled(c, Entered(c, find, t)) <==> CommaSpares(c, find, t)
  {
    if !Contains(t, c.sentinel) && CloseOf(t, find(t)).Some? {
      var close := CloseOf(t, find(t)).value;
      ImportSurvivesIff(c.importLine, t, close, c.patch);
      if !HasImport(c.importLine, OtherLines(t, LineStart(t, close))) {
        HitLineStillStarts(c.importLine, t, close, c.patch);
      }
    }
  }

  /** build_registry twice equals once, on a file with imports, if and only if the comma spares
      the import line. */
  lemma ImportedTwiceIff(c: Config, find: string -> Option<nat>, text: string)
    requires Locates(find) && Fits(c)
    requires HasImport(c.importLine, Split(text)) || LastImport(Split(text)) >= 0
    ensures Built(c, find, Built(c, find, text)) == Built(c, find, text) <==> CommaSpares(c, find, AddImport(c, text))
  {
    BuildTwiceIffSettled(c, find, text);
    ImportIsThere(c, text);
    EnteredSettledIff(c, find, AddImport(c, text));
  }
}
