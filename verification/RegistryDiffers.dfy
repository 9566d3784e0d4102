/**
 Texts that build_registry does not leave alone the second time: between the only import and
 the line that closes the list nothing is significant, so that the separating comma falls on
 the import. That is so for a list that opens and closes on the line below the import, and
 for one whose declaration is in a comment. Both are declarations that the patch finds, since
 its search knows neither lines nor comments.
 */
module RegistryDiffers {
  import opened PythonText
  import opened Wrappers
  import opened Lexer
  import opened QmlTokens
  import opened ListPatcher
  import opened TextLines
  import opened RegistryPatch
  import opened RegistryTwice

  lemma {:induction false} CalmIsCode(s: string)
    requires forall ch :: ch in s ==> Calm(ch)
    ensures Run(Code, s) == Code
    decreases |s|
  {
    if s != "" {
      var s', c := s[..|s| - 1], s[|s| - 1];
      assert c in s && forall ch :: ch in s' ==> ch in s;
      CalmIsCode(s');
    }
  }

  /** Nothing significant between the import and the line `b` ends before. */
  predicate Gap(b: string) { b != "" && b[0] == '\n' == b[|b| - 1] && Tokens(Code, b) == [] && Run(Code, b) == Code }

  /** A text that begins with the import; the line behind the gap closes the list. */
  function Sample(imp: string, b: string, tail: string): string { imp + (b + tail) }

  lemma CalmMarks(s: string, z: char)
    requires Run(Code, s) == Code && Calm(z) && !IsSpace(z)
    ensures Run(Code, s + [z]) == Code && LastBefore(s + [z]) == |s|
  {
    NextMarks(s, z);
  }

  lemma CalmParts(s: string, z: char)
    requires forall ch :: ch in s + [z] ==> Calm(ch)
    ensures Calm(z) && Run(Code, s) == Code
  {
    assert z in s + [z] && forall ch :: ch in s ==> ch in s + [z];
    CalmIsCode(s);
  }

  lemma ImportEndsInCode(imp: string)
    requires PlainImport(imp)
    ensures Run(Code, imp) == Code && LastBefore(imp) == |imp| - 1
  {
    var s, z := imp[..|imp| - 1], imp[|imp| - 1];
    assert imp == s + [z];
    CalmParts(s, z);
    CalmMarks(s, z);
  }

  /** The comma goes right behind the import. */
  lemma SampleComma(imp: string, b: string)
    requires PlainImport(imp) && Gap(b)
    ensures CommaAt(imp + b) == |imp|
  {
    ImportEndsInCode(imp);
    LastSum(imp, b);
    LastOfNothing(b);
    RunSum(Code, imp, b);
    assert imp[|imp| - 1] in imp;
  }

  lemma SamplePieces(imp: string, b: string, tail: string)
    requires b != ""
    ensures var s, n := Sample(imp, b, tail), |imp| + |b|;
      && s[..n] == imp + b && s[n..] == tail && s[..|imp|] == imp && s[|imp|..n - 1] == b[..|b| - 1]
      && |s| == n + |tail| && s[n - 1] == b[|b| - 1]
  {
    var s, n := Sample(imp, b, tail), |imp| + |b|;
    assert s == (imp + b) + tail;
  }

  lemma OtherLinesOfSample(imp: string, t: string, b: string, tail: string, start: nat)
    requires PlainImport(imp) && Gap(b) && t == Sample(imp, b, tail) && start == |imp| + |b|
    ensures |t| >= start && OtherLines(t, start) == [] + Below(b[..|b| - 1]) + Split(tail)
  {
    SampleComma(imp, b);
    SamplePieces(imp, b, tail);
    assert '\n' !in imp;
    AboveOneLine(imp);
    OtherLinesInside(t, start);
  }

  lemma AboveOneLine(imp: string)
    requires '\n' !in imp
    ensures Above(imp) == []
  {
    SingleLine(imp);
  }

  lemma SampleHasImport(imp: string, t: string, b: string, tail: string)
    requires PlainImport(imp) && b != "" && b[0] == '\n' && t == Sample(imp, b, tail)
    ensures HasImport(imp, Split(t))
  {
    assert '\n' !in imp;
    SingleLine(imp);
    assert b + tail == "\n" + (b[1..] + tail);
    SplitAtNewline(imp, b[1..] + tail);
    ImportLineIsImport(imp, [imp], Split(b[1..] + tail));
  }

  /** The gap and the lines from the closing one on bring no import. */
  predicate OnlyOne(imp: string, b: string, tail: string) {
    b != "" && !HasImport(imp, Below(b[..|b| - 1])) && !HasImport(imp, Split(tail))
  }

  lemma SampleIsHit(imp: string, t: string, b: string, tail: string, start: nat) returns (others: seq<string>)
    requires PlainImport(imp) && Gap(b) && OnlyOne(imp, b, tail)
    requires t == Sample(imp, b, tail) && start == |imp| + |b|
    ensures start <= |t| && others == OtherLines(t, start) && !HasImport(imp, others)
  {
    others := [] + Below(b[..|b| - 1]) + Split(tail);
    OtherLinesOfSample(imp, t, b, tail, start);
    OthersSum(imp, [], Below(b[..|b| - 1]), Split(tail));
  }

  lemma UnsparedDiffers(c: Config, find: string -> Option<nat>, t: string, start: nat, others: seq<string>)
    requires Locates(find) && Fits(c) && HasImport(c.importLine, Split(t))
    requires !Contains(t, c.sentinel) && CloseOf(t, find(t)).Some? && LineStart(t, CloseOf(t, find(t)).value) == start
    requires start <= |t| && others == OtherLines(t, start) && !HasImport(c.importLine, others)
    ensures Built(c, find, Built(c, find, t)) != Built(c, find, t)
  {
    StepIsIdle(c, t);
    CommaHits(c, find, t, start, others);
    ImportedTwiceIff(c, find, t);
  }

  lemma StepIsIdle(c: Config, t: string)
    requires HasImport(c.importLine, Split(t))
    ensures AddImport(c, t) == t
  {
    ImportStep(c, t);
  }

  lemma CommaHits(c: Config, find: string -> Option<nat>, t: string, start: nat, others: seq<string>)
    requires Locates(find) && !Contains(t, c.sentinel) && CloseOf(t, find(t)).Some?
    requires LineStart(t, CloseOf(t, find(t)).value) == start <= |t|
    requires others == OtherLines(t, start) && !HasImport(c.importLine, others)
    ensures !CommaSpares(c, find, t)
  {
  }

  /** The condition can fail: nothing but the gap between the only import and the line that
      closes the list. Every configuration of the patch then inserts its import anew. */
  lemma BuildTwiceCanDiffer(c: Config, find: string -> Option<nat>, t: string, b: string, tail: string)
    requires Locates(find) && Fits(c) && Gap(b) && t == Sample(c.importLine, b, tail)
    requires OnlyOne(c.importLine, b, tail)
    requires !Contains(t, c.sentinel) && CloseOf(t, find(t)).Some?
    requires LineStart(t, CloseOf(t, find(t)).value) == |c.importLine| + |b|
    ensures Built(c, find, Built(c, find, t)) != Built(c, find, t)
  {
    var imp, start := c.importLine, |c.importLine| + |b|;
    SampleHasImport(imp, t, b, tail);
    var others := SampleIsHit(imp, t, b, tail, start);
    UnsparedDiffers(c, find, t, start, others);
  }

  // ------------------------------------------------------------------- two such texts

  lemma NewlineIsNothing()
    ensures Run(Code, "\n") == Code && Tokens(Code, "\n") == [] && QmlLists.StaysOpen([]) && Squares([]) == 0
  {
    OneChar(Code, '\n');
  }

  lemma FoundClose(text: string, open0: nat, close: nat)
    requires open0 < |text| && IsClose(text, open0, close)
    ensures CloseOf(text, Some(open0)) == Some(close)
  {
    var s := text[open0..];
    assert Closing(s, close - open0, '[', ']');
    CloseIsUnique(text, open0, CloseOf(text, Some(open0)).value, close);
  }

  /** A list that opens and closes on the line right below the import, like
      `readonly property list<PageEntry> pages: []`. */
  lemma OneLineListDiffers(c: Config, find: string -> Option<nat>, decl: string, rest: string, tail: string, t: string)
    requires Locates(find) && Fits(c) && decl != "" && decl[|decl| - 1] == '[' && '\n' !in decl
    requires tail == decl + ("]" + rest) && t == Sample(c.importLine, "\n", tail) && !HasImport(c.importLine, Split(tail))
    requires find(t) == Some(|c.importLine| + |decl|) && !Contains(t, c.sentinel)
    ensures Built(c, find, Built(c, find, t)) != Built(c, find, t)
  {
    var open0 := find(t).value;
    OneLineCloses(c.importLine, decl, rest, tail, t, open0);
    OneLineDiffers(c, find, tail, t, open0);
  }

  lemma OneLineDiffers(c: Config, find: string -> Option<nat>, tail: string, t: string, open0: nat)
    requires Locates(find) && Fits(c) && !HasImport(c.importLine, Split(tail)) && t == Sample(c.importLine, "\n", tail)
    requires !Contains(t, c.sentinel) && find(t) == Some(open0)
    requires open0 + 1 < |t| && CloseOf(t, Some(open0)) == Some(open0 + 1) && LineStart(t, open0 + 1) == |c.importLine| + 1
    ensures Built(c, find, Built(c, find, t)) != Built(c, find, t)
  {
    NewlineIsNothing();
    assert "\n"[..0] == "" && Below("") == [];
    BuildTwiceCanDiffer(c, find, t, "\n", tail);
  }

  lemma OneLineCloses(imp: string, decl: string, rest: string, tail: string, t: string, open0: nat)
    requires decl != "" && decl[|decl| - 1] == '[' && '\n' !in decl && open0 == |imp| + |decl|
    requires tail == decl + ("]" + rest) && t == Sample(imp, "\n", tail)
    ensures open0 + 1 < |t| && CloseOf(t, Some(open0)) == Some(open0 + 1) && LineStart(t, open0 + 1) == |imp| + 1
  {
    BracketsThere(imp, decl, rest, t);
    NewlineIsNothing();
    ClosesThere(t, open0, "");
    FoundClose(t, open0, open0 + 1);
    LineStartIs(t, |imp| + 1, open0 + 1);
  }

  lemma BracketsThere(imp: string, decl: string, rest: string, t: string)
    requires decl != "" && decl[|decl| - 1] == '[' && '\n' !in decl && t == imp + ("\n" + (decl + ("]" + rest)))
    ensures var n := |imp| + |decl|; n + 1 < |t| && t[n] == '[' && t[n + 1] == ']' && t[|imp|] == '\n'
    ensures forall j :: |imp| < j < |imp| + |decl| + 1 ==> t[j] != '\n'
  {
    assert t == ((imp + "\n") + decl) + ("]" + rest);
  }

  lemma LineStartIs(t: string, start: nat, i: nat)
    requires 0 < start <= i <= |t| && t[start - 1] == '\n' && forall j :: start <= j < i ==> t[j] != '\n'
    ensures LineStart(t, i) == start
  {
  }

  /** A line comment is nothing to the scanner. */
  lemma {:induction false} CommentIsNothing(d: string)
    requires '\n' !in d
    ensures Tokens(Line, d) == [] && Run(Line, d) == Line
    decreases |d|
  {
    if d != "" {
      var s, z := d[..|d| - 1], d[|d| - 1];
      assert d == s + [z] && z in d && forall ch :: ch in s ==> ch in d;
      CommentIsNothing(s);
    }
  }

  lemma CommentGap(d: string, b: string)
    requires '\n' !in d && b == CommentBlock(d)
    ensures Gap(b)
  {
    OneChar(Code, '\n');
    OneChar(Code, '/');
    OneChar(Slash, '/');
    OneChar(Line, '\n');
    CommentIsNothing(d);
    assert "//" == ['/'] + ['/'];
    FromChar(Code, '/', ['/']);
    RunSum(Code, "//", d);
    TokensSum(Code, "//", d);
    RunSum(Code, "//" + d, "\n");
    TokensSum(Code, "//" + d, "\n");
    RunSum(Code, "\n", ("//" + d) + "\n");
    TokensSum(Code, "\n", ("//" + d) + "\n");
  }

  lemma BelowDiffers(c: Config, find: string -> Option<nat>, t: string, b: string, tail: string, start: nat)
    requires Locates(find) && Fits(c) && Gap(b) && t == Sample(c.importLine, b, tail) && OnlyOne(c.importLine, b, tail)
    requires start == |c.importLine| + |b| && 2 <= start < |t|
    requires t[start - 2] == '[' && t[start - 1] == '\n' && t[start] == ']'
    requires find(t) == Some(start - 2) && !Contains(t, c.sentinel)
    ensures Built(c, find, Built(c, find, t)) != Built(c, find, t)
  {
    ClosesBelow(t, start);
    BuildTwiceCanDiffer(c, find, t, b, tail);
  }

  /** A declaration in a comment right below the import, the bracket first on the next line. */
  lemma CommentedListDiffers(
    c: Config, find: string -> Option<nat>, t: string, d: string, b: string, rest: string, tail: string, start: nat)
    requires Locates(find) && Fits(c) && d != "" && d[|d| - 1] == '[' && '\n' !in d
    requires b == CommentBlock(d) && tail == "]" + rest && t == Sample(c.importLine, b, tail)
    requires !HasImport(c.importLine, Split(tail)) && start == |c.importLine| + |b| && start >= 2
    requires find(t) == Some(start - 2) && !Contains(t, c.sentinel)
    ensures Built(c, find, Built(c, find, t)) != Built(c, find, t)
  {
    CommentIsNoImport(c.importLine, d, b, tail);
    CommentGap(d, b);
    CommentedShape(c.importLine, t, d, b, rest, start);
    BelowDiffers(c, find, t, b, tail, start);
  }

  function CommentBlock(d: string): string { "\n" + (("//" + d) + "\n") }

  /** The comment itself is no import. */
  lemma CommentIsNoImport(imp: string, d: string, b: string, tail: string)
    requires PlainImport(imp) && '\n' !in d && b == CommentBlock(d)
    ensures OnlyOne(imp, b, tail) <==> !HasImport(imp, Split(tail))
  {
    var l := "//" + d;
    assert b[..|b| - 1] == "\n" + l;
    SingleLine(l);
    SplitCons('\n', l);
    assert "\n" + l == ['\n'] + l;
    assert !Calm('/') && '/' !in imp && l[0] == '/';
    assert '/' in l && !IsTab('/');
    ForeignIsNoImport(imp, l);
    HasImportOf(imp, l);
  }

  lemma CommentedShape(imp: string, t: string, d: string, b: string, rest: string, start: nat)
    requires d != "" && d[|d| - 1] == '[' && b == CommentBlock(d) && t == Sample(imp, b, "]" + rest)
    requires start == |imp| + |b|
    ensures 2 <= start < |t| && t[start - 2] == '[' && t[start - 1] == '\n' && t[start] == ']'
  {
    var x := imp + ("\n" + "//");
    assert t == (x + d) + ("\n" + ("]" + rest));
    assert (x + d)[|x + d| - 1] == d[|d| - 1];
  }

  /** An opening bracket that ends its line, the closing one first on the next. */
  lemma ClosesBelow(t: string, start: nat)
    requires 2 <= start < |t| && t[start - 2] == '[' && t[start - 1] == '\n' && t[start] == ']'
    ensures CloseOf(t, Some(start - 2)) == Some(start) && LineStart(t, start) == start
  {
    NewlineIsNothing();
    ClosesThere(t, start - 2, "\n");
    FoundClose(t, start - 2, start);
    LineStartIs(t, start, start);
  }
}
