/**
 When build_registry is idempotent, for every text. A text without any import stays without
 one, unless a line of the entry becomes one behind what stands in front of the closing
 bracket; with an import the comma decides, as `RegistryTwice` shows.

 The entry's lines are put behind that indent, so a text that ends a list with `import]` gets
 lines that begin like imports. The separating comma makes no line an import: it would have to
 stand behind a blank that is the last significant character, and such a blank is in a string,
 which ends right behind it.
 */
module RegistryBare {
  import opened PythonText
  import opened Wrappers
  import opened Lexer
  import opened QmlTokens
  import opened ListPatcher
  import opened TextLines
  import opened RegistryPatch
  import opened RegistryTwice

  predicate Begins(lines: seq<string>) { exists l :: l in lines && StartsImport(l) }

  lemma {:induction false} LastImportIff(lines: seq<string>)
    ensures LastImport(lines) >= 0 <==> Begins(lines)
    decreases |lines|
  {
    if lines != [] {
      var rest, l := lines[..|lines| - 1], lines[|lines| - 1];
      assert lines == rest + [l] && l in lines;
      assert forall k :: k in lines ==> k in rest || k == l;
      LastImportIff(rest);
    }
  }

  lemma BeginsSum(a: seq<string>, b: seq<string>)
    ensures Begins(a + b) <==> Begins(a) || Begins(b)
  {
    assert forall l :: l in a + b <==> l in a || l in b;
  }

  lemma BeginsOne(l: string)
    ensures Begins([l]) <==> StartsImport(l)
  {
    assert l in [l];
  }

  // ----------------------------------------------------------------- lines of the text

  /** The word ends before a character that it does not have. */
  lemma WordEnds(l: string, i: nat, k: nat)
    requires i <= k < |l| && i + 7 <= |l| && l[i..i + 7] == "import " && l[k] !in "import "
    ensures i + 7 <= k
  {
    forall j | i <= j < i + 7 ensures l[j] in "import " {
      assert l[j] == l[i..i + 7][j - i];
    }
  }

  lemma LeadUpTo(l: string, k: nat)
    requires k < |l| && !IsSpace(l[k])
    ensures Lead(l) <= k
  {
  }

  /** Where the word may stand in a line that has another character in it. */
  lemma WordBefore(x: string, l: string)
    requires |x| < |l| && l[..|x|] == x && !IsSpace(l[|x|]) && l[|x|] !in "import " && StartsImport(l)
    ensures Lead(l) + 7 <= |x| && Lead(x) == Lead(l) && x[Lead(l)..Lead(l) + 7] == "import "
  {
    LeadUpTo(l, |x|);
    WordEnds(l, Lead(l), |x|);
    WordIn(x, l, Lead(l));
  }

  lemma WordIn(x: string, l: string, i: nat)
    requires i == Lead(l) && i + 7 <= |x| <= |l| && x == l[..|x|] && l[i..i + 7] == "import "
    ensures Lead(x) == i && x[i..i + 7] == "import "
  {
    assert x[i] == l[i..i + 7][0] == 'i';
    assert forall k :: 0 <= k < i ==> x[k] == l[k];
    LeadIs(x, i);
  }

  /** The closing bracket is behind an import if the entry's first marker would be. */
  lemma FirstLineIsNone(indent: string, l: string, more: string)
    requires l != "" && l[0] == '/' && StartsImport(indent + l)
    ensures StartsImport(indent + ([']'] + more))
  {
    assert (indent + l)[|indent|] == '/';
    WordBefore(indent, indent + l);
    var line := indent + ([']'] + more);
    var i := Lead(indent);
    assert forall k :: 0 <= k <= i ==> line[k] == indent[k];
    LeadIs(line, i);
    assert line[i..i + 7] == indent[i..i + 7];
    assert line[|indent|] == ']' && !IsSpace(']');
  }

  /** A comma in a line makes it an import only if it was one or ends in blanks around it. */
  lemma CommaMakesNone(x: string, y: string)
    requires StartsImport(x + ("," + y)) && !StartsImport(x + y)
    ensures x != "" && IsSpace(x[|x| - 1]) && forall k :: 0 <= k < |y| ==> IsSpace(y[k])
  {
    assert (x + ("," + y))[|x|] == ',';
    WordBefore(x, x + ("," + y));
    var i, l := Lead(x), x + y;
    assert forall k :: 0 <= k <= i ==> l[k] == x[k];
    LeadIs(l, i);
    assert l[i..i + 7] == x[i..i + 7];
    assert x[i..i + 7][6] == ' ' == x[i + 6];
    forall k | 0 <= k < |y| ensures IsSpace(y[k]) {
      assert l[|x| + k] == y[k];
    }
    if |x| > i + 7 {
      assert l[|x| - 1] == x[|x| - 1];
    }
  }

  /** A blank that is significant is in a string. */
  lemma BlankIsInString(u: string)
    requires u != "" && IsSpace(u[|u| - 1]) && LastBefore(u) == |u| - 1
    ensures Run(Code, u).Quoted? && IsQuote(Run(Code, u).q)
  {
    var s, c := u[..|u| - 1], u[|u| - 1];
    assert u == s + [c];
    NextMarks(s, c);
    QuotesAreQuotes(s);
  }

  lemma StringGoesOn(u: string, z: char)
    requires Run(Code, u).Quoted? && IsQuote(Run(Code, u).q) && LastBefore(u) == |u| - 1 == LastBefore(u + [z])
    ensures !IsSpace(z)
  {
    NextMarks(u, z);
  }

  /** Behind a blank that is the last significant character comes the end of its string. */
  lemma StringEnds(u: string, z: char, r: string)
    requires u != "" && IsSpace(u[|u| - 1]) && LastBefore(u + ([z] + r)) == |u| - 1
    ensures !IsSpace(z)
  {
    ModeAfterLast(u, [z] + r);
    BlankIsInString(u);
    assert u + ([z] + r) == (u + [z]) + r;
    StillLast(u, [z], r);
    StringGoesOn(u, z);
  }

  lemma CommaLineIsNone(t: string, start: nat)
    requires 0 < start <= |t| && t[start - 1] == '\n' && CommaAt(t[..start]) >= 0
    requires !Begins(Split(t[..start - 1]))
    ensures var n := CommaAt(t[..start]);
      n < start && !StartsImport(Bottom(t[..n]) + ("," + Top(t[n..start - 1])))
  {
    HeadOfHit(t, start);
    var n := CommaAt(t[..start]);
    var u, v := t[..n], t[n..start - 1];
    var x, y := Bottom(u), Top(v);
    assert t[..start - 1] == u + v;
    SplitHere(u, v);
    var lines := Above(u) + [x + y] + Below(v);
    assert lines[|Above(u)|] == x + y;
    assert x + y in lines;
    if StartsImport(x + ("," + y)) {
      CommaMakesNone(x, y);
      LastLineIsSuffix(u);
      assert u[|u| - 1] == u[|u| - |x|..][|x| - 1];
      NextIsBlank(v, y);
      var z, r := (v + "\n")[0], (v + "\n")[1..];
      assert v + "\n" == [z] + r;
      StringEnds(u, z, r);
    }
  }

  lemma NextIsBlank(v: string, y: string)
    requires y == Top(v) && forall k :: 0 <= k < |y| ==> IsSpace(y[k])
    ensures IsSpace((v + "\n")[0])
  {
    if v != "" && v[0] != '\n' {
      SplitCons(v[0], v[1..]);
      assert v == [v[0]] + v[1..];
      assert y[0] == v[0];
    }
  }

  // ------------------------------------------------------------------ lines of the entry

  predicate EntryBegins(indent: string, lines: seq<string>) {
    exists i :: 0 <= i < |lines| && StartsImport(indent + lines[i])
  }

  lemma {:induction false} IndentedBegins(indent: string, lines: seq<string>)
    ensures Begins(Indented(indent, lines)) <==> EntryBegins(indent, lines)
    decreases |lines|
  {
    if lines != [] {
      IndentedBegins(indent, lines[1..]);
      BeginsSum([indent + lines[0]], Indented(indent, lines[1..]));
      BeginsOne(indent + lines[0]);
      assert forall i :: 0 <= i < |lines[1..]| ==> lines[1..][i] == lines[i + 1];
      if EntryBegins(indent, lines) && !StartsImport(indent + lines[0]) {
        var i :| 0 <= i < |lines| && StartsImport(indent + lines[i]);
        assert lines[1..][i - 1] == lines[i];
      }
      if EntryBegins(indent, lines[1..]) {
        var i :| 0 <= i < |lines[1..]| && StartsImport(indent + lines[1..][i]);
        assert StartsImport(indent + lines[i + 1]);
      }
    }
  }

  lemma CommaFirst(l: string)
    ensures !StartsImport("," + l)
  {
    var line := "," + l;
    assert line[0] == ',' && !IsSpace(',');
    LeadIs(line, 0);
    assert |line| >= 7 ==> line[0..7][0] == ',';
    assert "import "[0] == 'i';
  }

  /** A comma in front of the first line changes nothing when that line is no import. */
  lemma CommaInFrontOf(ind: seq<string>, rest: seq<string>)
    requires ind != [] && !StartsImport(ind[0])
    ensures Begins(["," + (ind + rest)[0]] + (ind + rest)[1..]) <==> Begins(ind + rest)
  {
    var l, more := "," + ind[0], (ind + rest)[1..];
    assert ind + rest == [ind[0]] + more;
    BeginsSum([l], more);
    BeginsSum([ind[0]], more);
    BeginsOne(ind[0]);
    BeginsOne(l);
    CommaFirst(ind[0]);
  }

  // -------------------------------------------------------------------- the whole text

  /** What the insertion needs: the list is closed at `close`, no line is an import. */
  predicate Bare(t: string, start: nat, close: nat, p: Patch) {
    && close < |t| && t[close] == ']' && start == LineStart(t, close) && !Begins(Split(t))
    && p.begin != "" && p.begin[0] == '/' && forall l :: l in Lines(p) ==> '\n' !in l
  }

  lemma FirstIsNone(t: string, start: nat, close: nat, p: Patch)
    requires Bare(t, start, close, p) && !Begins(Split(t[start..]))
    ensures !StartsImport(Indented(t[start..close], Lines(p))[0])
  {
    var indent, more := t[start..close], t[close + 1..];
    assert t[start..] == indent + ([']'] + more);
    SplitHere(indent, [']'] + more);
    SingleLine(indent);
    SplitCons(']', more);
    var line := Split(t[start..])[0];
    assert line == indent + ([']'] + Split(more)[0]);
    assert line in Split(t[start..]);
    if StartsImport(indent + p.begin) {
      FirstLineIsNone(indent, p.begin, Split(more)[0]);
    }
  }

  /** The lines from the insertion on. */
  lemma TailBegins(t: string, start: nat, close: nat, p: Patch)
    requires Bare(t, start, close, p) && !Begins(Split(t[start..]))
    ensures var tail := BlockText(t[start..close], Lines(p)) + t[start..];
      && (Begins(Split(tail)) <==> EntryBegins(t[start..close], Lines(p)))
      && (Begins(Split("," + tail)) <==> EntryBegins(t[start..close], Lines(p)))
  {
    var indent, rest := t[start..close], t[start..];
    var ind := Indented(indent, Lines(p));
    BlockLines(indent, Lines(p), rest);
    IndentedBegins(indent, Lines(p));
    BeginsSum(ind, Split(rest));
    SplitComma(BlockText(indent, Lines(p)) + rest);
    FirstIsNone(t, start, close, p);
    CommaInFrontOf(ind, Split(rest));
  }

  lemma LinesBegin(a: string, tail: string)
    ensures Begins(Split(a + ("\n" + tail))) <==> Begins(Split(a)) || Begins(Split(tail))
  {
    SplitAtNewline(a, tail);
    BeginsSum(Split(a), Split(tail));
  }

  lemma CommaInsideBegins(t: string, start: nat)
    requires 0 < start <= |t| && t[start - 1] == '\n' && CommaAt(t[..start]) >= 0
    requires !Begins(Split(t[..start - 1]))
    ensures var n := CommaAt(t[..start]); n < start && !Begins(Split(t[..n] + ("," + t[n..start - 1])))
  {
    CommaLineIsNone(t, start);
    var n := CommaAt(t[..start]);
    var u, v := t[..n], t[n..start - 1];
    assert t[..start - 1] == u + v;
    SplitHere(u, v);
    SplitWithComma(u, v);
    BeginsAround(Above(u), Bottom(u) + Top(v), Below(v));
    BeginsAround(Above(u), Bottom(u) + ("," + Top(v)), Below(v));
  }

  lemma BeginsAround(a: seq<string>, l: string, b: seq<string>)
    ensures Begins(a + [l] + b) <==> Begins(a) || StartsImport(l) || Begins(b)
  {
    BeginsSum(a + [l], b);
    BeginsSum(a, [l]);
    BeginsOne(l);
  }

  /** The text after the insertion has an import line iff the entry brings one. */
  lemma InsertedBeginsIff(t: string, start: nat, close: nat, p: Patch)
    requires Bare(t, start, close, p)
    ensures Begins(Split(Inserted(t, close, p))) <==> EntryBegins(t[start..close], Lines(p))
  {
    if start == 0 {
      assert t[0..] == t;
      InsertedFirst(t, close, p);
      TailBegins(t, 0, close, p);
    } else {
      var tail := BlockText(t[start..close], Lines(p)) + t[start..];
      CutLines(t, start);
      BeginsSum(Split(t[..start - 1]), Split(t[start..]));
      TailBegins(t, start, close, p);
      if CommaAt(t[..start]) < 0 {
        InsertedAfter(t, start, close, p);
        LinesBegin(t[..start - 1], tail);
        LinesBegin(t[..start - 1], "," + tail);
      } else {
        InsertedInside(t, start, close, p);
        CommaInsideBegins(t, start);
        LinesBegin(t[..CommaAt(t[..start])] + ("," + t[CommaAt(t[..start])..start - 1]), tail);
      }
    }
  }

  lemma ImportBegins(imp: string, lines: seq<string>)
    requires PlainImport(imp) && HasImport(imp, lines)
    ensures Begins(lines)
  {
    var l :| l in lines && IsImport(imp, l);
    var i :| 0 <= i <= |l| && ImportAt(imp, l, i);
    assert l[i..i + 7] == l[i..i + |imp|][..7] == imp[..7];
    assert l[i] == l[i..i + 7][0] == 'i';
    assert l[i + |imp| - 1] == l[i..i + |imp|][|imp| - 1];
    assert IsSpace(' ') && IsSpace('\t');
    LeadIs(l, i);
  }

  lemma OthersAreLines(t: string, start: nat)
    requires 0 < start <= |t| && t[start - 1] == '\n' && CommaAt(t[..start]) >= 0 && !Begins(Split(t))
    ensures !Begins(OtherLines(t, start))
  {
    HeadOfHit(t, start);
    OtherLinesInside(t, start);
    CutLines(t, start);
    var n := CommaAt(t[..start]);
    var u, v := t[..n], t[n..start - 1];
    assert t[..start - 1] == u + v;
    SplitHere(u, v);
    BeginsSum(Split(t[..start - 1]), Split(t[start..]));
    BeginsAround(Above(u), Bottom(u) + Top(v), Below(v));
    BeginsSum(Above(u) + Below(v), Split(t[start..]));
    BeginsSum(Above(u), Below(v));
  }

  /** No line holds the patch's own import after the insertion. */
  lemma InsertedHasNone(imp: string, t: string, start: nat, close: nat, p: Patch)
    requires Bare(t, start, close, p) && PlainImport(imp) && PatchOk(imp, Lines(p))
    ensures !HasImport(imp, Split(Inserted(t, close, p)))
  {
    assert ',' !in imp;
    ImportSurvivesIff(imp, t, close, p);
    if start > 0 && CommaAt(t[..start]) >= 0 {
      OthersAreLines(t, start);
    }
    if HasImport(imp, OtherLines(t, start)) {
      ImportBegins(imp, OtherLines(t, start));
    }
  }

  // ------------------------------------------------------------------- main result

  /** The entry begins with a comment. */
  predicate Marked(c: Config) { c.patch.begin != "" && c.patch.begin[0] == '/' }

  /** What a caller can check on a text without imports: the entry is there, or there is no
      list, or no line of it becomes an import behind what stands before the bracket. */
  ghost predicate EntryIsNoImport(c: Config, find: string -> Option<nat>, t: string)
    requires Locates(find)
  {
    Contains(t, c.sentinel) || CloseOf(t, find(t)).None?
    || var close := CloseOf(t, find(t)).value; !EntryBegins(t[LineStart(t, close)..close], Lines(c.patch))
  }

  lemma BareTwiceIff(c: Config, find: string -> Option<nat>, t: string)
    requires Locates(find) && Fits(c) && Marked(c)
    requires !HasImport(c.importLine, Split(t)) && LastImport(Split(t)) < 0
    ensures Built(c, find, Built(c, find, t)) == Built(c, find, t) <==> EntryIsNoImport(c, find, t)
  {
    BuildTwiceIffSettled(c, find, t);
    ImportStep(c, t);
    LastImportIff(Split(t));
    if !Contains(t, c.sentinel) && CloseOf(t, find(t)).Some? {
      var close := CloseOf(t, find(t)).value;
      var start := LineStart(t, close);
      assert t[find(t).value..][close - find(t).value] == ']';
      LastImportIff(Split(Inserted(t, close, c.patch)));
      InsertedBeginsIff(t, start, close, c.patch);
      InsertedHasNone(c.importLine, t, start, close, c.patch);
    }
  }

  /** build_registry twice equals once, for every text: with an import iff the comma spares the
      import line, without one iff the entry brings none. */
  lemma BuildTwiceIsOnceIff(c: Config, find: string -> Option<nat>, text: string)
    requires Locates(find) && Fits(c) && Marked(c)
    ensures Built(c, find, Built(c, find, text)) == Built(c, find, text)
      <==> if HasImport(c.importLine, Split(text)) || LastImport(Split(text)) >= 0
           then CommaSpares(c, find, AddImport(c, text))
           else EntryIsNoImport(c, find, text)
  {
    if HasImport(c.importLine, Split(text)) || LastImport(Split(text)) >= 0 {
      ImportedTwiceIff(c, find, text);
    } else {
      BareTwiceIff(c, find, text);
    }
  }
}
