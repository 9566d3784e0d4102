/**
 build_registry of the settings patchers: the marked import, then the list entry
 unless its sentinel is already there; and when building twice equals building once.

 The import step works on lines and the entry step on characters. After the entry
 step its sentinel is in the text, so a second build can only differ in its import
 step: it finds the import line again, or no import to put it behind, or it inserts
 a second one. When the first case can fail is the subject of `RegistryTwice`.
 */
module RegistryPatch {
  import opened PythonText
  import opened Wrappers
  import opened Lexer
  import opened ListPatcher
  import opened TextLines

  /** `skipsClosers` is the variant that steps out of other patches' marked blocks. */
  datatype Config = Config(
    importLine: string, importBegin: string, importEnd: string, skipsClosers: bool, sentinel: string, patch: Patch)

  // ------------------------------------------------------------------- import lines

  predicate IsTab(c: char) { c == ' ' || c == '\t' }

  predicate ImportAt(imp: string, l: string, i: nat) {
    && i + |imp| <= |l| && l[i..i + |imp|] == imp
    && (forall k :: 0 <= k < i ==> IsTab(l[k]))
    && (forall k :: i + |imp| <= k < |l| ==> IsTab(l[k]))
  }

  /** The line holds the import and blanks, nothing else. */
  predicate IsImport(imp: string, l: string) { exists i :: 0 <= i <= |l| && ImportAt(imp, l, i) }

  predicate HasImport(imp: string, lines: seq<string>) { exists l :: l in lines && IsImport(imp, l) }

  /** Number of leading whitespace characters. */
  function Lead(l: string): (n: nat)
    ensures n <= |l| && (n < |l| ==> !IsSpace(l[n])) && forall k :: 0 <= k < n ==> IsSpace(l[k])
  {
    if l == "" || !IsSpace(l[0]) then 0 else 1 + Lead(l[1..])
  }

  /** l.strip().startswith("import "). */
  predicate StartsImport(l: string) {
    var i := Lead(l);
    i + 7 <= |l| && l[i..i + 7] == "import " && exists k :: i + 7 <= k < |l| && !IsSpace(l[k])
  }

  function LastImport(lines: seq<string>): (r: int)
    ensures -1 <= r < |lines|
    decreases |lines|
  {
    if lines == [] then -1
    else if StartsImport(lines[|lines| - 1]) then |lines| - 1
    else LastImport(lines[..|lines| - 1])
  }

  /** A closing marker of some patch. */
  predicate IsClosingMark(l: string) {
    var rest := l[Lead(l)..];
    "//" <= rest && "<<<" <= rest[2..][Lead(rest[2..])..]
  }

  /** First index from `i` on whose line is not of the given kind. */
  function RunEnd(lines: seq<string>, kind: string -> bool, i: nat): (r: nat)
    requires i <= |lines|
    ensures i <= r <= |lines|
    decreases |lines| - i
  {
    if i < |lines| && kind(lines[i]) then RunEnd(lines, kind, i + 1) else i
  }

  function ImportBlock(c: Config): seq<string> { ["", c.importBegin, c.importLine, c.importEnd] }

  /** Where the import block goes; 0 if the text has no import. */
  function Insertion(c: Config, lines: seq<string>): (r: nat)
    ensures r <= |lines| && (r == 0 <==> LastImport(lines) < 0)
  {
    var after := LastImport(lines) + 1;
    if after > 0 && c.skipsClosers then RunEnd(lines, IsClosingMark, after) else after
  }

  function WithImport(c: Config, lines: seq<string>): (r: seq<string>)
    requires lines != []
    ensures r != []
  {
    var ins := Insertion(c, lines);
    if HasImport(c.importLine, lines) || ins == 0 then lines
    else lines[..ins] + ImportBlock(c) + lines[ins..]
  }

  function AddImport(c: Config, text: string): string { Join(WithImport(c, Split(text))) }

  method FindLastImport(lines: seq<string>) returns (ins: nat)
    ensures ins == LastImport(lines) + 1
  {
    var i := 0;
    ins := 0;
    while i < |lines|
      invariant i <= |lines| && ins == LastImport(lines[..i]) + 1
    {
      assert lines[..i + 1][..i] == lines[..i];
      if StartsImport(lines[i]) {
        ins := i + 1;
      }
      i := i + 1;
    }
    assert lines[..i] == lines;
  }

  method SkipRun(lines: seq<string>, kind: string -> bool, first: nat) returns (i: nat)
    requires first <= |lines|
    ensures i == RunEnd(lines, kind, first)
  {
    i := first;
    while i < |lines| && kind(lines[i])
      invariant first <= i <= |lines| && RunEnd(lines, kind, i) == RunEnd(lines, kind, first)
    {
      i := i + 1;
    }
  }

  method FindInsertion(c: Config, lines: seq<string>) returns (ins: nat)
    ensures ins == Insertion(c, lines)
  {
    var after := FindLastImport(lines);
    ins := after;
    if after > 0 && c.skipsClosers {
      ins := SkipRun(lines, IsClosingMark, after);
    }
  }

  method AddMarkedImport(c: Config, text: string) returns (r: string, changed: bool, found: bool)
    ensures r == AddImport(c, text)
    ensures found <==> HasImport(c.importLine, Split(text)) || LastImport(Split(text)) >= 0
    ensures changed <==> found && !HasImport(c.importLine, Split(text))
  {
    var lines := Split(text);
    JoinSplit(text);
    if HasImport(c.importLine, lines) {
      return text, false, true;
    }
    var ins := FindInsertion(c, lines);
    if ins == 0 {
      return text, false, false;
    }
    return Join(lines[..ins] + ImportBlock(c) + lines[ins..]), true, true;
  }

  // ----------------------------------------------------------------- build_registry

  predicate FoundAt(s: string, w: string, i: nat) { i + |w| <= |s| && s[i..i + |w|] == w }

  predicate Contains(s: string, w: string) { exists i :: 0 <= i <= |s| && FoundAt(s, w, i) }

  function FirstFrom(s: string, k: nat): (r: int)
    ensures r == -1 || (k <= r < |s| && Closing(s, r, '[', ']'))
    ensures forall j :: k <= j < (if r < 0 then |s| else r) ==> !Closing(s, j, '[', ']')
    decreases |s| - k
  {
    if k >= |s| then -1 else if Closing(s, k, '[', ']') then k else FirstFrom(s, k + 1)
  }

  /** Where the list at `open0` is closed, if it is. */
  function CloseOf(text: string, open0: Option<nat>): (r: Option<nat>)
    requires open0.Some? ==> open0.value < |text|
    ensures r.Some? ==> open0.Some? && IsClose(text, open0.value, r.value)
  {
    if open0.None? then Option.None
    else
      var k := FirstFrom(text[open0.value..], 0);
      if k < 0 then Option.None else Some(open0.value + k)
  }

  /** `find` gives the opening bracket of the list declaration; it is any function of the text. */
  ghost predicate Locates(find: string -> Option<nat>) {
    forall t :: find(t).Some? ==> find(t).value < |t|
  }

  /** The entry step, on a text that has had its import step. */
  ghost function Entered(c: Config, find: string -> Option<nat>, t: string): string
    requires Locates(find)
  {
    if Contains(t, c.sentinel) then t
    else
      var close := CloseOf(t, find(t));
      if close.None? then t else Inserted(t, close.value, c.patch)
  }

  ghost function Built(c: Config, find: string -> Option<nat>, text: string): string
    requires Locates(find)
  {
    Entered(c, find, AddImport(c, text))
  }

  lemma CloseIsUnique(text: string, open0: nat, a: nat, b: nat)
    requires IsClose(text, open0, a) && IsClose(text, open0, b)
    ensures a == b
  {
    var s := text[open0..];
    assert Closing(s, a - open0, '[', ']') && Closing(s, b - open0, '[', ']');
  }

  lemma InsertedIsEntered(c: Config, find: string -> Option<nat>, t: string, k: nat)
    requires Locates(find) && !Contains(t, c.sentinel) && find(t).Some? && IsClose(t, find(t).value, k)
    ensures Inserted(t, k, c.patch) == Entered(c, find, t)
  {
    var open0 := find(t).value;
    assert Closing(t[open0..], k - open0, '[', ']');
    CloseIsUnique(t, open0, k, CloseOf(t, find(t)).value);
  }

  method EnterEntry(c: Config, find: string -> Option<nat>, t: string) returns (r: string)
    requires Locates(find)
    ensures r == Entered(c, find, t)
  {
    if Contains(t, c.sentinel) {
      return t;
    }
    var ok;
    r, ok := InsertEntry(t, find(t), c.patch);
    if ok {
      ghost var k :| IsClose(t, find(t).value, k) && r == Inserted(t, k, c.patch);
      InsertedIsEntered(c, find, t, k);
    }
  }

  method BuildRegistry(c: Config, find: string -> Option<nat>, text: string) returns (r: string)
    requires Locates(find)
    ensures r == Entered(c, find, AddImport(c, text)) == Built(c, find, text)
  {
    var changed, found;
    r, changed, found := AddMarkedImport(c, text);
    r := EnterEntry(c, find, r);
  }

  // --------------------------------------------------------- twice against once

  lemma ContainsInside(a: string, w: string, b: string, x: string)
    requires Contains(w, x)
    ensures Contains(a + w + b, x)
  {
    var i :| 0 <= i <= |w| && FoundAt(w, x, i);
    assert (a + w + b)[|a| + i..|a| + i + |x|] == w[i..i + |x|];
    assert FoundAt(a + w + b, x, |a| + i);
  }

  lemma {:induction false} BlockContains(indent: string, lines: seq<string>, l: string, x: string)
    requires l in lines && Contains(l, x)
    ensures Contains(BlockText(indent, lines), x)
    decreases |lines|
  {
    var rest := BlockText(indent, lines[1..]);
    if l == lines[0] {
      ContainsInside(indent, l, "\n" + rest, x);
      assert indent + l + ("\n" + rest) == indent + l + "\n" + rest;
    } else {
      assert l in lines[1..];
      BlockContains(indent, lines[1..], l, x);
      ContainsInside(indent + lines[0] + "\n", rest, "", x);
      assert indent + lines[0] + "\n" + rest + "" == indent + lines[0] + "\n" + rest;
    }
  }

  /** The sentinel is in one line of the entry. */
  predicate SentinelOk(c: Config) { exists l :: l in Lines(c.patch) && Contains(l, c.sentinel) }

  lemma EnteredHasSentinel(c: Config, text: string, close: nat)
    requires SentinelOk(c) && close <= |text|
    ensures Contains(Inserted(text, close, c.patch), c.sentinel)
  {
    var l :| l in Lines(c.patch) && Contains(l, c.sentinel);
    var start := LineStart(text, close);
    BlockContains(text[start..close], Lines(c.patch), l, c.sentinel);
    ContainsInside(WithComma(text[..start]), BlockText(text[start..close], Lines(c.patch)), text[start..], c.sentinel);
  }

  /** Without another import step, the entry step changes nothing more. */
  lemma EnteredTwice(c: Config, find: string -> Option<nat>, t: string)
    requires Locates(find) && SentinelOk(c)
    ensures Entered(c, find, Entered(c, find, t)) == Entered(c, find, t)
  {
    if !Contains(t, c.sentinel) {
      var close := CloseOf(t, find(t));
      if close.Some? {
        EnteredHasSentinel(c, t, close.value);
      }
    }
  }

  lemma EnteredIsNoShorter(c: Config, find: string -> Option<nat>, t: string)
    requires Locates(find)
    ensures |Entered(c, find, t)| >= |t|
  {
    if !Contains(t, c.sentinel) && CloseOf(t, find(t)).Some? {
      InsertedIsNoShorter(t, CloseOf(t, find(t)).value, c.patch);
    }
  }

  lemma InsertedIsNoShorter(t: string, close: nat, p: Patch)
    requires close <= |t|
    ensures |Inserted(t, close, p)| >= |t|
  {
    var head := t[..LineStart(t, close)];
    assert |WithComma(head)| >= |head|;
  }

  lemma ImportStep(c: Config, text: string)
    ensures HasImport(c.importLine, Split(text)) || LastImport(Split(text)) < 0 ==> AddImport(c, text) == text
    ensures !HasImport(c.importLine, Split(text)) && LastImport(Split(text)) >= 0 ==> |AddImport(c, text)| > |text|
  {
    JoinSplit(text);
    var lines := Split(text);
    var ins := Insertion(c, lines);
    if !HasImport(c.importLine, lines) && ins > 0 {
      JoinLength(lines[..ins], ImportBlock(c), lines[ins..]);
      assert lines[..ins] + lines[ins..] == lines;
    }
  }

  /** The text after one build has the import line, or no import at all to put it behind. */
  ghost predicate Settled(c: Config, text: string) { HasImport(c.importLine, Split(text)) || LastImport(Split(text)) < 0 }

  /** Building a built text again changes nothing exactly when its import step is settled. */
  lemma BuildTwiceIffSettled(c: Config, find: string -> Option<nat>, text: string)
    requires Locates(find) && SentinelOk(c)
    ensures Built(c, find, Built(c, find, text)) == Built(c, find, text) <==> Settled(c, Built(c, find, text))
  {
    var once := Built(c, find, text);
    ImportStep(c, once);
    EnteredTwice(c, find, AddImport(c, text));
    EnteredIsNoShorter(c, find, AddImport(c, once));
  }

  // ----------------------------------------------- what the entry step does to lines

  /** The line holds something that is neither blank nor a character of the import. */
  predicate Foreign(imp: string, l: string) { exists ch :: ch in l && !IsTab(ch) && ch !in imp }

  lemma ForeignIsNoImport(imp: string, l: string)
    requires Foreign(imp, l)
    ensures !IsImport(imp, l)
  {
    var ch :| ch in l && !IsTab(ch) && ch !in imp;
    var k :| 0 <= k < |l| && l[k] == ch;
    forall i | 0 <= i <= |l| ensures !ImportAt(imp, l, i) {
      if i <= k < i + |imp| <= |l| {
        assert l[i..i + |imp|][k - i] == ch;
      }
    }
  }

  lemma ForeignInside(imp: string, a: string, l: string)
    requires Foreign(imp, l)
    ensures Foreign(imp, a + l)
  {
    var ch :| ch in l && !IsTab(ch) && ch !in imp;
    assert ch in a + l;
  }

  lemma HasImportSum(imp: string, a: seq<string>, b: seq<string>)
    ensures HasImport(imp, a + b) <==> HasImport(imp, a) || HasImport(imp, b)
  {
    assert forall l :: l in a + b <==> l in a || l in b;
  }

  function Indented(indent: string, lines: seq<string>): seq<string>
    decreases |lines|
  {
    if lines == [] then [] else [indent + lines[0]] + Indented(indent, lines[1..])
  }

  lemma {:induction false} BlockLines(indent: string, lines: seq<string>, rest: string)
    requires '\n' !in indent && forall l :: l in lines ==> '\n' !in l
    ensures Split(BlockText(indent, lines) + rest) == Indented(indent, lines) + Split(rest)
    decreases |lines|
  {
    if lines == [] {
      assert BlockText(indent, lines) + rest == rest;
      assert Indented(indent, lines) + Split(rest) == Split(rest);
    } else {
      var first, more := indent + lines[0], BlockText(indent, lines[1..]);
      assert lines[0] in lines && forall l :: l in lines[1..] ==> l in lines;
      BlockLines(indent, lines[1..], rest);
      FirstLine(first, more, rest);
      AssocLines([first], Indented(indent, lines[1..]), Split(rest));
    }
  }

  lemma AssocLines(a: seq<string>, b: seq<string>, c: seq<string>)
    ensures a + b + c == a + (b + c)
  {
  }

  lemma FirstLine(first: string, more: string, rest: string)
    requires '\n' !in first
    ensures Split(first + "\n" + more + rest) == [first] + Split(more + rest)
  {
    SingleLine(first);
    SplitAtNewline(first, more + rest);
    assert first + "\n" + more + rest == first + ("\n" + (more + rest));
  }

  lemma {:induction false} IndentedIsForeign(imp: string, indent: string, lines: seq<string>)
    requires forall l :: l in lines ==> Foreign(imp, l)
    ensures !HasImport(imp, Indented(indent, lines))
    decreases |lines|
  {
    if lines != [] {
      assert lines[0] in lines && forall l :: l in lines[1..] ==> l in lines;
      ForeignInside(imp, indent, lines[0]);
      ForeignIsNoImport(imp, indent + lines[0]);
      IndentedIsForeign(imp, indent, lines[1..]);
      HasImportSum(imp, [indent + lines[0]], Indented(indent, lines[1..]));
      assert forall l :: l in [indent + lines[0]] ==> l == indent + lines[0];
    }
  }

  lemma NoNewlineJoins(a: seq<string>, b: seq<string>)
    requires (forall l :: l in a ==> '\n' !in l) && forall l :: l in b ==> '\n' !in l
    ensures forall l :: l in a + b ==> '\n' !in l
  {
  }

  lemma ImportLineIsImport(imp: string, a: seq<string>, b: seq<string>)
    requires imp in a
    ensures HasImport(imp, a + b)
  {
    assert imp in a + b;
    assert ImportAt(imp, imp, 0);
  }

  lemma ImportBlockLines(c: Config)
    requires '\n' !in c.importLine && '\n' !in c.importBegin && '\n' !in c.importEnd
    ensures c.importLine in ImportBlock(c) && forall l :: l in ImportBlock(c) ==> '\n' !in l
  {
    assert ImportBlock(c)[2] == c.importLine;
  }

  /** After its import step, a text that had an import has the import line. */
  lemma ImportIsThere(c: Config, text: string)
    requires '\n' !in c.importLine && '\n' !in c.importBegin && '\n' !in c.importEnd
    requires HasImport(c.importLine, Split(text)) || LastImport(Split(text)) >= 0
    ensures HasImport(c.importLine, Split(AddImport(c, text)))
  {
    var lines := Split(text);
    JoinSplit(text);
    if !HasImport(c.importLine, lines) {
      var ins := Insertion(c, lines);
      var upper, lower := lines[..ins] + ImportBlock(c), lines[ins..];
      LinesHaveNoNewline(text);
      ImportBlockLines(c);
      assert forall l :: l in lines[..ins] ==> l in lines;
      assert forall l :: l in lower ==> l in lines;
      NoNewlineJoins(lines[..ins], ImportBlock(c));
      NoNewlineJoins(upper, lower);
      SplitJoin(upper + lower);
      assert c.importLine in upper;
      ImportLineIsImport(c.importLine, upper, lower);
    }
  }
}
