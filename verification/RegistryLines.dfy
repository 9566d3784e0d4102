/**
 What build_registry writes, line by line: which lines count as imports and as other
 patches' closing markers, where the import block goes, and the lines of the entry.
 */
module RegistryLines {
  import opened PythonText
  import opened Lexer
  import QmlTokens
  import opened ListPatcher
  import opened TextLines
  import opened RegistryPatch

  // ---------------------------------------------------------------- kinds of lines

  lemma LeadIs(l: string, a: string, s: string)
    requires AllSpace(a) && l == a + s && s != "" && !IsSpace(s[0])
    ensures Lead(l) == |a|
  {
    assert l[|a|] == s[0];
  }

  lemma LeadParts(l: string)
    ensures AllSpace(l[..Lead(l)]) && l == l[..Lead(l)] + l[Lead(l)..]
  {
  }

  /** White space, `//`, white space, `<<<`, anything. */
  predicate ClosingAt(l: string, a: string, b: string, rest: string) {
    AllSpace(a) && AllSpace(b) && l == a + ("//" + (b + ("<<<" + rest)))
  }

  lemma ClosingMarkIff(l: string)
    ensures IsClosingMark(l) <==> exists a, b, rest :: ClosingAt(l, a, b, rest)
  {
    if IsClosingMark(l) {
      var a, b, rest := ClosingParts(l);
    }
    forall a, b, rest | ClosingAt(l, a, b, rest) ensures IsClosingMark(l) {
      ClosingHolds(l, a, b, rest);
    }
  }

  lemma ClosingParts(l: string) returns (a: string, b: string, rest: string)
    requires IsClosingMark(l)
    ensures ClosingAt(l, a, b, rest)
  {
    LeadParts(l);
    a := l[..Lead(l)];
    var s := l[Lead(l)..];
    b, rest := ClosingTail(s[2..]);
    assert s == "//" + s[2..];
  }

  lemma ClosingTail(t: string) returns (b: string, rest: string)
    requires "<<<" <= t[Lead(t)..]
    ensures AllSpace(b) && t == b + ("<<<" + rest)
  {
    LeadParts(t);
    b := t[..Lead(t)];
    rest := t[Lead(t)..][3..];
    assert t[Lead(t)..] == "<<<" + rest;
  }

  lemma ClosingHolds(l: string, a: string, b: string, rest: string)
    requires ClosingAt(l, a, b, rest)
    ensures IsClosingMark(l)
  {
    var tail := b + ("<<<" + rest);
    LeadIs(l, a, "//" + tail);
    assert ("//" + tail)[2..] == tail;
    LeadIs(tail, b, "<<<" + rest);
  }

  /** White space, the word `import`, a space, and something that is not blank. */
  predicate ImportLineAt(l: string, a: string, rest: string) { AllSpace(a) && !AllSpace(rest) && l == a + ("import " + rest) }

  lemma StartsImportIff(l: string)
    ensures StartsImport(l) <==> exists a, rest :: ImportLineAt(l, a, rest)
  {
    if StartsImport(l) {
      var a, rest := ImportParts(l);
    }
    forall a, rest | ImportLineAt(l, a, rest) ensures StartsImport(l) {
      ImportHolds(l, a, rest);
    }
  }

  lemma ImportParts(l: string) returns (a: string, rest: string)
    requires StartsImport(l)
    ensures ImportLineAt(l, a, rest)
  {
    var i := Lead(l);
    LeadParts(l);
    var k :| i + 7 <= k < |l| && !IsSpace(l[k]);
    a, rest := l[..i], l[i + 7..];
    assert rest[k - i - 7] == l[k];
    assert l[i..] == l[i..i + 7] + rest;
  }

  lemma ImportHolds(l: string, a: string, rest: string)
    requires ImportLineAt(l, a, rest)
    ensures StartsImport(l)
  {
    LeadIs(l, a, "import " + rest);
    var j :| 0 <= j < |rest| && !IsSpace(rest[j]);
    assert l[|a| + 7 + j] == rest[j];
    assert l[|a|..|a| + 7] == "import ";
  }

  predicate AllTab(s: string) { forall i :: 0 <= i < |s| ==> s[i] == ' ' || s[i] == '\t' }

  /** Blanks or tabs, the import, blanks or tabs. */
  predicate ThisImportAt(imp: string, l: string, a: string, b: string) { AllTab(a) && AllTab(b) && l == a + (imp + b) }

  /** The line that makes another import needless. */
  lemma IsImportIff(imp: string, l: string)
    ensures IsImport(imp, l) <==> exists a, b :: ThisImportAt(imp, l, a, b)
  {
    if IsImport(imp, l) {
      var i :| 0 <= i <= |l| && ImportAt(imp, l, i);
      assert l == l[..i] + (l[i..i + |imp|] + l[i + |imp|..]);
      assert ThisImportAt(imp, l, l[..i], l[i + |imp|..]);
    }
    forall a, b | ThisImportAt(imp, l, a, b) ensures IsImport(imp, l) {
      assert l[|a|..|a| + |imp|] == imp;
      assert forall k :: |a| + |imp| <= k < |l| ==> l[k] == b[k - |a| - |imp|];
      assert ImportAt(imp, l, |a|);
    }
  }

  // --------------------------------------------------------------- the import block

  lemma {:induction false} LastImportIs(lines: seq<string>, k: nat)
    requires IsLastImport(lines, k)
    ensures LastImport(lines) == k
    decreases |lines|
  {
    if k < |lines| - 1 {
      LastImportIs(lines[..|lines| - 1], k);
    }
  }

  lemma {:induction false} RunEndIs(lines: seq<string>, kind: string -> bool, i: nat, r: nat)
    requires i <= r <= |lines| && (forall j :: i <= j < r ==> kind(lines[j])) && (r < |lines| ==> !kind(lines[r]))
    ensures RunEnd(lines, kind, i) == r
    decreases r - i
  {
    if i < r {
      RunEndIs(lines, kind, i + 1, r);
    }
  }

  /** The first place behind line `k` that the step out of other patches' markers leads to. */
  predicate StepsOutTo(c: Config, lines: seq<string>, k: nat, ins: nat) {
    && k < ins <= |lines|
    && (!c.skipsClosers ==> ins == k + 1)
    && (c.skipsClosers ==>
          (forall j :: k < j < ins ==> IsClosingMark(lines[j])) && (ins < |lines| ==> !IsClosingMark(lines[ins])))
  }

  predicate IsLastImport(lines: seq<string>, k: nat) {
    k < |lines| && StartsImport(lines[k]) && forall j :: k < j < |lines| ==> !StartsImport(lines[j])
  }

  lemma InsertionIs(c: Config, lines: seq<string>, k: nat, ins: nat)
    requires LastImport(lines) == k && StepsOutTo(c, lines, k, ins)
    ensures Insertion(c, lines) == ins
  {
    if c.skipsClosers {
      RunEndIs(lines, IsClosingMark, k + 1, ins);
    }
  }

  lemma ImportIsPut(c: Config, lines: seq<string>, ins: nat)
    requires !HasImport(c.importLine, lines) && 0 < ins == Insertion(c, lines)
    ensures WithImport(c, lines) == lines[..ins] + ["", c.importBegin, c.importLine, c.importEnd] + lines[ins..]
  {
  }

  /** A missing import goes behind the last import line, or where the closing markers behind that
      line end: an empty line, the opening marker, the import, the closing marker. */
  lemma ImportGoesTo(c: Config, text: string, lines: seq<string>, k: nat, ins: nat)
    requires lines == Split(text) && !HasImport(c.importLine, lines) && IsLastImport(lines, k) && StepsOutTo(c, lines, k, ins)
    ensures AddImport(c, text) == Join(lines[..ins] + ["", c.importBegin, c.importLine, c.importEnd] + lines[ins..])
  {
    LastImportIs(lines, k);
    InsertionIs(c, lines, k, ins);
    ImportIsPut(c, lines, ins);
  }

  // ---------------------------------------------------------------------- the entry

  lemma {:induction false} IndentedLines(indent: string, lines: seq<string>)
    ensures |Indented(indent, lines)| == |lines|
    ensures forall i :: 0 <= i < |lines| ==> Indented(indent, lines)[i] == indent + lines[i]
  {
    if lines != [] {
      IndentedLines(indent, lines[1..]);
    }
  }

  /** The entry's text: the closing line's blanks in front of the opening marker, of each entry
      line and of the closing marker, each line ended by a newline. */
  lemma EntryLines(indent: string, p: Patch)
    requires '\n' !in indent && forall l :: l in Lines(p) ==> '\n' !in l
    ensures var ls := Split(BlockText(indent, Lines(p))); var n := |p.entry|;
      && |ls| == n + 3
      && ls[0] == indent + p.begin && ls[n + 1] == indent + p.end && ls[n + 2] == ""
      && forall i :: 0 <= i < n ==> ls[i + 1] == indent + p.entry[i]
  {
    BlockLines(indent, Lines(p), "");
    IndentedLines(indent, Lines(p));
    assert BlockText(indent, Lines(p)) + "" == BlockText(indent, Lines(p));
  }

  /** What stands in front of the closing line keeps its text but for one comma, right behind its
      last significant character and only if that is no comma. Then come the entry, with the
      blanks of the closing line, and that line. */
  lemma EntryGoesTo(text: string, start: nat, close: nat, p: Patch)
    requires start <= close <= |text| && (start == 0 || text[start - 1] == '\n') && '\n' !in text[start..close]
    ensures var last := LastSignificant(text[..start]);
      && -1 <= last < start
      && Inserted(text, close, p) ==
           (if last >= 0 && text[last] != ',' then text[..last + 1] + ("," + text[last + 1..start]) else text[..start])
           + BlockText(text[start..close], Lines(p)) + text[start..]
  {
    assert forall k :: start <= k < close ==> text[k] == text[start..close][k - start];
    assert LineStart(text, close) == start;
    QmlTokens.LastIsBefore(text[..start]);
    var last := LastSignificant(text[..start]);
    assert last >= 0 ==> text[..start][..last + 1] == text[..last + 1] && text[..start][last + 1..] == text[last + 1..start];
  }
}
