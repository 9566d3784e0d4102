/**
 Lists to which insert_entry does not append one entry: one whose last entry is a string, which
 swallows the separating comma, and an empty one, which gets a comma in front of its first entry.
 */
module ListSamples {
  import opened Lexer
  import opened QmlTokens
  import opened QmlLists
  import opened ListPatcher

  /** An object between two markers. */
  const ENTRY := Patch("//", ["{}"], "//")

  lemma TwoChars(m: Mode, c: char, d: char)
    ensures Run(m, [c] + [d]) == Step(Step(m, c), d)
    ensures Tokens(m, [c] + [d]) == Emit(m, c) + Emit(Step(m, c), d)
  {
    FromChar(m, c, [d]);
    OneChar(Step(m, c), d);
  }

  lemma EntryLines()
    ensures LineOk("//") && LineOk("{}")
    ensures Tokens(Code, "//") == [] && Tokens(Code, "{}") == [Tok('{', true), Tok('}', true)]
  {
    TwoChars(Code, '/', '/');
    TwoChars(Code, '{', '}');
    assert ['/'] + ['/'] == "//" && ['{'] + ['}'] == "{}";
  }

  lemma BracesAreOne()
    ensures IsEntry([Tok('{', true), Tok('}', true)])
  {
    var e := [Tok('{', true), Tok('}', true)];
    assert e[..1] == [e[0]] && [e[0]][..0] == [];
    assert Nest(0, []) == 0 && Nest(0, [e[0]]) == 1 && Nest(0, e) == 0;
    assert NoBreak(0, []) && NoBreak(0, [e[0]]);
  }

  lemma FirstLine(a: string, rest: seq<string>)
    ensures LineTokens([a] + rest) == Tokens(Code, a) + LineTokens(rest)
  {
    assert ([a] + rest)[1..] == rest;
  }

  lemma ThreeLines(a: string, b: string, c: string)
    ensures LineTokens([a, b, c]) == Tokens(Code, a) + (Tokens(Code, b) + (Tokens(Code, c) + []))
  {
    FirstLine(c, []);
    FirstLine(b, [c]);
    FirstLine(a, [b, c]);
    assert [c] + [] == [c] && [b] + [c] == [b, c] && [a] + [b, c] == [a, b, c];
  }

  lemma OneEntry(ls: seq<string>, e: seq<Tok>)
    requires ls == ["//", "{}", "//"] && e == [Tok('{', true), Tok('}', true)]
    ensures (forall l :: l in ls ==> LineOk(l)) && LineTokens(ls) == e && IsEntry(e)
  {
    EntryLines();
    BracesAreOne();
    ThreeLines("//", "{}", "//");
    assert [] + (e + ([] + [])) == e;
  }

  lemma EntryIsOne()
    ensures (forall l :: l in Lines(ENTRY) ==> LineOk(l)) && IsEntry(LineTokens(Lines(ENTRY)))
  {
    var ls := Lines(ENTRY);
    assert ls == ["//", "{}", "//"];
    OneEntry(ls, [Tok('{', true), Tok('}', true)]);
  }

  /** A list from its `[` on, its `]` first on the last line. */
  function List(body: string): string { "[" + ((body + "\n") + "]") }

  predicate Harmless(body: string) {
    var ts := Tokens(Code, body + "\n");
    Run(Code, body + "\n") == Code && StaysOpen(ts) && Squares(ts) == 0 && Nest(0, ts) == 0
  }

  lemma ListShape(body: string)
    ensures var t, close := List(body), |body| + 2;
      && close < |t| && t[0] == '[' && t[close] == ']' && LineStart(t, close) == close
      && t[..1] == "[" && t[close..close] == "" && Opens(t[0..], body + "\n")
  {
    var t, close := List(body), |body| + 2;
    assert t[0..] == t && t[..1 + |body + "\n"|] == "[" + (body + "\n") && t[close - 1] == '\n';
  }

  lemma ListCloses(body: string, t: string, close: nat)
    requires Harmless(body) && t == List(body) && close == |body| + 2
    ensures IsClose(t, 0, close) && 0 < close && Body(t, 0, close) == body + "\n"
  {
    ListShape(body);
    ClosesThere(t, 0, body + "\n");
  }

  lemma ListIsInsertable(body: string, t: string, close: nat)
    requires Harmless(body) && t == List(body) && close == |body| + 2
    ensures Insertable(t, 0, close, ENTRY)
  {
    ListShape(body);
    ListCloses(body, t, close);
    EntryIsOne();
    OneChar(Code, '[');
  }

  /** When no code ends the list, what comes out is not the old entries and the new one. */
  lemma DoesNotAppend(body: string, close: nat) returns (again: nat)
    requires Harmless(body) && !EndsInCode(Tokens(Code, body + "\n")) && close == |body| + 2
    ensures close <= |List(body)|
    ensures var r := Inserted(List(body), close, ENTRY);
      IsClose(r, 0, again) && 0 < again
      && Entries(Tokens(Code, Body(r, 0, again))) != Entries(Tokens(Code, body + "\n")) + [LineTokens(Lines(ENTRY))]
  {
    ListCloses(body, List(body), close);
    ListIsInsertable(body, List(body), close);
    again := InsertEntryAppendsIff(List(body), 0, close, ENTRY);
  }

  lemma EmptyIsHarmless()
    ensures Harmless("") && Tokens(Code, "" + "\n") == []
  {
    OneChar(Code, '\n');
    assert "" + "\n" == "\n";
    assert StaysOpen([]) && Squares([]) == 0 && Nest(0, []) == 0;
  }

  const QUOTED := "\"a\""

  lemma QuotedTokens()
    ensures Run(Code, QUOTED + "\n") == Code
    ensures Tokens(Code, QUOTED + "\n") == [Tok('"', false), Tok('a', false)] + Emit(Quoted('"'), '"')
  {
    var s := ['a'] + (['"'] + ['\n']);
    assert QUOTED + "\n" == ['"'] + s;
    FromChar(Code, '"', s);
    FromChar(Quoted('"'), 'a', ['"'] + ['\n']);
    TwoChars(Quoted('"'), '"', '\n');
    assert Emit(Code, '"') == [Tok('"', false)] && Emit(Quoted('"'), 'a') == [Tok('a', false)];
  }

  lemma QuietTokens(ts: seq<Tok>)
    requires forall t :: t in ts ==> !t.code
    ensures StaysOpen(ts) && Squares(ts) == 0 && Nest(0, ts) == 0
    decreases |ts|
  {
    if ts != [] {
      assert ts[|ts| - 1] in ts && forall t :: t in ts[..|ts| - 1] ==> t in ts;
      QuietTokens(ts[..|ts| - 1]);
    }
  }

  lemma QuotedIsHarmless()
    ensures Harmless(QUOTED) && !EndsInCode(Tokens(Code, QUOTED + "\n"))
  {
    QuotedTokens();
    QuietTokens(Tokens(Code, QUOTED + "\n"));
  }

  /** A list whose last entry is a string. */
  lemma StringTakesTheComma() returns (again: nat)
    ensures var r := Inserted(List(QUOTED), |QUOTED| + 2, ENTRY);
      IsClose(r, 0, again) && 0 < again
      && Entries(Tokens(Code, Body(r, 0, again))) != Entries(Tokens(Code, QUOTED + "\n")) + [LineTokens(Lines(ENTRY))]
  {
    QuotedIsHarmless();
    again := DoesNotAppend(QUOTED, |QUOTED| + 2);
  }

  /** A list without entries. */
  lemma EmptyListGetsAComma() returns (again: nat)
    ensures var r := Inserted(List(""), 2, ENTRY);
      IsClose(r, 0, again) && 0 < again
      && Entries(Tokens(Code, Body(r, 0, again))) != Entries(Tokens(Code, "" + "\n")) + [LineTokens(Lines(ENTRY))]
  {
    EmptyIsHarmless();
    again := DoesNotAppend("", 2);
  }
}
