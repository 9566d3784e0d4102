/**
 The characters of a QML text that matter, as the scanner's automaton tells them
 apart: code that is not blank, and string contents; comments vanish. What the
 scanner loops compute is a function of them.

 A position in the text and a position among the tokens are related by `Marks`: the
 last significant position is where the last token was read. From it follows what a
 comma does that is put there: it is one more token behind code, and one more
 character of a string inside a string.
 */
module QmlTokens {
  import opened PythonText
  import opened Lexer

  /** `code` is false for every character of a string, its quotes included. */
  datatype Tok = Tok(c: char, code: bool)

  function EmitFresh(c: char): seq<Tok> { if c == '/' || IsSpace(c) then [] else [Tok(c, !IsQuote(c))] }

  /** A '/' counts once the next character shows that it starts no comment. */
  function Emit(m: Mode, c: char): seq<Tok> {
    match m
    case Code => EmitFresh(c)
    case Slash => if c == '/' || c == '*' then [] else [Tok('/', true)] + EmitFresh(c)
    case Quoted(_) => [Tok(c, false)]
    case Escaped(_) => [Tok(c, false)]
    case _ => []
  }

  function Tokens(m: Mode, s: string): seq<Tok>
    decreases |s|
  {
    if s == "" then [] else Tokens(m, s[..|s| - 1]) + Emit(Run(m, s[..|s| - 1]), s[|s| - 1])
  }

  lemma {:induction false} TokensSum(m: Mode, a: string, b: string)
    ensures Tokens(m, a + b) == Tokens(m, a) + Tokens(Run(m, a), b)
    decreases |b|
  {
    if b == "" {
      assert a + b == a;
    } else {
      var b' := b[..|b| - 1];
      assert (a + b)[..|a + b| - 1] == a + b';
      TokensSum(m, a, b');
      RunSum(m, a, b');
    }
  }

  lemma TokensPrefix(m: Mode, s: string, i: nat)
    requires i <= |s|
    ensures Tokens(m, s[..i]) <= Tokens(m, s)
  {
    assert s == s[..i] + s[i..];
    TokensSum(m, s[..i], s[i..]);
  }

  lemma TokensNext(m: Mode, s: string, c: char)
    ensures Tokens(m, s + [c]) == Tokens(m, s) + Emit(Run(m, s), c)
    ensures Run(m, s + [c]) == Step(Run(m, s), c)
  {
    assert (s + [c])[..|s|] == s;
  }

  // ------------------------------------------------- depth and objects, from tokens

  function SquareOf(t: Tok): int { if !t.code then 0 else if t.c == '[' then 1 else if t.c == ']' then -1 else 0 }

  function Squares(ts: seq<Tok>): int
    decreases |ts|
  {
    if ts == [] then 0 else Squares(ts[..|ts| - 1]) + SquareOf(ts[|ts| - 1])
  }

  lemma {:induction false} SquaresSum(a: seq<Tok>, b: seq<Tok>)
    ensures Squares(a + b) == Squares(a) + Squares(b)
    decreases |b|
  {
    if b == [] {
      assert a + b == a;
    } else {
      assert (a + b)[..|a + b| - 1] == a + b[..|b| - 1];
      SquaresSum(a, b[..|b| - 1]);
    }
  }

  lemma EmitSquares(m: Mode, c: char)
    ensures Squares(Emit(m, c)) == Delta(m, c, '[', ']')
  {
    if m.Slash? && c != '/' && c != '*' {
      SquaresSum([Tok('/', true)], EmitFresh(c));
      assert Squares([Tok('/', true)]) == SquareOf(Tok('/', true));
    }
    assert Squares([]) == 0;
    assert Squares([Tok(c, true)]) == Squares([]) + SquareOf(Tok(c, true));
    assert Squares([Tok(c, false)]) == Squares([]) + SquareOf(Tok(c, false));
  }

  lemma {:induction false} DepthIsSquares(s: string)
    ensures Depth(s, '[', ']') == Squares(Tokens(Code, s))
    decreases |s|
  {
    if s != "" {
      var s', c := s[..|s| - 1], s[|s| - 1];
      DepthIsSquares(s');
      EmitSquares(Run(Code, s'), c);
      SquaresSum(Tokens(Code, s'), Emit(Run(Code, s'), c));
    }
  }

  function BraceTok(t: Tok, b: Braces): Braces { if t.code && t.c != '/' then Brace(Code, t.c, b) else b }

  function BraceToks(b: Braces, ts: seq<Tok>): Braces
    decreases |ts|
  {
    if ts == [] then b else BraceTok(ts[|ts| - 1], BraceToks(b, ts[..|ts| - 1]))
  }

  lemma {:induction false} BraceToksSum(b: Braces, x: seq<Tok>, y: seq<Tok>)
    ensures BraceToks(b, x + y) == BraceToks(BraceToks(b, x), y)
    decreases |y|
  {
    if y == [] {
      assert x + y == x;
    } else {
      assert (x + y)[..|x + y| - 1] == x + y[..|y| - 1];
      BraceToksSum(b, x, y[..|y| - 1]);
    }
  }

  lemma EmitBraces(m: Mode, c: char, b: Braces)
    ensures BraceToks(b, Emit(m, c)) == Brace(m, c, b)
  {
    assert BraceToks(b, []) == b;
    assert BraceToks(b, [Tok(c, true)]) == BraceTok(Tok(c, true), BraceToks(b, []));
    assert BraceToks(b, [Tok(c, false)]) == b;
    if m.Slash? && c != '/' && c != '*' {
      BraceToksSum(b, [Tok('/', true)], EmitFresh(c));
      assert BraceToks(b, [Tok('/', true)]) == b;
    }
  }

  lemma {:induction false} BracesAreTokens(b: Braces, s: string)
    ensures BracesAfter(Code, b, s) == BraceToks(b, Tokens(Code, s))
    decreases |s|
  {
    if s != "" {
      var s', c := s[..|s| - 1], s[|s| - 1];
      BracesAreTokens(b, s');
      EmitBraces(Run(Code, s'), c, BracesAfter(Code, b, s'));
      BraceToksSum(b, Tokens(Code, s'), Emit(Run(Code, s'), c));
    }
  }

  // ----------------------------------------------------- the last significant index

  predicate EndsInCode(ts: seq<Tok>) { ts != [] && ts[|ts| - 1].code }

  predicate EndsInString(ts: seq<Tok>) { ts != [] && !ts[|ts| - 1].code }

  /** `x` ends in code, and nothing significant follows in `y`. */
  predicate CodeEnds(x: string, y: string) {
    && x != "" && Tokens(Code, y) == [] && Run(Code, y) == Run(Code, x + y)
    && Run(Code, x) == (if x[|x| - 1] == '/' then Slash else Code)
    && (x[|x| - 1] == '/' ==> y != "" && y[0] != '/' && y[0] != '*')
  }

  lemma CodeEndsExtends(x: string, y: string, c: char)
    requires CodeEnds(x, y) && Emit(Run(Code, x + y), c) == []
    ensures CodeEnds(x, y + [c])
  {
    assert x + (y + [c]) == (x + y) + [c];
    TokensNext(Code, y, c);
    TokensNext(Code, x + y, c);
  }

  lemma CodeEndsAtSlash(x: string, c: char)
    requires Run(Code, x).Slash? && IsSpace(c)
    ensures CodeEnds(x, [c])
  {
    SlashIsLast(x);
    assert [] + [c] == [c];
    TokensNext(Code, [], c);
    TokensNext(Code, x, c);
  }

  lemma CodeEndsHere(s: string, c: char)
    requires (Run(Code, s).Code? || (Run(Code, s).Slash? && c != '*')) && !IsQuote(c) && c != '/'
    ensures CodeEnds(s + [c], "")
  {
    assert (s + [c]) + "" == s + [c];
    TokensNext(Code, s, c);
  }

  lemma LastNow(s: string, c: char)
    ensures LastBefore(s + [c]) == LastNext(Run(Code, s), c, |s|, LastBefore(s))
  {
    assert (s + [c])[..|s|] == s;
  }

  lemma NoEmission(m: Mode, c: char, i: int, last: int)
    requires Emit(m, c) == []
    ensures LastNext(m, c, i, last) == last
  {
  }

  lemma CodeEmission(m: Mode, c: char, i: int, last: int)
    requires EndsInCode(Emit(m, c))
    ensures (m.Code? || (m.Slash? && c != '*')) && !IsQuote(c) && c != '/'
    ensures LastNext(m, c, i, last) == if IsSpace(c) then i - 1 else i
    ensures IsSpace(c) ==> m.Slash? && Emit(m, c) == [Tok('/', true)]
    ensures !IsSpace(c) ==> Emit(m, c)[|Emit(m, c)| - 1].c == c
  {
  }

  /** The last significant position of a text whose last token is code splits it there. */
  lemma {:induction false} LastOfCode(s: string) returns (x: string, y: string)
    requires EndsInCode(Tokens(Code, s))
    ensures s == x + y && |x| == LastBefore(s) + 1 && CodeEnds(x, y)
    ensures x[|x| - 1] == Tokens(Code, s)[|Tokens(Code, s)| - 1].c
    decreases |s|
  {
    var s', c := s[..|s| - 1], s[|s| - 1];
    assert s == s' + [c];
    TokensNext(Code, s', c);
    if Emit(Run(Code, s'), c) == [] {
      assert Tokens(Code, s) == Tokens(Code, s');
      x, y := LastOfCode(s');
      LastStaysAt(s', c, x, y);
      y := y + [c];
    } else {
      x, y := LastIsNew(s', c);
    }
  }

  lemma LastStaysAt(s: string, c: char, x: string, y: string)
    requires Emit(Run(Code, s), c) == [] && s == x + y && |x| == LastBefore(s) + 1 && CodeEnds(x, y)
    ensures s + [c] == x + (y + [c]) && |x| == LastBefore(s + [c]) + 1 && CodeEnds(x, y + [c])
  {
    LastNow(s, c);
    NoEmission(Run(Code, s), c, |s|, LastBefore(s));
    CodeEndsExtends(x, y, c);
  }

  lemma LastIsNew(s: string, c: char) returns (x: string, y: string)
    requires EndsInCode(Emit(Run(Code, s), c))
    ensures s + [c] == x + y && |x| == LastBefore(s + [c]) + 1 && CodeEnds(x, y)
    ensures x[|x| - 1] == Emit(Run(Code, s), c)[|Emit(Run(Code, s), c)| - 1].c
  {
    var m := Run(Code, s);
    LastNow(s, c);
    CodeEmission(m, c, |s|, LastBefore(s));
    if IsSpace(c) {
      SlashIsLast(s);
      CodeEndsAtSlash(s, c);
      x, y := s, [c];
    } else {
      CodeEndsHere(s, c);
      x, y := s + [c], "";
    }
  }

  lemma SlashIsLast(s: string)
    requires Run(Code, s).Slash?
    ensures s != "" && s[|s| - 1] == '/'
  {
  }

  lemma StringModeTokens(s: string)
    requires Run(Code, s).Quoted? || Run(Code, s).Escaped?
    ensures EndsInString(Tokens(Code, s))
  {
    var m, c := Run(Code, s[..|s| - 1]), s[|s| - 1];
    assert Emit(m, c) != [] && !Emit(m, c)[|Emit(m, c)| - 1].code;
  }

  predicate TakesComma(m: Mode) { m.Quoted? && Step(m, ',') == m && Emit(m, ',') == [Tok(',', false)] }

  lemma StringEmission(m: Mode, c: char, i: int, last: int)
    requires EndsInString(Emit(m, c))
    ensures LastNext(m, c, i, last) == i || (LastNext(m, c, i, last) == last && (m.Quoted? || m.Escaped?))
    ensures LastNext(m, c, i, last) == i != last ==> Step(m, c).Quoted? && (m.Quoted? || Step(m, c) == Quoted(c))
    ensures LastNext(m, c, i, last) == i != last && !m.Quoted? ==> IsQuote(c)
  {
  }

  lemma {:induction false} QuotesAreQuotes(s: string)
    ensures Run(Code, s).Quoted? || Run(Code, s).Escaped? ==> IsQuote(Run(Code, s).q)
    decreases |s|
  {
    if s != "" {
      QuotesAreQuotes(s[..|s| - 1]);
    }
  }

  /** The last significant position of a text whose last token is of a string lies inside that
      string. */
  lemma {:induction false} LastOfString(s: string) returns (x: string, y: string)
    requires EndsInString(Tokens(Code, s))
    ensures s == x + y && |x| == LastBefore(s) + 1 && x != "" && TakesComma(Run(Code, x))
    decreases |s|
  {
    var s', c := s[..|s| - 1], s[|s| - 1];
    var m := Run(Code, s');
    assert s == s' + [c];
    TokensNext(Code, s', c);
    LastNow(s', c);
    if LastBefore(s) == |s'| {
      StringIsNew(s', c);
      x, y := s, "";
    } else {
      StringStays(s', c);
      x, y := LastOfString(s');
      y := y + [c];
    }
  }

  lemma SilenceMarksNothing(s: string, c: char)
    requires LastBefore(s + [c]) == |s|
    ensures Emit(Run(Code, s), c) != []
  {
    LastNow(s, c);
    LastIsBefore(s);
    if Emit(Run(Code, s), c) == [] {
      NoEmission(Run(Code, s), c, |s|, LastBefore(s));
    }
  }

  lemma EmittedLast(s: string, c: char)
    requires Emit(Run(Code, s), c) != []
    ensures var e, ts := Emit(Run(Code, s), c), Tokens(Code, s + [c]); ts != [] && ts[|ts| - 1] == e[|e| - 1]
  {
    TokensNext(Code, s, c);
  }

  lemma NewStringMode(m: Mode, c: char, i: int, last: int)
    requires EndsInString(Emit(m, c)) && LastNext(m, c, i, last) == i != last
    requires Step(m, c).Quoted? ==> IsQuote(Step(m, c).q)
    ensures TakesComma(Step(m, c))
  {
    StringEmission(m, c, i, last);
  }

  lemma StringIsNew(s: string, c: char)
    requires EndsInString(Tokens(Code, s + [c])) && LastBefore(s + [c]) == |s|
    ensures TakesComma(Run(Code, s + [c]))
  {
    SilenceMarksNothing(s, c);
    EmittedLast(s, c);
    QuotesAreQuotes(s + [c]);
    NextMarks(s, c);
    NewStringMode(Run(Code, s), c, |s|, LastBefore(s));
  }

  lemma NextMarks(s: string, c: char)
    ensures Run(Code, s + [c]) == Step(Run(Code, s), c)
    ensures LastBefore(s + [c]) == LastNext(Run(Code, s), c, |s|, LastBefore(s)) && LastBefore(s) < |s|
  {
    TokensNext(Code, s, c);
    LastNow(s, c);
    LastIsBefore(s);
  }

  lemma StringStays(s: string, c: char)
    requires EndsInString(Tokens(Code, s + [c])) && LastBefore(s + [c]) != |s|
    ensures EndsInString(Tokens(Code, s)) && LastBefore(s + [c]) == LastBefore(s)
  {
    var m := Run(Code, s);
    TokensNext(Code, s, c);
    LastNow(s, c);
    if Emit(m, c) == [] {
      NoEmission(m, c, |s|, LastBefore(s));
      assert Tokens(Code, s + [c]) == Tokens(Code, s);
    } else {
      EmittedLast(s, c);
      StringEmission(m, c, |s|, LastBefore(s));
      StringModeTokens(s);
    }
  }

  lemma {:induction false} LastIsBefore(s: string)
    ensures -1 <= LastBefore(s) < |s|
    decreases |s|
  {
    if s != "" {
      LastIsBefore(s[..|s| - 1]);
    }
  }

  lemma {:induction false} LastOfNothing(s: string)
    requires Tokens(Code, s) == []
    ensures LastBefore(s) == -1
    decreases |s|
  {
    if s != "" {
      LastOfNothing(s[..|s| - 1]);
      NoEmission(Run(Code, s[..|s| - 1]), s[|s| - 1], |s| - 1, -1);
    }
  }

  /** One character marks its own position, that of a '/' before it, or nothing. */
  lemma Marks(m: Mode, c: char) returns (none: bool, back: nat)
    ensures forall i, last :: LastNext(m, c, i, last) == if none then last else i - back
    ensures back == 0 || (back == 1 && m.Slash?)
  {
    none := LastNext(m, c, 5, 9) == 9;
    back := if !none && LastNext(m, c, 5, 9) == 4 then 1 else 0;
  }

  /** Positions in a text that follows complete code count from its start. */
  lemma {:induction false} LastSum(p: string, b: string)
    requires Run(Code, p) == Code
    ensures LastBefore(p + b) == if LastBefore(b) >= 0 then |p| + LastBefore(b) else LastBefore(p)
    decreases |b|
  {
    if b == "" {
      assert p + b == p;
    } else {
      var b', c := b[..|b| - 1], b[|b| - 1];
      assert p + b == (p + b') + [c] && b == b' + [c];
      LastSum(p, b');
      RunSum(Code, p, b');
      LastNow(p + b', c);
      LastNow(b', c);
      var none, back := Marks(Run(Code, b'), c);
    }
  }

  // ------------------------------------------------------------------ a comma goes in

  lemma OneChar(m: Mode, c: char)
    ensures Run(m, [c]) == Step(m, c) && Tokens(m, [c]) == Emit(m, c)
  {
    assert [c][..0] == [];
  }

  lemma FromChar(m: Mode, c: char, rest: string)
    ensures Run(m, [c] + rest) == Run(Step(m, c), rest)
    ensures Tokens(m, [c] + rest) == Emit(m, c) + Tokens(Step(m, c), rest)
  {
    OneChar(m, c);
    RunSum(m, [c], rest);
    TokensSum(m, [c], rest);
  }

  lemma Regroup(a: seq<Tok>, b: seq<Tok>, c: seq<Tok>)
    ensures (a + b) + c == a + (b + c)
  {
  }

  lemma SlashThen(c: char, rest: string)
    requires c != '/' && c != '*'
    ensures Run(Slash, [c] + rest) == Run(Code, [c] + rest)
    ensures Tokens(Slash, [c] + rest) == [Tok('/', true)] + Tokens(Code, [c] + rest)
  {
    FromChar(Slash, c, rest);
    FromChar(Code, c, rest);
    Regroup([Tok('/', true)], EmitFresh(c), Tokens(Fresh(c), rest));
  }

  lemma CommaRuns(m: Mode, y: string)
    requires m.Code? || m.Slash?
    ensures Run(m, "," + y) == Run(Code, y)
    ensures Tokens(m, "," + y) == Emit(m, ',') + Tokens(Code, y)
  {
    assert "," == [','];
    FromChar(m, ',', y);
  }

  lemma CommaBeforeNothing(m: Mode, y: string)
    requires Tokens(Code, y) == []
    requires m.Code? || (m.Slash? && y != "" && y[0] != '/' && y[0] != '*')
    ensures Run(m, "," + y) == Run(m, y) && Tokens(m, "," + y) == Tokens(m, y) + [Tok(',', true)]
  {
    CommaRuns(m, y);
    if m.Slash? {
      assert y == [y[0]] + y[1..];
      SlashThen(y[0], y[1..]);
    }
  }

  lemma Sum(m: Mode, a: string, b: string)
    ensures Run(m, a + b) == Run(Run(m, a), b) && Tokens(m, a + b) == Tokens(m, a) + Tokens(Run(m, a), b)
  {
    RunSum(m, a, b);
    TokensSum(m, a, b);
  }

  /** A comma put after the last code character adds one token at the end. */
  lemma CommaAfterCode(x: string, y: string)
    requires CodeEnds(x, y)
    ensures Run(Code, x + ("," + y)) == Run(Code, x + y)
    ensures Tokens(Code, x + ("," + y)) == Tokens(Code, x + y) + [Tok(',', true)]
  {
    Sum(Code, x, "," + y);
    Sum(Code, x, y);
    CommaBeforeNothing(Run(Code, x), y);
    Regroup(Tokens(Code, x), Tokens(Run(Code, x), y), [Tok(',', true)]);
  }

  /** A comma put inside a string is a character of that string. */
  lemma CommaInString(x: string, y: string)
    requires TakesComma(Run(Code, x))
    ensures Run(Code, x + ("," + y)) == Run(Code, x + y)
    ensures Tokens(Code, x + ("," + y)) == Tokens(Code, x) + ([Tok(',', false)] + Tokens(Run(Code, x), y))
    ensures Tokens(Code, x + y) == Tokens(Code, x) + Tokens(Run(Code, x), y)
  {
    assert "," == [','];
    FromChar(Run(Code, x), ',', y);
    Sum(Code, x, "," + y);
    Sum(Code, x, y);
  }
}
