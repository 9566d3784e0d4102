/**
 insert_entry of the settings patchers: a marked entry goes in before the `]` that
 closes a list, after a comma if the list has none.

 The proof goes through the tokens of the list's body. The text in front of the closing
 line ends in code, in a string, or in the opening bracket itself; in each case it is
 known where the last significant position is and what the comma put behind it becomes.
 The inserted lines are whole lines of code, so they add the tokens of one entry, no
 bracket closes early, and the list is closed by the same bracket as before. What the
 new entries are is then a statement about token lists, proved in `QmlLists`.
 */
module ListPatcher {
  import opened PythonText
  import opened Wrappers
  import opened Lexer
  import opened QmlTokens
  import opened QmlLists

  /** An entry by its lines, and the marker lines around it. */
  datatype Patch = Patch(begin: string, entry: seq<string>, end: string)

  function Lines(p: Patch): seq<string> { [p.begin] + p.entry + [p.end] }

  /** The lines, each behind `indent` and ended by a newline. */
  function BlockText(indent: string, lines: seq<string>): string
    decreases |lines|
  {
    if lines == [] then "" else indent + lines[0] + "\n" + BlockText(indent, lines[1..])
  }

  /** Start of the line that position `i` is on. */
  function LineStart(text: string, i: nat): (r: nat)
    requires i <= |text|
    ensures r <= i && (r == 0 || text[r - 1] == '\n') && forall k :: r <= k < i ==> text[k] != '\n'
  {
    if i == 0 || text[i - 1] == '\n' then i else LineStart(text, i - 1)
  }

  /** `head` with a comma behind its last significant character, unless that is one. */
  function WithComma(head: string): string {
    var last := LastSignificant(head);
    if 0 <= last < |head| && head[last] != ',' then head[..last + 1] + ("," + head[last + 1..]) else head
  }

  function Inserted(text: string, close: nat, p: Patch): string
    requires close <= |text|
  {
    var start := LineStart(text, close);
    WithComma(text[..start]) + BlockText(text[start..close], Lines(p)) + text[start..]
  }

  /** `close` is what find_matching gives for the `[` at `open`. */
  predicate IsClose(text: string, open0: nat, close: nat) {
    open0 <= close < |text| && FirstClosing(text[open0..], close - open0)
  }

  predicate FirstClosing(s: string, k: nat) {
    Closing(s, k, '[', ']') && forall j :: 0 <= j < k ==> !Closing(s, j, '[', ']')
  }

  lemma HeadInWhole(text: string, start: nat, n: nat)
    requires n <= start <= |text|
    ensures text[..start][..n] == text[..n] && text[n..] == text[..start][n..] + text[start..]
  {
  }

  lemma CommaInWhole(text: string, start: nat)
    requires start <= |text|
    ensures var last := LastSignificant(text[..start]);
      && last < start
      && WithComma(text[..start]) + text[start..]
         == if last >= 0 && text[last] != ',' then text[..last + 1] + ("," + text[last + 1..]) else text
  {
    LastIsBefore(text[..start]);
    var last := LastSignificant(text[..start]);
    if last >= 0 {
      HeadInWhole(text, start, last + 1);
    }
  }

  /** `open0` is where the declaration of the list was found, if it was. */
  method InsertEntry(text: string, open0: Option<nat>, p: Patch) returns (r: string, ok: bool)
    requires open0.Some? ==> open0.value < |text|
    ensures ok <==> open0.Some? && exists close :: IsClose(text, open0.value, close)
    ensures !ok ==> r == text
    ensures ok ==> exists close :: IsClose(text, open0.value, close) && r == Inserted(text, close, p)
  {
    if open0.None? {
      return text, false;
    }
    var found := FindMatching(text[open0.value..], '[', ']');
    if found < 0 {
      return text, false;
    }
    var end := open0.value + found;
    assert IsClose(text, open0.value, end);
    var start := LineStart(text, end);
    var indent := text[start..end];
    var last := LastSignificantIndex(text[..start]);
    CommaInWhole(text, start);
    ghost var line := start;
    r := text;
    if last >= 0 && text[last] != ',' {
      r := text[..last + 1] + ("," + text[last + 1..]);
      start := start + 1;
    }
    CutAtLine(text, line, r, start);
    r := r[..start] + BlockText(indent, Lines(p)) + r[start..];
    ok := true;
  }

  /** The commaed text, cut where the line of the `]` now starts. */
  lemma CutAtLine(text: string, line: nat, r: string, start: nat)
    requires line <= |text| && r == WithComma(text[..line]) + text[line..] && start == |r| - |text[line..]|
    ensures start <= |r| && r[..start] == WithComma(text[..line]) && r[start..] == text[line..]
  {
  }

  // ------------------------------------------------- what find_matching says of a body

  lemma AfterOpening(b: string)
    ensures Run(Code, "[" + b) == Run(Code, b)
    ensures Squares(Tokens(Code, "[" + b)) == 1 + Squares(Tokens(Code, b))
  {
    OpeningToken();
    RunSum(Code, "[", b);
    TokensSum(Code, "[", b);
    SquaresSum([Tok('[', true)], Tokens(Code, b));
  }

  lemma OpeningToken()
    ensures Run(Code, "[") == Code && Tokens(Code, "[") == [Tok('[', true)] && Squares([Tok('[', true)]) == 1
  {
    assert [] + ['['] == "[";
    TokensNext(Code, [], '[');
    assert Squares([Tok('[', true)]) == Squares([]) + 1;
  }

  predicate Opens(s: string, body: string) { |body| < |s| && s[..1 + |body|] == "[" + body }

  /** The text from an opening bracket on: what is read before position `k + 1`. */
  lemma ReadFromOpening(s: string, body: string, k: nat)
    requires k <= |body| && Opens(s, body)
    ensures s[..k + 1] == "[" + body[..k]
    ensures Before(s, k + 1) == Run(Code, body[..k])
    ensures Depth(s[..k + 1], '[', ']') == 1 + Squares(Tokens(Code, body[..k]))
  {
    assert s[..k + 1] == s[..1 + |body|][..k + 1] == "[" + body[..k];
    AfterOpening(body[..k]);
    DepthIsSquares(s[..k + 1]);
  }

  lemma OpensAt(s: string, body: string, k: nat)
    requires Opens(s, body) && k <= |body|
    ensures s[k] == if k == 0 then '[' else body[k - 1]
  {
    assert s[k] == s[..1 + |body|][k];
  }

  lemma EmitIsOpen(d: int, m: Mode, c: char)
    requires d >= 0 && d + Squares(Emit(m, c)) >= 0
    ensures OpenFrom(d, Emit(m, c))
  {
    var e := Emit(m, c);
    if |e| == 2 {
      var first := [Tok('/', true)];
      assert e[..1] == first && first[..0] == [] && Squares(first) == Squares([]) + 0;
      assert OpenFrom(d, first);
    } else if |e| == 1 {
      assert e[..0] == [];
    }
  }

  lemma OneMoreStaysOpen(ts: seq<Tok>, m: Mode, c: char)
    requires StaysOpen(ts) && Squares(ts) + Delta(m, c, '[', ']') >= 0
    ensures StaysOpen(ts + Emit(m, c))
  {
    EmitSquares(m, c);
    SquaresSum(ts, Emit(m, c));
    OpenSum(0, ts, Emit(m, c));
    OpenEnds(0, ts);
    EmitIsOpen(Squares(ts), m, c);
  }

  lemma NotClosingStaysOpen(s: string, body: string, i: nat)
    requires 0 < i <= |body| && Opens(s, body) && !Closing(s, i, '[', ']')
    requires StaysOpen(Tokens(Code, body[..i - 1]))
    ensures Squares(Tokens(Code, body[..i - 1])) + Delta(Run(Code, body[..i - 1]), body[i - 1], '[', ']') >= 0
  {
    var ts := Tokens(Code, body[..i - 1]);
    OpensAt(s, body, i);
    ReadFromOpening(s, body, i - 1);
    DepthNext(s, i, '[', ']');
    OpenEnds(0, ts);
  }

  lemma {:induction false} BodyStaysOpen(s: string, body: string, i: nat)
    requires i <= |body| && Opens(s, body) && forall k :: 0 <= k <= i ==> !Closing(s, k, '[', ']')
    ensures StaysOpen(Tokens(Code, body[..i]))
    decreases i
  {
    if i == 0 {
      assert Tokens(Code, body[..0]) == [];
    } else {
      BodyStaysOpen(s, body, i - 1);
      NotClosingStaysOpen(s, body, i);
      OneMoreStaysOpen(Tokens(Code, body[..i - 1]), Run(Code, body[..i - 1]), body[i - 1]);
      assert body[..i] == body[..i - 1] + [body[i - 1]];
      TokensNext(Code, body[..i - 1], body[i - 1]);
    }
  }

  /** The body between an opening bracket and its close. */
  function Body(text: string, open0: nat, close: nat): string
    requires open0 < close <= |text|
  {
    text[open0 + 1..close]
  }

  lemma BodyFacts(text: string, open0: nat, close: nat)
    requires IsClose(text, open0, close) && text[open0] == '['
    ensures open0 < close && text[close] == ']'
    ensures var body := Body(text, open0, close);
      && StaysOpen(Tokens(Code, body)) && Squares(Tokens(Code, body)) == 0
      && (Run(Code, body).Code? || Run(Code, body).Slash?)
  {
    var s := text[open0..];
    assert close != open0;
    var body := Body(text, open0, close);
    assert s[..close - open0] == "[" + body;
    assert body[..|body|] == body;
    forall k | 0 <= k <= |body| ensures !Closing(s, k, '[', ']') {
      assert k < close - open0;
    }
    BodyStaysOpen(s, body, |body|);
    ReadFromOpening(s, body, |body|);
    DepthNext(s, |body| + 1, '[', ']');
  }

  lemma ClosesAfterBody(s: string, body: string)
    requires Opens(s, body) && 1 + |body| < |s| && s[1 + |body|] == ']' && Squares(Tokens(Code, body)) == 0 && Run(Code, body) == Code
    ensures Closing(s, 1 + |body|, '[', ']')
  {
    assert body[..|body|] == body;
    ReadFromOpening(s, body, |body|);
    DepthNext(s, 1 + |body|, '[', ']');
  }

  lemma NoneClosesBefore(s: string, body: string)
    requires Opens(s, body) && StaysOpen(Tokens(Code, body))
    ensures forall k :: 0 <= k <= |body| ==> !Closing(s, k, '[', ']')
  {
    forall k | 0 <= k <= |body| ensures !Closing(s, k, '[', ']') {
      OpensAt(s, body, k);
      if k > 0 {
        NotYetClosing(s, body, k);
      }
    }
  }

  lemma ClosesFirstAfterBody(s: string, body: string)
    requires Opens(s, body) && 1 + |body| < |s| && s[1 + |body|] == ']'
    requires StaysOpen(Tokens(Code, body)) && Squares(Tokens(Code, body)) == 0 && Run(Code, body) == Code
    ensures FirstClosing(s, 1 + |body|)
  {
    ClosesAfterBody(s, body);
    NoneClosesBefore(s, body);
  }

  lemma ClosesThere(text: string, open0: nat, body: string)
    requires open0 < |text| && Opens(text[open0..], body)
    requires open0 + 1 + |body| < |text| && text[open0 + 1 + |body|] == ']'
    requires StaysOpen(Tokens(Code, body)) && Squares(Tokens(Code, body)) == 0 && Run(Code, body) == Code
    ensures IsClose(text, open0, open0 + 1 + |body|) && Body(text, open0, open0 + 1 + |body|) == body
  {
    var s := text[open0..];
    assert s[1 + |body|] == ']';
    ClosesFirstAfterBody(s, body);
    OpensBody(text, open0, body);
  }

  lemma OpensBody(text: string, open0: nat, body: string)
    requires open0 < |text| && Opens(text[open0..], body)
    ensures open0 + 1 + |body| <= |text| && text[open0 + 1..open0 + 1 + |body|] == body
  {
    forall i | 0 <= i < |body| ensures text[open0 + 1 + i] == body[i] {
      OpensAt(text[open0..], body, i + 1);
    }
  }

  lemma NotYetClosing(s: string, body: string, k: nat)
    requires 0 < k <= |body| && Opens(s, body) && StaysOpen(Tokens(Code, body))
    ensures !Closing(s, k, '[', ']')
  {
    ReadFromOpening(s, body, k);
    PartIsOpen(body, k);
  }

  lemma PartIsOpen(body: string, k: nat)
    requires k <= |body| && StaysOpen(Tokens(Code, body))
    ensures Squares(Tokens(Code, body[..k])) >= 0
  {
    var n := |Tokens(Code, body[..k])|;
    TokensPrefix(Code, body, k);
    PrefixIsOpen(0, Tokens(Code, body), n);
    assert Tokens(Code, body)[..n] == Tokens(Code, body[..k]);
  }

  // ------------------------------------------------------------- the pieces of a body

  predicate Blank(u: string) { forall c :: c in u ==> IsSpace(c) && c != '\n' }

  lemma SpaceIsPlain(c: char)
    requires IsSpace(c)
    ensures !IsQuote(c) && c != '/' && c != '*' && c != '\\'
  {
  }

  lemma {:induction false} BlankIsNothing(u: string)
    requires Blank(u)
    ensures Run(Code, u) == Code && Tokens(Code, u) == []
    decreases |u|
  {
    if u != "" {
      var u', c := u[..|u| - 1], u[|u| - 1];
      assert c in u && forall d :: d in u' ==> d in u;
      BlankIsNothing(u');
      SpaceIsPlain(c);
    }
  }

  lemma BlankStep(m: Mode, c: char)
    requires IsSpace(c) && c != '\n' && (m.Quoted? ==> IsQuote(m.q)) && (Step(m, c).Code? || Step(m, c).Slash?)
    ensures m.Code? || m.Slash?
  {
    SpaceIsPlain(c);
  }

  /** Blanks at the end neither close a string nor a comment. */
  lemma {:induction false} BlankClosesNothing(b: string, u: string)
    requires Blank(u) && (Run(Code, b + u).Code? || Run(Code, b + u).Slash?)
    ensures Run(Code, b).Code? || Run(Code, b).Slash?
    decreases |u|
  {
    if u == "" {
      assert b + u == b;
    } else {
      var u', c := u[..|u| - 1], u[|u| - 1];
      assert c in u && forall d :: d in u' ==> d in u;
      assert b + u == (b + u') + [c];
      TokensNext(Code, b + u', c);
      QuotesAreQuotes(b + u');
      BlankStep(Run(Code, b + u'), c);
      BlankClosesNothing(b, u');
    }
  }

  /** A line that opens no string or block comment beyond itself and has no square bracket. */
  predicate LineOk(l: string) {
    && '\n' !in l && (Run(Code, l).Code? || Run(Code, l).Line?) && NoSquares(Tokens(Code, l))
  }

  function LineTokens(lines: seq<string>): seq<Tok>
    decreases |lines|
  {
    if lines == [] then [] else Tokens(Code, lines[0]) + LineTokens(lines[1..])
  }

  lemma OneLine(indent: string, l: string)
    requires Blank(indent) && LineOk(l)
    ensures Run(Code, indent + l + "\n") == Code && Tokens(Code, indent + l + "\n") == Tokens(Code, l)
  {
    BlankIsNothing(indent);
    RunSum(Code, indent, l);
    TokensSum(Code, indent, l);
    TokensNext(Code, indent + l, '\n');
  }

  lemma {:induction false} BlockTokens(indent: string, lines: seq<string>)
    requires Blank(indent) && forall l :: l in lines ==> LineOk(l)
    ensures Run(Code, BlockText(indent, lines)) == Code && Tokens(Code, BlockText(indent, lines)) == LineTokens(lines)
    ensures NoSquares(LineTokens(lines))
    decreases |lines|
  {
    if lines != [] {
      var first, rest := indent + lines[0] + "\n", BlockText(indent, lines[1..]);
      OneLine(indent, lines[0]);
      BlockTokens(indent, lines[1..]);
      RunSum(Code, first, rest);
      TokensSum(Code, first, rest);
      assert LineOk(lines[0]);
    }
  }

  // ------------------------------------------------------------------- main result

  /** The `]` at `close` is alone on its line, the text before the list is in no string or
      comment where the list opens, and the patch is one entry of whole lines. */
  predicate Insertable(text: string, open0: nat, close: nat, p: Patch) {
    && IsClose(text, open0, close) && text[open0] == '['
    && Blank(text[LineStart(text, close)..close])
    && Run(Code, text[..open0 + 1]) == Code
    && (forall l :: l in Lines(p) ==> LineOk(l))
    && IsEntry(LineTokens(Lines(p)))
  }

  /** The body of the list up to the line of its `]`. */
  function Upper(text: string, open0: nat, close: nat): string
    requires close <= |text| && open0 < LineStart(text, close)
  {
    text[open0 + 1..LineStart(text, close)]
  }

  lemma IndentIsBelow(text: string, open0: nat, close: nat)
    requires open0 < close <= |text| && text[open0] == '[' && Blank(text[LineStart(text, close)..close])
    ensures open0 < LineStart(text, close) && text[LineStart(text, close) - 1] == '\n'
    ensures Body(text, open0, close) == Upper(text, open0, close) + text[LineStart(text, close)..close]
    ensures text[..LineStart(text, close)] == text[..open0 + 1] + Upper(text, open0, close)
  {
    InSlice(text, LineStart(text, close), close);
    assert !IsSpace('[');
  }

  lemma InSlice(text: string, lo: nat, hi: nat)
    requires lo <= hi <= |text|
    ensures forall k :: lo <= k < hi ==> text[k] in text[lo..hi]
  {
    forall k | lo <= k < hi ensures text[k] in text[lo..hi] {
      assert text[lo..hi][k - lo] == text[k];
    }
  }

  lemma UpperIsCode(b: string, indent: string)
    requires Blank(indent) && (Run(Code, b + indent).Code? || Run(Code, b + indent).Slash?)
    requires b != "" ==> b[|b| - 1] == '\n'
    ensures Run(Code, b) == Code && Tokens(Code, b + indent) == Tokens(Code, b)
  {
    BlankClosesNothing(b, indent);
    if Run(Code, b).Slash? {
      SlashIsLast(b);
    }
    BlankIsNothing(indent);
    TokensSum(Code, b, indent);
  }

  lemma UpperFacts(text: string, open0: nat, close: nat, p: Patch)
    requires Insertable(text, open0, close, p)
    ensures close <= |text| && open0 < LineStart(text, close)
    ensures text[..LineStart(text, close)] == text[..open0 + 1] + Upper(text, open0, close)
    ensures Run(Code, Upper(text, open0, close)) == Code
    ensures Tokens(Code, Body(text, open0, close)) == Tokens(Code, Upper(text, open0, close))
  {
    BodyFacts(text, open0, close);
    IndentIsBelow(text, open0, close);
    var b := Upper(text, open0, close);
    assert b != "" ==> b[|b| - 1] == text[LineStart(text, close) - 1];
    UpperIsCode(b, text[LineStart(text, close)..close]);
  }

  lemma OpeningIsLast(text: string, open0: nat)
    requires open0 < |text| && text[open0] == '[' && Run(Code, text[..open0 + 1]) == Code
    ensures LastBefore(text[..open0 + 1]) == open0
  {
    assert text[..open0 + 1] == text[..open0] + ['['];
    TokensNext(Code, text[..open0], '[');
    QuotesAreQuotes(text[..open0]);
    LastNow(text[..open0], '[');
  }

  /** Where the comma goes: `x`, a comma or nothing, between the tokens `a` and `b`. */
  predicate CommaGoes(b0: string, c: string, a: seq<Tok>, x: seq<Tok>, b: seq<Tok>) {
    var ts := Tokens(Code, b0);
    && Run(Code, c) == Code && ts == a + b && Tokens(Code, c) == a + (x + b)
    && (x == [] || x == [Tok(',', true)] || x == [Tok(',', false)])
    && (EndsInCode(ts) ==> b == [] && x == if IsComma(ts[|ts| - 1]) then [] else [Tok(',', true)])
    && (EndsInString(ts) ==> x != [Tok(',', true)])
    && (ts == [] ==> x == [Tok(',', true)])
  }

  lemma CommaInBody(p: string, b0: string, u: string, v: string)
    requires Run(Code, p) == Code && Run(Code, b0) == Code && b0 == u + v && u != "" && |u| == LastBefore(b0) + 1
    ensures WithComma(p + b0) == p + if u[|u| - 1] == ',' then b0 else u + ("," + v)
  {
    LastInBody(p, b0);
    Cut(p, u, v);
    assert (p + u) + ("," + v) == p + (u + ("," + v));
  }

  lemma LastInBody(p: string, b0: string)
    requires Run(Code, p) == Code && Run(Code, b0) == Code && LastBefore(b0) >= 0
    ensures LastSignificant(p + b0) == |p| + LastBefore(b0)
  {
    RunSum(Code, p, b0);
    LastSum(p, b0);
  }

  lemma Cut(p: string, u: string, v: string)
    requires u != ""
    ensures var s := p + (u + v);
      s[|p| + |u| - 1] == u[|u| - 1] && s[..|p| + |u|] == p + u && s[|p| + |u|..] == v
  {
  }

  lemma CommaGoesAfterCode(p: string, b0: string) returns (c: string, a: seq<Tok>, x: seq<Tok>, b: seq<Tok>)
    requires Run(Code, p) == Code && Run(Code, b0) == Code && EndsInCode(Tokens(Code, b0))
    ensures WithComma(p + b0) == p + c && CommaGoes(b0, c, a, x, b)
  {
    var u, v := LastOfCode(b0);
    CommaInBody(p, b0, u, v);
    CommaAfterCode(u, v);
    var ts := Tokens(Code, b0);
    a, b := ts, [];
    if IsComma(ts[|ts| - 1]) {
      c, x := b0, [];
    } else {
      c, x := u + ("," + v), [Tok(',', true)];
    }
    assert a + b == ts && x + b == x;
  }

  lemma StringTakesComma(u: string, v: string)
    requires TakesComma(Run(Code, u)) && Run(Code, u + v) == Code && EndsInString(Tokens(Code, u + v))
    ensures CommaGoes(u + v, u + ("," + v), Tokens(Code, u), [Tok(',', false)], Tokens(Run(Code, u), v))
  {
    CommaInString(u, v);
  }

  lemma StringNeedsNone(b0: string)
    requires Run(Code, b0) == Code && EndsInString(Tokens(Code, b0))
    ensures CommaGoes(b0, b0, Tokens(Code, b0), [], [])
  {
    var ts := Tokens(Code, b0);
    var none: seq<Tok> := [];
    assert none + none == none && ts + none == ts;
  }

  lemma CommaGoesInString(p: string, b0: string) returns (c: string, a: seq<Tok>, x: seq<Tok>, b: seq<Tok>)
    requires Run(Code, p) == Code && Run(Code, b0) == Code && EndsInString(Tokens(Code, b0))
    ensures WithComma(p + b0) == p + c && CommaGoes(b0, c, a, x, b)
  {
    var u, v := LastOfString(b0);
    CommaInBody(p, b0, u, v);
    if u[|u| - 1] == ',' {
      c, a, x, b := b0, Tokens(Code, b0), [], [];
      StringNeedsNone(b0);
    } else {
      c, a, x, b := u + ("," + v), Tokens(Code, u), [Tok(',', false)], Tokens(Run(Code, u), v);
      StringTakesComma(u, v);
    }
  }

  lemma CommaGoesFirst(p: string, b0: string) returns (c: string, a: seq<Tok>, x: seq<Tok>, b: seq<Tok>)
    requires Run(Code, p) == Code && Run(Code, b0) == Code && Tokens(Code, b0) == []
    requires p != "" && LastBefore(p) == |p| - 1 && p[|p| - 1] != ','
    ensures WithComma(p + b0) == p + c && CommaGoes(b0, c, a, x, b)
  {
    CommaAtOpening(p, b0);
    c, a, x, b := "," + b0, [], [Tok(',', true)], [];
    CommaBeforeNothing(Code, b0);
    assert x + b == x && a + x == x && a + b == [];
  }

  lemma CommaAtOpening(p: string, b0: string)
    requires Run(Code, p) == Code && Run(Code, b0) == Code && Tokens(Code, b0) == []
    requires p != "" && LastBefore(p) == |p| - 1 && p[|p| - 1] != ','
    ensures WithComma(p + b0) == p + ("," + b0)
  {
    RunSum(Code, p, b0);
    LastSum(p, b0);
    LastOfNothing(b0);
    assert LastSignificant(p + b0) == |p| - 1;
    assert (p + b0)[..|p|] == p && (p + b0)[|p|..] == b0;
  }

  lemma CommaGoesSomewhere(text: string, open0: nat, close: nat, p: Patch)
    returns (c: string, a: seq<Tok>, x: seq<Tok>, b: seq<Tok>)
    requires Insertable(text, open0, close, p)
    ensures close <= |text| && open0 < LineStart(text, close)
    ensures WithComma(text[..LineStart(text, close)]) == text[..open0 + 1] + c
    ensures CommaGoes(Upper(text, open0, close), c, a, x, b)
  {
    UpperFacts(text, open0, close, p);
    var b0, head := Upper(text, open0, close), text[..open0 + 1];
    if EndsInCode(Tokens(Code, b0)) {
      c, a, x, b := CommaGoesAfterCode(head, b0);
    } else if EndsInString(Tokens(Code, b0)) {
      c, a, x, b := CommaGoesInString(head, b0);
    } else {
      OpeningIsLast(text, open0);
      c, a, x, b := CommaGoesFirst(head, b0);
    }
  }

  lemma BodyTokens(c: string, indent: string, p: Patch)
    requires Run(Code, c) == Code && Blank(indent) && forall l :: l in Lines(p) ==> LineOk(l)
    ensures var body := c + BlockText(indent, Lines(p)) + indent;
      Run(Code, body) == Code && Tokens(Code, body) == Tokens(Code, c) + LineTokens(Lines(p))
  {
    var block := BlockText(indent, Lines(p));
    BlockTokens(indent, Lines(p));
    BlankIsNothing(indent);
    RunSum(Code, c, block);
    TokensSum(Code, c, block);
    RunSum(Code, c + block, indent);
    TokensSum(Code, c + block, indent);
  }

  lemma InsertedText(text: string, open0: nat, close: nat, p: Patch, c: string)
    requires close <= |text| && open0 < LineStart(text, close)
    requires WithComma(text[..LineStart(text, close)]) == text[..open0 + 1] + c
    ensures var indent := text[LineStart(text, close)..close];
      Inserted(text, close, p) == text[..open0 + 1] + (c + BlockText(indent, Lines(p)) + indent) + text[close..]
  {
    var start := LineStart(text, close);
    var indent := text[start..close];
    assert text[start..] == indent + text[close..];
    Regroup(text[..open0 + 1], c, BlockText(indent, Lines(p)), indent, text[close..]);
  }

  lemma Regroup(pre: string, c: string, block: string, indent: string, rest: string)
    ensures pre + c + block + (indent + rest) == pre + (c + block + indent) + rest
  {
  }

  /** The body after the insertion: commaed upper part, block, indent of the `]`. */
  lemma NewBody(text: string, open0: nat, close: nat, p: Patch, c: string, a: seq<Tok>, x: seq<Tok>, b: seq<Tok>)
    returns (body: string)
    requires Insertable(text, open0, close, p)
    requires close <= |text| && open0 < LineStart(text, close)
    requires WithComma(text[..LineStart(text, close)]) == text[..open0 + 1] + c
    requires CommaGoes(Upper(text, open0, close), c, a, x, b)
    ensures Inserted(text, close, p) == text[..open0 + 1] + body + text[close..]
    ensures Run(Code, body) == Code && Tokens(Code, body) == a + (x + b) + LineTokens(Lines(p))
    ensures StaysOpen(Tokens(Code, body)) && Squares(Tokens(Code, body)) == 0
  {
    NewTokensClose(text, open0, close, p, a, x, b);
    var indent := text[LineStart(text, close)..close];
    body := c + BlockText(indent, Lines(p)) + indent;
    BodyTokens(c, indent, p);
    InsertedText(text, open0, close, p, c);
  }

  lemma Framed(pre: string, body: string, post: string)
    requires pre != "" && pre[|pre| - 1] == '[' && post != "" && post[0] == ']'
    ensures var r, open0 := pre + body + post, |pre| - 1;
      && Opens(r[open0..], body) && open0 + 1 + |body| < |r| && r[open0 + 1 + |body|] == ']'
      && r[..|pre|] == pre && r[|pre| + |body|..] == post
  {
    var r := pre + body + post;
    assert r[|pre| - 1..][..1 + |body|] == "[" + body;
  }

  lemma NewBodyCloses(text: string, open0: nat, close: nat, body: string)
    requires open0 < close < |text| && text[open0] == '[' && text[close] == ']'
    requires StaysOpen(Tokens(Code, body)) && Squares(Tokens(Code, body)) == 0 && Run(Code, body) == Code
    ensures var r, again := text[..open0 + 1] + body + text[close..], open0 + 1 + |body|;
      && IsClose(r, open0, again) && Body(r, open0, again) == body
      && r[..open0 + 1] == text[..open0 + 1] && r[again..] == text[close..]
  {
    Framed(text[..open0 + 1], body, text[close..]);
    ClosesThere(text[..open0 + 1] + body + text[close..], open0, body);
  }

  lemma NewTokensClose(text: string, open0: nat, close: nat, p: Patch, a: seq<Tok>, x: seq<Tok>, b: seq<Tok>)
    requires Insertable(text, open0, close, p) && close <= |text| && open0 < LineStart(text, close)
    requires Tokens(Code, Upper(text, open0, close)) == a + b && NoSquares(x)
    ensures StaysOpen(a + (x + b) + LineTokens(Lines(p))) && Squares(a + (x + b) + LineTokens(Lines(p))) == 0
  {
    var e := LineTokens(Lines(p));
    UpperFacts(text, open0, close, p);
    BodyFacts(text, open0, close);
    BlockTokens("", Lines(p));
    InsertKeepsOpen(a, x, b);
    var ts := a + (x + b);
    assert ts + [] == ts && e + [] == e;
    InsertKeepsOpen(ts, e, []);
  }

  /** The list as find_matching finds it after the insertion, and its tokens. */
  lemma AfterInsertion(text: string, open0: nat, close: nat, p: Patch)
    returns (again: nat, a: seq<Tok>, x: seq<Tok>, b: seq<Tok>)
    requires Insertable(text, open0, close, p) && open0 < close
    ensures var r := Inserted(text, close, p);
      && IsClose(r, open0, again) && open0 < again
      && r[..open0 + 1] == text[..open0 + 1] && r[again..] == text[close..]
      && Tokens(Code, Body(r, open0, again)) == a + (x + b) + LineTokens(Lines(p))
    ensures close <= |text| && open0 < LineStart(text, close)
    ensures exists c :: CommaGoes(Upper(text, open0, close), c, a, x, b)
  {
    var c;
    c, a, x, b := CommaGoesSomewhere(text, open0, close, p);
    var body := NewBody(text, open0, close, p, c, a, x, b);
    ClosesAt(text, open0, close);
    NewBodyCloses(text, open0, close, body);
    again := open0 + 1 + |body|;
  }

  lemma ClosesAt(text: string, open0: nat, close: nat)
    requires IsClose(text, open0, close) && text[open0] == '['
    ensures open0 < close && text[close] == ']'
  {
    BodyFacts(text, open0, close);
  }

  /** insert_entry: find_matching finds the list again, everything outside it is unchanged, and
      its entries are the old ones in order and the new one, if and only if the list's last
      token is code (in a list that is not empty and does not end in a string). */
  lemma InsertEntryAppendsIff(text: string, open0: nat, close: nat, p: Patch) returns (again: nat)
    requires Insertable(text, open0, close, p) && open0 < close
    requires Nest(0, Tokens(Code, Body(text, open0, close))) == 0
    ensures var r := Inserted(text, close, p);
      && IsClose(r, open0, again) && open0 < again
      && r[..open0 + 1] == text[..open0 + 1] && r[again..] == text[close..]
      && (Entries(Tokens(Code, Body(r, open0, again)))
            == Entries(Tokens(Code, Body(text, open0, close))) + [LineTokens(Lines(p))]
          <==> EndsInCode(Tokens(Code, Body(text, open0, close))))
  {
    var a, x, b;
    again, a, x, b := AfterInsertion(text, open0, close, p);
    UpperFacts(text, open0, close, p);
    AppendIff(a, x, b, LineTokens(Lines(p)));
  }

  /** count_list grows by one when the entry is one object. */
  lemma InsertEntryCounts(text: string, open0: nat, close: nat, p: Patch) returns (again: nat)
    requires Insertable(text, open0, close, p) && open0 < close
    requires BracesAfter(Code, Braces(0, 0), Body(text, open0, close)).nest == 0
    requires BraceToks(Braces(0, 0), LineTokens(Lines(p))) == Braces(0, 1)
    ensures var r := Inserted(text, close, p);
      IsClose(r, open0, again) && open0 < again && Objects(Body(r, open0, again)) == Objects(Body(text, open0, close)) + 1
  {
    var a, x, b;
    again, a, x, b := AfterInsertion(text, open0, close, p);
    UpperFacts(text, open0, close, p);
    BracesAreTokens(Braces(0, 0), Body(Inserted(text, close, p), open0, again));
    BracesAreTokens(Braces(0, 0), Body(text, open0, close));
    ObjectsGrow(a, x, b, LineTokens(Lines(p)));
  }
}
