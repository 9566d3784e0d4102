/**
 What the scanner takes for code, string and comment, said by the characters alone.

 A text is written as a sequence of pieces: plain code, a string with its quotes, a
 comment with its delimiters. Of each piece it is fixed, without the automaton, which
 characters are code and which are significant; the lemmas show that the scanner
 sees exactly these, and what its three loops therefore answer.
 */
module ScannedText {
  import opened PythonText
  import opened Lexer
  import opened QmlTokens

  datatype Piece = Plain(text: string) | Str(q: char, body: string) | LineNote(note: string) | BlockNote(note: string)

  /** No quote, no comment start, and no '/' at the end that the next piece could complete. */
  predicate PlainText(s: string) {
    s != "" ==>
      && s[0] != '"' && s[0] != '\'' && PlainText(s[1..])
      && (s[0] == '/' ==> |s| >= 2 && s[1] != '/' && s[1] != '*')
  }

  /** What may stand between two quotes `q`: a backslash takes the next character with it. */
  predicate StringBody(q: char, s: string) {
    s != "" ==> if s[0] == '\\' then |s| >= 2 && StringBody(q, s[2..]) else s[0] != q && StringBody(q, s[1..])
  }

  predicate PieceOk(p: Piece) {
    match p
    case Plain(text) => PlainText(text)
    case Str(q, body) => (q == '"' || q == '\'') && StringBody(q, body)
    case LineNote(note) => '\n' !in note
    case BlockNote(note) => forall i :: 0 < i < |note| ==> !(note[i - 1] == '*' && note[i] == '/')
  }

  function Shown(p: Piece): string {
    match p
    case Plain(text) => text
    case Str(q, body) => [q] + (body + [q])
    case LineNote(note) => "//" + (note + "\n")
    case BlockNote(note) => "/*" + (note + "*/")
  }

  function None(n: nat): (r: seq<bool>)
    ensures |r| == n
  {
    seq(n, _ => false)
  }

  /** Which characters are code, a '/' aside. */
  function CodeOf(p: Piece): (r: seq<bool>)
    ensures |r| == |Shown(p)|
  {
    if p.Plain? then NoSlash(p.text) else None(|Shown(p)|)
  }

  function NoSlash(s: string): (r: seq<bool>)
    ensures |r| == |s|
  {
    if s == "" then [] else [s[0] != '/'] + NoSlash(s[1..])
  }

  /** Which characters are significant: of code what is not blank, of a string the opening quote
      and what is neither escaped nor a backslash. */
  function SignificantOf(p: Piece): (r: seq<bool>)
    ensures |r| == |Shown(p)|
  {
    match p
    case Plain(text) => NoBlank(text)
    case Str(q, body) => [true] + (Unescaped(body) + [false])
    case _ => None(|Shown(p)|)
  }

  function NoBlank(s: string): (r: seq<bool>)
    ensures |r| == |s|
  {
    if s == "" then [] else [!IsSpace(s[0])] + NoBlank(s[1..])
  }

  function Unescaped(s: string): (r: seq<bool>)
    ensures |r| == |s|
  {
    if s == "" then []
    else if s[0] != '\\' then [true] + Unescaped(s[1..])
    else if |s| == 1 then [false]
    else [false, false] + Unescaped(s[2..])
  }

  predicate AllOk(ps: seq<Piece>) { forall p :: p in ps ==> PieceOk(p) }

  function Text(ps: seq<Piece>): string { if ps == [] then "" else Shown(ps[0]) + Text(ps[1..]) }

  function CodeMask(ps: seq<Piece>): (r: seq<bool>)
    ensures |r| == |Text(ps)|
  {
    if ps == [] then [] else CodeOf(ps[0]) + CodeMask(ps[1..])
  }

  function SignificantMask(ps: seq<Piece>): (r: seq<bool>)
    ensures |r| == |Text(ps)|
  {
    if ps == [] then [] else SignificantOf(ps[0]) + SignificantMask(ps[1..])
  }

  // ----------------------------------------------------- which characters are code

  /** The automaton's view of the same, from mode `m`. */
  function Seen(m: Mode, s: string): (r: seq<bool>)
    ensures |r| == |s|
    decreases |s|
  {
    if s == "" then [] else [InCode(m, s[0])] + Seen(Step(m, s[0]), s[1..])
  }

  lemma SeenChar(m: Mode, c: char, rest: string)
    ensures Seen(m, [c] + rest) == [InCode(m, c)] + Seen(Step(m, c), rest)
    ensures Run(m, [c] + rest) == Run(Step(m, c), rest)
  {
    FromChar(m, c, rest);
    assert ([c] + rest)[1..] == rest;
  }

  lemma {:induction false} SeenSum(m: Mode, a: string, b: string)
    ensures Seen(m, a + b) == Seen(m, a) + Seen(Run(m, a), b)
    decreases |a|
  {
    if a == "" {
      assert a + b == b;
    } else {
      assert a == [a[0]] + a[1..] && a + b == [a[0]] + (a[1..] + b);
      SeenChar(m, a[0], a[1..]);
      SeenChar(m, a[0], a[1..] + b);
      SeenSum(Step(m, a[0]), a[1..], b);
    }
  }

  lemma SeenAt(s: string, k: nat)
    requires k < |s|
    ensures Seen(Code, s)[k] == InCode(Before(s, k), s[k])
  {
    assert s == s[..k] + s[k..];
    SeenSum(Code, s[..k], s[k..]);
  }

  lemma {:induction false} PlainIsCode(m: Mode, s: string)
    requires PlainText(s)
    requires m.Code? || (m.Slash? && s != "" && s[0] != '/' && s[0] != '*')
    ensures Run(m, s) == Code && Seen(m, s) == NoSlash(s)
    decreases |s|
  {
    if s != "" {
      assert s == [s[0]] + s[1..];
      SeenChar(m, s[0], s[1..]);
      PlainIsCode(Step(m, s[0]), s[1..]);
    }
  }

  lemma {:induction false} BodyIsNoCode(q: char, s: string)
    requires StringBody(q, s)
    ensures Run(Quoted(q), s) == Quoted(q) && Seen(Quoted(q), s) == None(|s|)
  {
    if s != "" {
      assert s == [s[0]] + s[1..];
      SeenChar(Quoted(q), s[0], s[1..]);
      if s[0] == '\\' {
        assert s[1..] == [s[1]] + s[2..];
        SeenChar(Escaped(q), s[1], s[2..]);
        BodyIsNoCode(q, s[2..]);
      } else {
        BodyIsNoCode(q, s[1..]);
      }
    }
  }

  lemma {:induction false} LineIsNoCode(s: string)
    requires '\n' !in s
    ensures Run(Line, s) == Line && Seen(Line, s) == None(|s|)
  {
    if s != "" {
      assert s == [s[0]] + s[1..] && s[0] in s && forall c :: c in s[1..] ==> c in s;
      SeenChar(Line, s[0], s[1..]);
      LineIsNoCode(s[1..]);
    }
  }

  lemma {:induction false} BlockIsNoCode(m: Mode, s: string)
    requires m.Block? || (m.BlockStar? && (s != "" ==> s[0] != '/'))
    requires forall i :: 0 < i < |s| ==> !(s[i - 1] == '*' && s[i] == '/')
    ensures var r := Run(m, s); (r.Block? || r.BlockStar?) && Seen(m, s) == None(|s|)
    decreases |s|
  {
    if s != "" {
      assert s == [s[0]] + s[1..];
      SeenChar(m, s[0], s[1..]);
      BlockIsNoCode(Step(m, s[0]), s[1..]);
    }
  }

  lemma StringIsNoCode(q: char, body: string)
    requires PieceOk(Str(q, body))
    ensures Run(Code, Shown(Str(q, body))) == Code && Seen(Code, Shown(Str(q, body))) == None(|body| + 2)
  {
    SeenChar(Code, q, body + [q]);
    SeenSum(Quoted(q), body, [q]);
    RunSum(Quoted(q), body, [q]);
    BodyIsNoCode(q, body);
    OneChar(Quoted(q), q);
  }

  lemma NoteIsNoCode(start: char, m: Mode, note: string, end: string)
    requires (start == '/' && m == Line) || (start == '*' && m == Block)
    requires Seen(m, note + end) == None(|note + end|) && Run(m, note + end) == Code
    ensures var s := ['/', start] + (note + end); Run(Code, s) == Code && Seen(Code, s) == None(|s|)
  {
    var rest := note + end;
    assert ['/', start] + rest == ['/'] + ([start] + rest);
    SeenChar(Code, '/', [start] + rest);
    SeenChar(Slash, start, rest);
  }

  lemma LineNoteIsNoCode(note: string)
    requires PieceOk(LineNote(note))
    ensures var s := Shown(LineNote(note)); Run(Code, s) == Code && Seen(Code, s) == None(|s|)
  {
    LineIsNoCode(note);
    SeenSum(Line, note, "\n");
    RunSum(Line, note, "\n");
    OneChar(Line, '\n');
    NoteIsNoCode('/', Line, note, "\n");
  }

  lemma BlockEndIsNoCode(m: Mode)
    requires m.Block? || m.BlockStar?
    ensures Run(m, "*/") == Code && Seen(m, "*/") == None(2)
  {
    assert "*/" == ['*'] + "/" && "/" == ['/'];
    SeenChar(m, '*', "/");
    OneChar(BlockStar, '/');
  }

  lemma BlockNoteIsNoCode(note: string)
    requires PieceOk(BlockNote(note))
    ensures var s := Shown(BlockNote(note)); Run(Code, s) == Code && Seen(Code, s) == None(|s|)
  {
    BlockIsNoCode(Block, note);
    SeenSum(Block, note, "*/");
    RunSum(Block, note, "*/");
    BlockEndIsNoCode(Run(Block, note));
    NoteIsNoCode('*', Block, note, "*/");
  }

  lemma PieceIsSeen(p: Piece)
    requires PieceOk(p)
    ensures Run(Code, Shown(p)) == Code && Seen(Code, Shown(p)) == CodeOf(p)
  {
    match p
    case Plain(text) => PlainIsCode(Code, text);
    case Str(q, body) => StringIsNoCode(q, body);
    case LineNote(note) => LineNoteIsNoCode(note);
    case BlockNote(note) => BlockNoteIsNoCode(note);
  }

  lemma {:induction false} TextIsSeen(ps: seq<Piece>)
    requires AllOk(ps)
    ensures Run(Code, Text(ps)) == Code && Seen(Code, Text(ps)) == CodeMask(ps)
  {
    if ps != [] {
      PieceIsSeen(ps[0]);
      TextIsSeen(ps[1..]);
      RunSum(Code, Shown(ps[0]), Text(ps[1..]));
      SeenSum(Code, Shown(ps[0]), Text(ps[1..]));
    }
  }

  /** The scanner leaves every text of whole pieces in code, and takes for code exactly the
      characters of its plain pieces (and no '/'). */
  lemma CodeIsPlain(ps: seq<Piece>)
    requires AllOk(ps)
    ensures Run(Code, Text(ps)) == Code
    ensures forall k :: 0 <= k < |Text(ps)| ==> (InCode(Before(Text(ps), k), Text(ps)[k]) <==> CodeMask(ps)[k])
  {
    TextIsSeen(ps);
    forall k | 0 <= k < |Text(ps)| ensures InCode(Before(Text(ps), k), Text(ps)[k]) <==> CodeMask(ps)[k] {
      SeenAt(Text(ps), k);
    }
  }

  // -------------------------------------------------------------- brackets, objects

  /** How many of the first `n` characters are a `c` of code. */
  function Count(s: string, code: seq<bool>, c: char, n: nat): nat
    requires n <= |s| == |code|
  {
    if n == 0 then 0 else Count(s, code, c, n - 1) + if code[n - 1] && s[n - 1] == c then 1 else 0
  }

  lemma {:induction false} DepthIsCount(ps: seq<Piece>, o: char, cl: char, n: nat)
    requires AllOk(ps) && n <= |Text(ps)| && o != cl
    ensures Depth(Text(ps)[..n], o, cl) == Count(Text(ps), CodeMask(ps), o, n) - Count(Text(ps), CodeMask(ps), cl, n)
  {
    if n > 0 {
      CodeIsPlain(ps);
      DepthIsCount(ps, o, cl, n - 1);
      DepthNext(Text(ps), n - 1, o, cl);
    }
  }

  /** A position closes the first bracket exactly when a closer of code stands there and as many
      openers as closers of code have been read with it. */
  lemma ClosingIff(ps: seq<Piece>, k: nat, o: char, cl: char)
    requires AllOk(ps) && k < |Text(ps)| && o != cl
    ensures Closing(Text(ps), k, o, cl) <==>
      && CodeMask(ps)[k] && Text(ps)[k] == cl
      && Count(Text(ps), CodeMask(ps), o, k + 1) == Count(Text(ps), CodeMask(ps), cl, k + 1)
  {
    CodeIsPlain(ps);
    DepthIsCount(ps, o, cl, k + 1);
  }

  /** Braces opened less braces closed in the first `n` characters. */
  function Balance(s: string, code: seq<bool>, n: nat): int
    requires n <= |s| == |code|
  {
    Count(s, code, '{', n) - Count(s, code, '}', n)
  }

  /** The brace at `k` opens an object: at no earlier place was the balance lower. */
  predicate OpensObject(s: string, code: seq<bool>, k: nat)
    requires k < |s| == |code|
  {
    code[k] && s[k] == '{' && forall j :: 0 <= j <= k ==> Balance(s, code, j) >= Balance(s, code, k)
  }

  function Opening(s: string, code: seq<bool>, n: nat): set<nat>
    requires n <= |s| == |code|
  {
    set k: nat | k < n && OpensObject(s, code, k)
  }

  /** The nesting is the balance above its lowest value so far. */
  ghost predicate IsNesting(s: string, code: seq<bool>, n: nat, nest: nat)
    requires n <= |s| == |code|
  {
    && (forall j :: 0 <= j <= n ==> Balance(s, code, j) >= Balance(s, code, n) - nest)
    && exists j :: 0 <= j <= n && Balance(s, code, j) == Balance(s, code, n) - nest
  }

  lemma NestingNext(s: string, code: seq<bool>, n: nat, nest: nat)
    requires n < |s| == |code| && IsNesting(s, code, n, nest)
    ensures var up := nest + (Balance(s, code, n + 1) - Balance(s, code, n)); IsNesting(s, code, n + 1, if up < 0 then 0 else up)
  {
    var j :| 0 <= j <= n && Balance(s, code, j) == Balance(s, code, n) - nest;
    assert nest == 0 ==> Balance(s, code, n + 1) <= Balance(s, code, n) + 1;
  }

  lemma OpeningNext(s: string, code: seq<bool>, n: nat, nest: nat)
    requires n < |s| == |code| && IsNesting(s, code, n, nest)
    ensures |Opening(s, code, n + 1)| == |Opening(s, code, n)| + if code[n] && s[n] == '{' && nest == 0 then 1 else 0
  {
    var j :| 0 <= j <= n && Balance(s, code, j) == Balance(s, code, n) - nest;
    assert OpensObject(s, code, n) <==> code[n] && s[n] == '{' && nest == 0;
    assert Opening(s, code, n + 1) == Opening(s, code, n) + if OpensObject(s, code, n) then {n} else {};
  }

  lemma BraceMoves(s: string, code: seq<bool>, n: nat, m: Mode, b: Braces)
    requires n < |s| == |code| && (InCode(m, s[n]) <==> code[n])
    ensures var d := b.nest + (Balance(s, code, n + 1) - Balance(s, code, n));
      Brace(m, s[n], b) == Braces(if d < 0 then 0 else d, b.objects + if code[n] && s[n] == '{' && b.nest == 0 then 1 else 0)
  {
  }

  lemma {:induction false} BracesAreOpenings(s: string, code: seq<bool>, n: nat)
    requires n <= |s| == |code| && forall k :: 0 <= k < |s| ==> (InCode(Before(s, k), s[k]) <==> code[k])
    ensures var b := BracesAfter(Code, Braces(0, 0), s[..n]); IsNesting(s, code, n, b.nest) && b.objects == |Opening(s, code, n)|
  {
    if n == 0 {
      assert Opening(s, code, 0) == {};
      assert Balance(s, code, 0) == 0;
    } else {
      BracesAreOpenings(s, code, n - 1);
      var b := BracesAfter(Code, Braces(0, 0), s[..n - 1]);
      BracesNext(s, n - 1);
      BraceMoves(s, code, n - 1, Before(s, n - 1), b);
      NestingNext(s, code, n - 1, b.nest);
      OpeningNext(s, code, n - 1, b.nest);
    }
  }

  /** The objects counted are the braces of code at whose place the balance is no higher than
      at any place before: those that lie in no other object. */
  lemma ObjectsAreOpenings(ps: seq<Piece>)
    requires AllOk(ps)
    ensures Objects(Text(ps)) == |set k: nat | k < |Text(ps)| && OpensObject(Text(ps), CodeMask(ps), k)|
  {
    var s := Text(ps);
    CodeIsPlain(ps);
    BracesAreOpenings(s, CodeMask(ps), |s|);
    assert s[..|s|] == s;
    assert Opening(s, CodeMask(ps), |s|) == set k: nat | k < |s| && OpensObject(s, CodeMask(ps), k);
  }

  // ------------------------------------------------------- the last significant one

  /** Position of the last true, -1 if there is none. */
  function LastTrue(marks: seq<bool>): (r: int)
    ensures -1 <= r < |marks| && (r >= 0 ==> marks[r]) && forall k :: r < k < |marks| ==> !marks[k]
    decreases |marks|
  {
    if marks == [] then -1 else if marks[|marks| - 1] then |marks| - 1 else LastTrue(marks[..|marks| - 1])
  }

  /** Reading `s` behind `x` leaves the last significant position where `marks` tell. */
  predicate Marks(x: string, s: string, marks: seq<bool>)
    requires |marks| == |s|
  {
    LastSignificant(x + s) == if LastTrue(marks) >= 0 then |x| + LastTrue(marks) else LastSignificant(x)
  }

  lemma MarksSum(x: string, a: string, b: string, ma: seq<bool>, mb: seq<bool>)
    requires |ma| == |a| && |mb| == |b| && Marks(x, a, ma) && Marks(x + a, b, mb)
    ensures Marks(x, a + b, ma + mb)
  {
    assert x + (a + b) == (x + a) + b;
    var r := LastTrue(ma + mb);
    if LastTrue(mb) >= 0 {
      assert (ma + mb)[|a| + LastTrue(mb)];
      assert r >= |a| ==> mb[r - |a|];
    } else {
      assert forall k :: |a| <= k < |a + b| ==> (ma + mb)[k] == mb[k - |a|];
      assert LastTrue(ma) >= 0 ==> (ma + mb)[LastTrue(ma)];
    }
  }

  lemma MarksChar(x: string, c: char, mark: bool)
    requires LastSignificant(x + [c]) == if mark then |x| else LastSignificant(x)
    ensures Marks(x, [c], [mark])
  {
    assert mark ==> [mark][0];
  }

  /** One character of code, of a string, of a comment. */
  lemma NextMark(x: string, c: char)
    ensures var m := Run(Code, x); var last := LastSignificant(x + [c]);
      && (m.Code? || (m.Slash? && c != '/' && c != '*') ==>
            last == if IsSpace(c) then LastSignificant(x) else |x|)
      && (m.Quoted? ==> last == if c == '\\' || c == m.q then LastSignificant(x) else |x|)
      && (m.Escaped? || InComment(m) ==> last == LastSignificant(x))
      && (m.Slash? && (c == '/' || c == '*') ==> last == LastBefore(x))
    ensures Run(Code, x + [c]) == Step(Run(Code, x), c)
  {
    NextMarks(x, c);
  }

  lemma {:induction false} PlainMarks(x: string, s: string)
    requires PlainText(s)
    requires var m := Run(Code, x); m.Code? || (m.Slash? && s != "" && s[0] != '/' && s[0] != '*')
    ensures Marks(x, s, NoBlank(s))
    decreases |s|
  {
    if s == "" {
      assert x + s == x;
    } else {
      assert s == [s[0]] + s[1..];
      NextMark(x, s[0]);
      MarksChar(x, s[0], !IsSpace(s[0]));
      PlainMarks(x + [s[0]], s[1..]);
      MarksSum(x, [s[0]], s[1..], [!IsSpace(s[0])], NoBlank(s[1..]));
    }
  }

  lemma {:induction false} BodyMarks(x: string, q: char, s: string)
    requires StringBody(q, s) && Run(Code, x) == Quoted(q)
    ensures Marks(x, s, Unescaped(s))
    decreases |s|
  {
    if s == "" {
      assert x + s == x;
    } else {
      assert s == [s[0]] + s[1..];
      NextMark(x, s[0]);
      MarksChar(x, s[0], s[0] != '\\');
      if s[0] != '\\' {
        BodyMarks(x + [s[0]], q, s[1..]);
        MarksSum(x, [s[0]], s[1..], [true], Unescaped(s[1..]));
      } else {
        EscapeMarks(x, q, s[1]);
        BodyMarks(x + [s[0], s[1]], q, s[2..]);
        assert s == [s[0], s[1]] + s[2..];
        MarksSum(x, [s[0], s[1]], s[2..], [false, false], Unescaped(s[2..]));
      }
    }
  }

  lemma EscapeMarks(x: string, q: char, c: char)
    requires Run(Code, x) == Quoted(q)
    ensures Marks(x, ['\\', c], [false, false]) && Run(Code, x + ['\\', c]) == Quoted(q)
  {
    NextMark(x, '\\');
    NextMark(x + ['\\'], c);
    assert x + ['\\', c] == (x + ['\\']) + [c];
  }

  lemma {:induction false} NoteMarks(x: string, s: string)
    requires forall k :: 0 <= k < |s| ==> InComment(Run(Code, x + s[..k]))
    ensures Marks(x, s, None(|s|))
    decreases |s|
  {
    if s == "" {
      assert x + s == x;
    } else {
      var n := |s| - 1;
      assert x + s == (x + s[..n]) + [s[n]];
      NextMark(x + s[..n], s[n]);
      forall k | 0 <= k < n ensures InComment(Run(Code, x + s[..n][..k])) {
        assert s[..n][..k] == s[..k];
      }
      NoteMarks(x, s[..n]);
      assert LastTrue(None(n)) == -1 && LastTrue(None(n + 1)) == -1;
    }
  }

  lemma LineModes(x: string, note: string, k: nat)
    requires PieceOk(LineNote(note)) && Run(Code, x) == Line && k <= |note|
    ensures InComment(Run(Code, x + (note + "\n")[..k]))
  {
    assert (note + "\n")[..k] == note[..k];
    RunSum(Code, x, note[..k]);
    LineIsNoCode(note[..k]);
  }

  lemma BlockModes(x: string, note: string, k: nat)
    requires PieceOk(BlockNote(note)) && Run(Code, x) == Block && k <= |note| + 1
    ensures InComment(Run(Code, x + (note + "*/")[..k]))
  {
    var n := if k <= |note| then k else |note|;
    assert (note + "*/")[..n] == note[..n];
    RunSum(Code, x, note[..n]);
    BlockIsNoCode(Block, note[..n]);
    if k > |note| {
      assert x + (note + "*/")[..k] == (x + note[..n]) + ['*'];
      NextMark(x + note[..n], '*');
    }
  }

  lemma NoteStart(x: string, c: char)
    requires Run(Code, x) == Code && (c == '/' || c == '*')
    ensures Marks(x, ['/', c], [false, false]) && Run(Code, x + ['/', c]) == if c == '/' then Line else Block
  {
    NextMark(x, '/');
    NextMark(x + ['/'], c);
    LastNow(x, '/');
    assert x + ['/', c] == (x + ['/']) + [c];
  }

  lemma NoneSum(a: nat, b: nat)
    ensures None(a) + None(b) == None(a + b)
  {
  }

  lemma LineNoteMarks(x: string, note: string)
    requires Run(Code, x) == Code && PieceOk(LineNote(note))
    ensures Marks(x, Shown(LineNote(note)), None(|note| + 3))
  {
    NoteStart(x, '/');
    assert "//" == ['/', '/'];
    forall k | 0 <= k < |note + "\n"| ensures InComment(Run(Code, (x + "//") + (note + "\n")[..k])) {
      LineModes(x + "//", note, k);
    }
    NoteMarks(x + "//", note + "\n");
    NoneSum(2, |note| + 1);
    MarksSum(x, "//", note + "\n", None(2), None(|note| + 1));
  }

  lemma BlockNoteMarks(x: string, note: string)
    requires Run(Code, x) == Code && PieceOk(BlockNote(note))
    ensures Marks(x, Shown(BlockNote(note)), None(|note| + 4))
  {
    NoteStart(x, '*');
    assert "/*" == ['/', '*'];
    forall k | 0 <= k < |note + "*/"| ensures InComment(Run(Code, (x + "/*") + (note + "*/")[..k])) {
      BlockModes(x + "/*", note, k);
    }
    NoteMarks(x + "/*", note + "*/");
    NoneSum(2, |note| + 2);
    MarksSum(x, "/*", note + "*/", None(2), None(|note| + 2));
  }

  lemma StringMarks(x: string, q: char, body: string)
    requires Run(Code, x) == Code && PieceOk(Str(q, body))
    ensures Marks(x, Shown(Str(q, body)), SignificantOf(Str(q, body)))
  {
    var inside := x + [q];
    NextMark(x, q);
    assert LastSignificant(inside) == |x| by {
      LastNow(x, q);
    }
    MarksChar(x, q, true);
    BodyMarks(inside, q, body);
    RunSum(Code, inside, body);
    BodyIsNoCode(q, body);
    NextMark(inside + body, q);
    MarksChar(inside + body, q, false);
    MarksSum(inside, body, [q], Unescaped(body), [false]);
    MarksSum(x, [q], body + [q], [true], Unescaped(body) + [false]);
  }

  lemma PieceMarks(x: string, p: Piece)
    requires Run(Code, x) == Code && PieceOk(p)
    ensures Marks(x, Shown(p), SignificantOf(p))
  {
    match p
    case Plain(text) => PlainMarks(x, text);
    case Str(q, body) => StringMarks(x, q, body);
    case LineNote(note) => LineNoteMarks(x, note);
    case BlockNote(note) => BlockNoteMarks(x, note);
  }

  lemma {:induction false} TextMarks(x: string, ps: seq<Piece>)
    requires Run(Code, x) == Code && AllOk(ps)
    ensures Marks(x, Text(ps), SignificantMask(ps))
    decreases |ps|
  {
    if ps == [] {
      assert x + Text(ps) == x;
    } else {
      PieceMarks(x, ps[0]);
      PieceIsSeen(ps[0]);
      RunSum(Code, x, Shown(ps[0]));
      TextMarks(x + Shown(ps[0]), ps[1..]);
      MarksSum(x, Shown(ps[0]), Text(ps[1..]), SignificantOf(ps[0]), SignificantMask(ps[1..]));
    }
  }

  /** The last significant position is that of the last significant character: no blank, no
      comment, no closing quote and nothing escaped. */
  lemma LastSignificantIsLast(ps: seq<Piece>)
    requires AllOk(ps)
    ensures var last := LastSignificant(Text(ps)); var marks := SignificantMask(ps);
      && -1 <= last < |Text(ps)| && (last >= 0 ==> marks[last])
      && forall k :: last < k < |marks| ==> !marks[k]
  {
    TextMarks("", ps);
    assert "" + Text(ps) == Text(ps);
  }

  // ------------------------------------------------------------------- whole lists

  /** No plain piece holds a square bracket. */
  predicate NoBrackets(ps: seq<Piece>) { forall p :: p in ps && p.Plain? ==> '[' !in p.text && ']' !in p.text }

  predicate HasNo(s: string, code: seq<bool>, c: char)
    requires |s| == |code|
  {
    forall k :: 0 <= k < |s| && code[k] ==> s[k] != c
  }

  lemma {:induction false} PlainHasNo(s: string, c: char)
    requires c !in s
    ensures HasNo(s, NoSlash(s), c)
  {
    assert forall k :: 0 <= k < |s| ==> s[k] in s;
  }

  lemma HasNoSum(s: string, t: string, a: seq<bool>, b: seq<bool>, c: char)
    requires |a| == |s| && |b| == |t| && HasNo(s, a, c) && HasNo(t, b, c)
    ensures HasNo(s + t, a + b, c)
  {
  }

  lemma {:induction false} NoBracketOfCode(ps: seq<Piece>, c: char)
    requires forall p :: p in ps && p.Plain? ==> c !in p.text
    ensures HasNo(Text(ps), CodeMask(ps), c)
  {
    if ps != [] {
      assert ps[0] in ps && forall p :: p in ps[1..] ==> p in ps;
      NoBracketOfCode(ps[1..], c);
      if ps[0].Plain? {
        PlainHasNo(ps[0].text, c);
      }
      HasNoSum(Shown(ps[0]), Text(ps[1..]), CodeOf(ps[0]), CodeMask(ps[1..]), c);
    }
  }

  lemma {:induction false} TextSum(a: seq<Piece>, b: seq<Piece>)
    ensures Text(a + b) == Text(a) + Text(b) && CodeMask(a + b) == CodeMask(a) + CodeMask(b)
  {
    if a == [] {
      assert a + b == b;
    } else {
      assert (a + b)[0] == a[0] && (a + b)[1..] == a[1..] + b;
      TextSum(a[1..], b);
      Joined(Shown(a[0]), Text(a[1..]), Text(b));
      Joined(CodeOf(a[0]), CodeMask(a[1..]), CodeMask(b));
    }
  }

  lemma Joined<T>(a: seq<T>, b: seq<T>, c: seq<T>)
    ensures a + (b + c) == (a + b) + c
  {
  }

  function List(ps: seq<Piece>): seq<Piece> { [Plain("[")] + (ps + [Plain("]")]) }

  lemma ListText(ps: seq<Piece>)
    ensures Text(List(ps)) == "[" + Text(ps) + "]"
    ensures CodeMask(List(ps)) == [true] + CodeMask(ps) + [true]
  {
    TextSum([Plain("[")], ps + [Plain("]")]);
    TextSum(ps, [Plain("]")]);
    assert Text([Plain("[")]) == "[" && Text([Plain("]")]) == "]";
    assert CodeMask([Plain("[")]) == [true] && CodeMask([Plain("]")]) == [true];
  }

  /** Between two brackets that are the only ones of code, one bracket is open all along. */
  lemma {:induction false} OneIsOpen(s: string, code: seq<bool>, n: nat)
    requires 1 <= n < |s| == |code| && code[0] && s[0] == '['
    requires forall k :: 0 < k < |s| - 1 && code[k] ==> s[k] != '[' && s[k] != ']'
    ensures Count(s, code, '[', n) == 1 && Count(s, code, ']', n) == 0
  {
    if n == 1 {
      assert Count(s, code, '[', 0) == 0 && Count(s, code, ']', 0) == 0;
    } else {
      OneIsOpen(s, code, n - 1);
    }
  }

  lemma OneList(s: string, code: seq<bool>, k: nat)
    requires k < |s| == |code| && |s| >= 2 && code[0] && s[0] == '[' && code[|s| - 1] && s[|s| - 1] == ']'
    requires forall k :: 0 < k < |s| - 1 && code[k] ==> s[k] != '[' && s[k] != ']'
    ensures code[k] && s[k] == ']' && Count(s, code, '[', k + 1) == Count(s, code, ']', k + 1) <==> k == |s| - 1
  {
    OneIsOpen(s, code, |s| - 1);
  }

  /** A list whose entries hold brackets only in strings and comments is closed at its end. */
  lemma ListIsClosedAtItsEnd(ps: seq<Piece>, k: nat)
    requires AllOk(ps) && NoBrackets(ps) && k < |Text(ps)| + 2
    ensures Closing("[" + Text(ps) + "]", k, '[', ']') <==> k == |Text(ps)| + 1
  {
    var s, code := "[" + Text(ps) + "]", [true] + CodeMask(ps) + [true];
    ListText(ps);
    NoBracketOfCode(ps, '[');
    NoBracketOfCode(ps, ']');
    assert forall k :: 0 < k < |s| - 1 ==> s[k] == Text(ps)[k - 1] && code[k] == CodeMask(ps)[k - 1];
    OneList(s, code, k);
    assert PieceOk(Plain("[")) && PieceOk(Plain("]"));
    ClosingIff(List(ps), k, '[', ']');
  }

  method CloseOfList(ps: seq<Piece>) returns (r: int)
    requires AllOk(ps) && NoBrackets(ps)
    ensures r == |Text(ps)| + 1
  {
    var s := "[" + Text(ps) + "]";
    forall k: nat | k < |s| ensures Closing(s, k, '[', ']') <==> k == |s| - 1 {
      ListIsClosedAtItsEnd(ps, k);
    }
    assert Closing(s, |s| - 1, '[', ']');
    r := FindMatching(s, '[', ']');
  }

  /** Brackets and the other kind of quote mean nothing between quotes of one kind. */
  method CloseBehindString(q: char, body: string) returns (r: int)
    requires (q == '"' || q == '\'') && StringBody(q, body)
    ensures r == |body| + 3
  {
    var ps := [Str(q, body)];
    assert Text(ps[1..]) == "" && Text(ps) == [q] + (body + [q]) + "";
    r := CloseOfList(ps);
  }
}
