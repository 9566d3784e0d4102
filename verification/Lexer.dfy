/**
 The hand-written QML scanner of the settings patchers, which skips strings and
 comments.

 `Step` is a character automaton. The methods are the jumping loops of the source,
 proved against what the automaton says about every position.
 */
module Lexer {
  import opened PythonText

  /** What the characters read so far leave open. `Slash` is a '/' that may start a comment. */
  datatype Mode = Code | Slash | Quoted(q: char) | Escaped(q: char) | Line | Block | BlockStar

  predicate IsQuote(c: char) { c == '"' || c == '\'' }

  function Fresh(c: char): Mode { if IsQuote(c) then Quoted(c) else if c == '/' then Slash else Code }

  function Step(m: Mode, c: char): Mode {
    match m
    case Code => Fresh(c)
    case Slash => if c == '/' then Line else if c == '*' then Block else Fresh(c)
    case Quoted(q) => if c == '\\' then Escaped(q) else if c == q then Code else m
    case Escaped(q) => Quoted(q)
    case Line => if c == '\n' then Code else Line
    case Block => if c == '*' then BlockStar else Block
    case BlockStar => if c == '/' then Code else if c == '*' then BlockStar else Block
  }

  function Run(m: Mode, s: string): Mode
    decreases |s|
  {
    if s == "" then m else Step(Run(m, s[..|s| - 1]), s[|s| - 1])
  }

  lemma {:induction false} RunSum(m: Mode, a: string, b: string)
    ensures Run(m, a + b) == Run(Run(m, a), b)
    decreases |b|
  {
    if b == "" {
      assert a + b == a;
    } else {
      assert (a + b)[..|a + b| - 1] == a + b[..|b| - 1];
      RunSum(m, a, b[..|b| - 1]);
    }
  }

  lemma RunNext(m: Mode, s: string, i: nat)
    requires i < |s|
    ensures Run(m, s[..i + 1]) == Step(Run(m, s[..i]), s[i])
  {
    assert s[..i + 1][..i] == s[..i];
  }

  /** `c`, read in mode `m`, is a character of code and neither opens a string nor a comment. */
  predicate InCode(m: Mode, c: char) {
    (m.Code? || (m.Slash? && c != '*')) && !IsQuote(c) && c != '/'
  }

  // ------------------------------------------------------- the scanner's position

  /** What the loops know when they look at position `i` outside a string. */
  predicate Outside(m: Mode, s: string, i: nat) {
    i >= |s| || m.Code? || (m.Slash? && s[i] != '/' && s[i] != '*') || (m.Line? && s[i] == '\n')
  }

  /** Mode before position `i`, or after the end when the loop stepped past it. */
  function Before(s: string, i: nat): Mode { Run(Code, s[..if i <= |s| then i else |s|]) }

  datatype Quote = None | In(q: char)

  predicate AtHead(s: string, i: nat, quote: Quote) {
    i <= |s| + 1 &&
    match quote
    case None => Outside(Before(s, i), s, i)
    case In(q) => i < |s| ==> Before(s, i) == Quoted(q)
  }

  method FindNewline(s: string, from: nat) returns (j: nat)
    requires from <= |s|
    ensures from <= j <= |s| && (j < |s| ==> s[j] == '\n')
    ensures forall k :: from <= k < j ==> s[k] != '\n'
  {
    j := from;
    while j < |s| && s[j] != '\n'
      invariant from <= j <= |s| && forall k :: from <= k < j ==> s[k] != '\n'
    {
      j := j + 1;
    }
  }

  predicate Closes(s: string, k: int) { 0 <= k && k + 1 < |s| && s[k] == '*' && s[k + 1] == '/' }

  /** Position of the next comment end, |s| if there is none. */
  method FindClose(s: string, from: nat) returns (j: nat)
    requires from <= |s|
    ensures from <= j <= |s| && (j < |s| ==> Closes(s, j))
    ensures forall k :: from <= k < j ==> !Closes(s, k)
  {
    j := from;
    while j < |s| && !(j + 1 < |s| && s[j] == '*' && s[j + 1] == '/')
      invariant from <= j <= |s| && forall k :: from <= k < j ==> !Closes(s, k)
    {
      j := j + 1;
    }
  }

  lemma {:induction false} LineStays(s: string, from: nat, j: nat)
    requires from <= j <= |s| && Before(s, from).Line?
    requires forall k :: from <= k < j ==> s[k] != '\n'
    ensures Before(s, j).Line?
    decreases j
  {
    if from < j {
      LineStays(s, from, j - 1);
      RunNext(Code, s, j - 1);
    }
  }

  lemma {:induction false} BlockStays(s: string, from: nat, j: nat)
    requires from <= j <= |s| && Before(s, from).Block?
    requires forall k :: from <= k < j - 1 ==> !Closes(s, k)
    ensures Before(s, j) == if from < j && s[j - 1] == '*' then BlockStar else Block
    decreases j
  {
    if from < j {
      BlockStays(s, from, j - 1);
      RunNext(Code, s, j - 1);
      assert j - 2 >= from ==> !Closes(s, j - 2);
    }
  }

  predicate InComment(m: Mode) { m.Line? || m.Block? || m.BlockStar? }

  predicate StartsComment(s: string, i: nat) { i + 1 < |s| && s[i] == '/' && (s[i + 1] == '/' || s[i + 1] == '*') }

  /** A comment start that the loops see outside a string is one. */
  lemma CommentStarts(s: string, i: nat)
    requires StartsComment(s, i) && AtHead(s, i, None)
    ensures Before(s, i).Code? && Before(s, i + 1).Slash?
    ensures Before(s, i + 2) == if s[i + 1] == '/' then Line else Block
  {
    RunNext(Code, s, i);
    RunNext(Code, s, i + 1);
  }

  lemma LineEnds(s: string, i: nat, j: nat)
    requires i <= j <= |s| && Before(s, i).Line? && (j < |s| ==> s[j] == '\n')
    requires forall k :: i <= k < j ==> s[k] != '\n'
    ensures AtHead(s, j, None) && !Before(s, j).Slash? && forall k :: i <= k < j ==> InComment(Before(s, k))
  {
    forall k | i <= k <= j ensures Before(s, k).Line? {
      LineStays(s, i, k);
    }
  }

  lemma BlockEnds(s: string, i: nat, j: nat)
    requires i <= j <= |s| && Before(s, i).Block? && (j < |s| ==> Closes(s, j))
    requires forall k :: i <= k < j ==> !Closes(s, k)
    ensures var next := if j < |s| then j + 2 else j;
      && AtHead(s, next, None) && !Before(s, next).Slash?
      && forall k :: i <= k < next ==> InComment(Before(s, k))
  {
    forall k | i <= k <= j ensures Before(s, k).Block? || Before(s, k).BlockStar? {
      BlockStays(s, i, k);
    }
    if j < |s| {
      BlockStays(s, i, j);
      RunNext(Code, s, j);
      assert Before(s, j + 1).BlockStar?;
      RunNext(Code, s, j + 1);
      assert Before(s, j + 2).Code?;
    }
  }

  /** The jump over a comment that starts at `i`; the loops go on at the result. */
  method SkipComment(s: string, i: nat) returns (next: nat)
    requires StartsComment(s, i) && AtHead(s, i, None)
    ensures i + 2 <= next <= |s| && AtHead(s, next, None) && !Before(s, next).Slash?
    ensures Before(s, i).Code? && Before(s, i + 1).Slash?
    ensures forall k :: i + 2 <= k < next ==> InComment(Before(s, k))
  {
    CommentStarts(s, i);
    if s[i + 1] == '/' {
      next := FindNewline(s, i);
      LineEnds(s, i + 2, next);
    } else {
      var j := FindClose(s, i + 2);
      BlockEnds(s, i + 2, j);
      next := if j < |s| then j + 2 else |s|;
    }
  }

  // ------------------------------------------------------- the last significant one

  /** A lone '/' that was pending at position `i` turns out to be code. */
  predicate SlashWasCode(m: Mode, c: char) { m.Slash? && c != '/' && c != '*' }

  function LastNext(m: Mode, c: char, i: int, last: int): int {
    if m.Quoted? then (if c == '\\' || c == m.q then last else i)
    else if m.Code? || SlashWasCode(m, c) then
      if c == '/' || (IsSpace(c) && m.Code?) then last else if IsSpace(c) then i - 1 else i
    else last
  }

  function LastBefore(s: string): int
    decreases |s|
  {
    if s == "" then -1 else LastNext(Run(Code, s[..|s| - 1]), s[|s| - 1], |s| - 1, LastBefore(s[..|s| - 1]))
  }

  /** Position of the last character that is neither blank nor in a comment nor an escape nor
      a closing quote; -1 if there is none. */
  function LastSignificant(s: string): int { if Run(Code, s).Slash? then |s| - 1 else LastBefore(s) }

  lemma LastStep(s: string, i: nat)
    requires i < |s|
    ensures LastBefore(s[..i + 1]) == LastNext(Before(s, i), s[i], i, LastBefore(s[..i]))
  {
    assert s[..i + 1][..i] == s[..i];
  }

  lemma {:induction false} LastStays(s: string, i: nat, j: nat)
    requires i <= j <= |s| && forall k :: i <= k < j ==> InComment(Before(s, k))
    ensures LastBefore(s[..j]) == LastBefore(s[..i])
    decreases j
  {
    if i < j {
      LastStep(s, j - 1);
      LastStays(s, i, j - 1);
    }
  }

  lemma SkipKeepsLast(s: string, i: nat, next: nat)
    requires StartsComment(s, i) && i + 2 <= next <= |s| && Before(s, i).Code? && Before(s, i + 1).Slash?
    requires forall k :: i + 2 <= k < next ==> InComment(Before(s, k))
    ensures LastBefore(s[..next]) == LastBefore(s[..i])
  {
    LastStep(s, i);
    LastStep(s, i + 1);
    LastStays(s, i + 2, next);
  }

  lemma EscapeKeepsLast(s: string, i: nat)
    requires i < |s| && Before(s, i).Quoted? && s[i] == '\\' && (i + 1 < |s| ==> Before(s, i + 1).Escaped?)
    ensures LastBefore(s[..Clip(s, i + 2)]) == LastBefore(s[..i])
  {
    LastStep(s, i);
    if i + 1 < |s| {
      LastStep(s, i + 1);
    }
  }

  // ------------------------------------------------------ one character of the loop

  /** Reading the character at `i` outside a string and not at a comment start. */
  lemma OutsideNext(s: string, i: nat)
    requires i < |s| && AtHead(s, i, None) && !StartsComment(s, i)
    ensures AtHead(s, i + 1, if IsQuote(s[i]) then In(s[i]) else None)
    ensures Before(s, i + 1).Slash? <==> s[i] == '/'
    ensures s[i] == '/' ==> Before(s, i).Code?
    ensures !IsQuote(s[i]) && s[i] != '/' ==> InCode(Before(s, i), s[i]) || (Before(s, i).Line? && s[i] == '\n')
  {
    RunNext(Code, s, i);
  }

  /** Reading the character at `i` inside a string; a backslash takes the next one with it. */
  lemma InsideNext(s: string, i: nat, q: char)
    requires i < |s| && AtHead(s, i, In(q))
    ensures Before(s, i) == Quoted(q)
    ensures s[i] == '\\' ==> AtHead(s, i + 2, In(q)) && (i + 1 < |s| ==> Before(s, i + 1).Escaped?)
    ensures s[i] == '\\' ==> !Before(s, i + 2).Slash?
    ensures s[i] != '\\' ==> AtHead(s, i + 1, if s[i] == q then None else In(q)) && !Before(s, i + 1).Slash?
  {
    RunNext(Code, s, i);
    if i + 1 < |s| {
      RunNext(Code, s, i + 1);
    }
  }

  function Clip(s: string, i: nat): nat { if i <= |s| then i else |s| }

  /** No character from `i` to `j` is code. */
  predicate Inert(s: string, i: nat, j: nat)
    requires j <= |s|
  {
    forall k :: i <= k < j ==> !InCode(Before(s, k), s[k])
  }

  /** The part that the three loops share: inside a string, at an opening quote and at a
      comment start they go on at `next`, and no character on the way is code. */
  method Skip(s: string, i: nat, quote: Quote) returns (skipped: bool, next: nat, quoteNext: Quote, marks: bool)
    requires i < |s| && AtHead(s, i, quote)
    ensures skipped <==> quote.In? || IsQuote(s[i]) || StartsComment(s, i)
    ensures skipped ==>
      && (!marks ==> !Before(s, i).Slash?)
      && i < next && AtHead(s, next, quoteNext) && Inert(s, i, Clip(s, next)) && !Before(s, next).Slash?
      && LastBefore(s[..Clip(s, next)]) == if marks then i else LastBefore(s[..i])
  {
    var c := s[i];
    skipped, next, quoteNext, marks := true, i + 1, quote, false;
    if quote.In? {
      InsideNext(s, i, quote.q);
      LastStep(s, i);
      if c == '\\' {
        EscapeKeepsLast(s, i);
        next := i + 2;
      } else if c == quote.q {
        quoteNext := None;
      } else {
        marks := true;
      }
    } else if IsQuote(c) {
      OutsideNext(s, i);
      LastStep(s, i);
      quoteNext, marks := In(c), true;
    } else if c == '/' && i + 1 < |s| && (s[i + 1] == '/' || s[i + 1] == '*') {
      next := SkipComment(s, i);
      SkipKeepsLast(s, i, next);
    } else {
      skipped := false;
    }
  }

  // ------------------------------------------------------------- matching brackets

  predicate IsBracket(c: char) { c in "[]{}()" }

  function Delta(m: Mode, c: char, o: char, cl: char): int {
    if !InCode(m, c) then 0 else if c == o then 1 else if c == cl then -1 else 0
  }

  /** Bracket depth after `s`, read from a place outside strings and comments. */
  function Depth(s: string, o: char, cl: char): int
    decreases |s|
  {
    if s == "" then 0
    else Depth(s[..|s| - 1], o, cl) + Delta(Run(Code, s[..|s| - 1]), s[|s| - 1], o, cl)
  }

  /** Position `k` holds the bracket that closes the one `s` starts with. */
  predicate Closing(s: string, k: nat, o: char, cl: char) {
    k < |s| && s[k] == cl && InCode(Before(s, k), s[k]) && Depth(s[..k + 1], o, cl) == 0
  }

  lemma DepthNext(s: string, i: nat, o: char, cl: char)
    requires i < |s|
    ensures Depth(s[..i + 1], o, cl) == Depth(s[..i], o, cl) + Delta(Before(s, i), s[i], o, cl)
  {
    assert s[..i + 1][..i] == s[..i];
  }

  lemma {:induction false} DepthStays(s: string, i: nat, j: nat, o: char, cl: char)
    requires i <= j <= |s| && forall k :: i <= k < j ==> !InCode(Before(s, k), s[k])
    ensures Depth(s[..j], o, cl) == Depth(s[..i], o, cl)
    decreases j
  {
    if i < j {
      DepthNext(s, j - 1, o, cl);
      DepthStays(s, i, j - 1, o, cl);
    }
  }

  /** find_matching: the first closing position, or -1. Positions count from the opening one. */
  method FindMatching(s: string, o: char, cl: char) returns (r: int)
    requires IsBracket(o) && IsBracket(cl) && o != cl
    ensures r == -1 || (0 <= r < |s| && Closing(s, r, o, cl))
    ensures forall k :: 0 <= k < (if r < 0 then |s| else r) ==> !Closing(s, k, o, cl)
  {
    var i, depth, quote := 0, 0, None;
    while i < |s|
      invariant AtHead(s, i, quote) && depth == Depth(s[..Clip(s, i)], o, cl)
      invariant forall k :: 0 <= k < Clip(s, i) ==> !Closing(s, k, o, cl)
      decreases |s| - i
    {
      var skipped, next, quoteNext, _ := Skip(s, i, quote);
      if skipped {
        DepthStays(s, i, Clip(s, next), o, cl);
        i, quote := next, quoteNext;
        continue;
      }
      OutsideNext(s, i);
      DepthNext(s, i, o, cl);
      if s[i] == o {
        depth := depth + 1;
      } else if s[i] == cl {
        depth := depth - 1;
        if depth == 0 {
          return i;
        }
      }
      i := i + 1;
    }
    return -1;
  }

  // ------------------------------------------------------------ counting objects

  /** Brace nesting, never below zero, and the braces opened at nesting zero. */
  datatype Braces = Braces(nest: nat, objects: nat)

  function Brace(m: Mode, c: char, b: Braces): Braces {
    if !InCode(m, c) then b
    else if c == '{' then Braces(b.nest + 1, if b.nest == 0 then b.objects + 1 else b.objects)
    else if c == '}' && b.nest > 0 then b.(nest := b.nest - 1)
    else b
  }

  function BracesAfter(m: Mode, b: Braces, s: string): Braces
    decreases |s|
  {
    if s == "" then b
    else Brace(Run(m, s[..|s| - 1]), s[|s| - 1], BracesAfter(m, b, s[..|s| - 1]))
  }

  function Objects(s: string): nat { BracesAfter(Code, Braces(0, 0), s).objects }

  lemma BracesNext(s: string, i: nat)
    requires i < |s|
    ensures BracesAfter(Code, Braces(0, 0), s[..i + 1]) == Brace(Before(s, i), s[i], BracesAfter(Code, Braces(0, 0), s[..i]))
  {
    assert s[..i + 1][..i] == s[..i];
  }

  lemma {:induction false} BracesStay(s: string, i: nat, j: nat)
    requires i <= j <= |s| && forall k :: i <= k < j ==> !InCode(Before(s, k), s[k])
    ensures BracesAfter(Code, Braces(0, 0), s[..j]) == BracesAfter(Code, Braces(0, 0), s[..i])
    decreases j
  {
    if i < j {
      BracesNext(s, j - 1);
      BracesStay(s, i, j - 1);
    }
  }

  method CountTopLevelObjects(s: string) returns (count: nat)
    ensures count == Objects(s)
  {
    var i, depth, quote := 0, 0, None;
    count := 0;
    while i < |s|
      invariant AtHead(s, i, quote) && depth >= 0
      invariant BracesAfter(Code, Braces(0, 0), s[..Clip(s, i)]) == Braces(depth, count)
      decreases |s| - i
    {
      var skipped, next, quoteNext, _ := Skip(s, i, quote);
      if skipped {
        BracesStay(s, i, Clip(s, next));
        i, quote := next, quoteNext;
        continue;
      }
      OutsideNext(s, i);
      BracesNext(s, i);
      if s[i] == '{' {
        if depth == 0 {
          count := count + 1;
        }
        depth := depth + 1;
      } else if s[i] == '}' {
        if depth > 0 {
          depth := depth - 1;
        }
      }
      i := i + 1;
    }
    assert s[..|s|] == s;
  }

  // ---------------------------------------------------------- last_significant_index

  method LastSignificantIndex(s: string) returns (last: int)
    ensures last == LastSignificant(s)
  {
    var i, quote := 0, None;
    last := -1;
    while i < |s|
      invariant AtHead(s, i, quote) && (Before(s, i).Slash? ==> i > 0)
      invariant last == if Before(s, i).Slash? then Clip(s, i) - 1 else LastBefore(s[..Clip(s, i)])
      decreases |s| - i
    {
      var skipped, next, quoteNext, marks := Skip(s, i, quote);
      if skipped {
        last := if marks then i else last;
        i, quote := next, quoteNext;
        continue;
      }
      OutsideNext(s, i);
      LastStep(s, i);
      if !IsSpace(s[i]) {
        last := i;
      }
      i := i + 1;
    }
    assert s[..|s|] == s;
  }
}
