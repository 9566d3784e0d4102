/**
 The line shapes of the Markdown renderer as their regular expressions spell them,
 part by part, and which kind of block a line of each shape starts. Apart from task
 lines, which are bullet lines too, no line has two shapes, so the order of the
 branches decides nothing else.
 */
module LineShapes {
  import opened PythonText
  import opened MarkdownBlocks

  predicate IsMark(c: char) { c == '-' || c == '*' || c == '+' }

  predicate AllDigits(s: string) { forall i :: 0 <= i < |s| ==> '0' <= s[i] <= '9' }

  /** White space, `>`, anything. */
  predicate QuoteAt(l: string, a: string, rest: string) { AllSpace(a) && l == a + (">" + rest) }

  /** White space, a mark, white space, anything. */
  predicate BulletAt(l: string, a: string, c: char, d: char, rest: string) {
    AllSpace(a) && IsMark(c) && IsSpace(d) && l == a + ([c, d] + rest)
  }

  /** A bullet whose text is a box, white space and something. */
  predicate TaskAt(l: string, a: string, c: char, b: string, x: char, d: char, rest: string) {
    && AllSpace(a) && IsMark(c) && b != "" && AllSpace(b) && (x == ' ' || x == 'x' || x == 'X') && IsSpace(d) && rest != ""
    && l == a + ([c] + (b + (['[', x, ']', d] + rest)))
  }

  /** White space, digits, a dot, white space, anything. */
  predicate OrderedAt(l: string, a: string, n: string, d: char, rest: string) {
    AllSpace(a) && n != "" && AllDigits(n) && IsSpace(d) && l == a + (n + (['.', d] + rest))
  }

  /** One to six `#`, white space, something. */
  predicate HeadingAt(l: string, h: string, d: char, rest: string) {
    1 <= |h| <= 6 && All(h, '#') && IsSpace(d) && rest != "" && l == h + ([d] + rest)
  }

  /** Three or more of one character, and white space around them. */
  predicate RuleAt(l: string, a: string, c: char, r: string, b: string) {
    AllSpace(a) && AllSpace(b) && |r| >= 3 && (c == '-' || c == '*' || c == '_') && All(r, c) && l == a + (r + b)
  }

  /** Three or more of one marker, a word or none, and white space around them. */
  predicate FenceAt(l: string, a: string, c: char, r: string, w: string, b: string) {
    && AllSpace(a) && AllSpace(b) && |r| >= 3 && (c == '`' || c == '~') && All(r, c) && AllWord(w)
    && l == a + (r + (w + b))
  }

  /** White space, three times the marker, anything. */
  predicate MarkerAt(l: string, a: string, c: char, rest: string) { AllSpace(a) && l == a + ([c, c, c] + rest) }

  /** One to six `#`, white space, anything. */
  predicate HashesAt(l: string, h: string, d: char, rest: string) {
    1 <= |h| <= 6 && All(h, '#') && IsSpace(d) && l == h + ([d] + rest)
  }

  // ---------------------------------------------------------- stripping, as splitting

  lemma {:induction false} LeftSplit(l: string, a: string, s: string)
    requires AllSpace(a) && l == a + s && (s == "" || !IsSpace(s[0]))
    ensures LStrip(l) == s
  {
    if a == "" {
      assert l == s;
    } else {
      assert l[0] == a[0] && l[1..] == a[1..] + s;
      LeftSplit(l[1..], a[1..], s);
    }
  }

  lemma {:induction false} LeftParts(l: string) returns (a: string)
    ensures AllSpace(a) && l == a + LStrip(l)
  {
    if l != "" && IsSpace(l[0]) {
      a := LeftParts(l[1..]);
      a := [l[0]] + a;
    } else {
      a := "";
    }
  }

  lemma {:induction false} RightSplit(l: string, s: string, b: string)
    requires AllSpace(b) && l == s + b && (s == "" || !IsSpace(s[|s| - 1]))
    ensures RStrip(l) == s
    decreases |b|
  {
    if b == "" {
      assert l == s;
    } else {
      assert l[|l| - 1] == b[|b| - 1] && l[..|l| - 1] == s + b[..|b| - 1];
      RightSplit(l[..|l| - 1], s, b[..|b| - 1]);
    }
  }

  lemma {:induction false} RightParts(l: string) returns (b: string)
    ensures AllSpace(b) && l == RStrip(l) + b
    decreases |l|
  {
    if l != "" && IsSpace(l[|l| - 1]) {
      b := RightParts(l[..|l| - 1]);
      b := b + [l[|l| - 1]];
    } else {
      b := "";
    }
  }

  /** What is between the white space at both ends. */
  lemma BothSplit(l: string, a: string, s: string, b: string)
    requires AllSpace(a) && AllSpace(b) && l == a + (s + b) && s != "" && !IsSpace(s[0]) && !IsSpace(s[|s| - 1])
    ensures MarkdownBlocks.Strip(l) == s
  {
    LeftSplit(l, a, s + b);
    RightSplit(s + b, s, b);
  }

  lemma BothParts(l: string) returns (a: string, b: string)
    ensures AllSpace(a) && AllSpace(b) && l == a + (MarkdownBlocks.Strip(l) + b)
  {
    a := LeftParts(l);
    b := RightParts(LStrip(l));
  }

  // ----------------------------------------------------------------------- the shapes

  lemma QuoteIff(l: string)
    ensures Quote(l) <==> exists a, rest :: QuoteAt(l, a, rest)
  {
    if Quote(l) {
      var a, rest := QuoteParts(l);
    }
    forall a, rest | QuoteAt(l, a, rest) ensures Quote(l) {
      LeftSplit(l, a, ">" + rest);
    }
  }

  lemma QuoteParts(l: string) returns (a: string, rest: string)
    requires Quote(l)
    ensures QuoteAt(l, a, rest)
  {
    a := LeftParts(l);
    rest := LStrip(l)[1..];
    assert LStrip(l) == ">" + rest;
  }

  lemma BulletIff(l: string)
    ensures Bullet(l) <==> exists a, c, d, rest :: BulletAt(l, a, c, d, rest)
  {
    if Bullet(l) {
      var a := LeftParts(l);
      var s := LStrip(l);
      assert s == [s[0], s[1]] + s[2..];
      assert BulletAt(l, a, s[0], s[1], s[2..]);
    }
    forall a, c, d, rest | BulletAt(l, a, c, d, rest) ensures Bullet(l) {
      LeftSplit(l, a, [c, d] + rest);
    }
  }

  lemma TaskIff(l: string)
    ensures Task(l) <==> exists a, c, b, x, d, rest :: TaskAt(l, a, c, b, x, d, rest)
  {
    if Task(l) {
      var a := LeftParts(l);
      var s := LStrip(l);
      var b := LeftParts(s[1..]);
      var t := LStrip(s[1..]);
      assert s == [s[0]] + s[1..] && t == [t[0], t[1], t[2], t[3]] + t[4..];
      assert b != "" by {
        assert IsSpace(s[1]) && s[1..][0] == s[1];
      }
      assert TaskAt(l, a, s[0], b, t[1], t[3], t[4..]);
    }
    forall a, c, b, x, d, rest | TaskAt(l, a, c, b, x, d, rest) ensures Task(l) {
      TaskHolds(l, a, c, b, x, d, rest);
    }
  }

  lemma TaskHolds(l: string, a: string, c: char, b: string, x: char, d: char, rest: string)
    requires TaskAt(l, a, c, b, x, d, rest)
    ensures Task(l)
  {
    var box := ['[', x, ']', d] + rest;
    LeftSplit(l, a, [c] + (b + box));
    assert ([c] + (b + box))[1..] == b + box;
    LeftSplit(b + box, b, box);
  }

  lemma {:induction false} DigitsRun(n: string, rest: string)
    requires AllDigits(n) && (rest == "" || !IsDigit(rest[0]))
    ensures DigitRun(n + rest) == |n|
  {
    if n == "" {
      assert n + rest == rest;
    } else {
      assert (n + rest)[1..] == n[1..] + rest;
      DigitsRun(n[1..], rest);
    }
  }

  lemma {:induction false} RunDigits(s: string)
    ensures AllDigits(s[..DigitRun(s)])
  {
    if s != "" && IsDigit(s[0]) {
      RunDigits(s[1..]);
      assert s[..DigitRun(s)] == [s[0]] + s[1..][..DigitRun(s[1..])];
    }
  }

  lemma OrderedIff(l: string)
    ensures Ordered(l) <==> exists a, n, d, rest :: OrderedAt(l, a, n, d, rest)
  {
    if Ordered(l) {
      var a := LeftParts(l);
      var s := LStrip(l);
      var k := DigitRun(s);
      RunDigits(s);
      assert s == s[..k] + (['.', s[k + 1]] + s[k + 2..]);
      assert OrderedAt(l, a, s[..k], s[k + 1], s[k + 2..]);
    }
    forall a, n, d, rest | OrderedAt(l, a, n, d, rest) ensures Ordered(l) {
      LeftSplit(l, a, n + (['.', d] + rest));
      DigitsRun(n, ['.', d] + rest);
    }
  }

  lemma {:induction false} CharsRun(r: string, c: char, rest: string)
    requires All(r, c) && (rest == "" || rest[0] != c)
    ensures Run(r + rest, c) == |r|
  {
    if r == "" {
      assert r + rest == rest;
    } else {
      assert (r + rest)[1..] == r[1..] + rest;
      CharsRun(r[1..], c, rest);
    }
  }

  lemma {:induction false} RunChars(s: string, c: char)
    ensures All(s[..Run(s, c)], c)
  {
    if s != "" && s[0] == c {
      RunChars(s[1..], c);
      assert s[..Run(s, c)] == [s[0]] + s[1..][..Run(s[1..], c)];
    }
  }

  lemma HeadingIff(l: string)
    ensures Heading(l) <==> exists h, d, rest :: HeadingAt(l, h, d, rest)
  {
    if Heading(l) {
      var k := Run(l, '#');
      RunChars(l, '#');
      assert l == l[..k] + ([l[k]] + l[k + 1..]);
      assert HeadingAt(l, l[..k], l[k], l[k + 1..]);
    }
    forall h, d, rest | HeadingAt(l, h, d, rest) ensures Heading(l) {
      assert !IsSpace('#');
      CharsRun(h, '#', [d] + rest);
    }
  }

  lemma RuleIff(l: string)
    ensures Rule(l) <==> exists a, c, r, b :: RuleAt(l, a, c, r, b)
  {
    if Rule(l) {
      var a, b := BothParts(l);
      var s := MarkdownBlocks.Strip(l);
      assert RuleAt(l, a, s[0], s, b);
    }
    forall a, c, r, b | RuleAt(l, a, c, r, b) ensures Rule(l) {
      assert !IsSpace('-') && !IsSpace('*') && !IsSpace('_');
      BothSplit(l, a, r, b);
    }
  }

  lemma FenceIff(l: string)
    ensures Fence(l) <==> exists a, c, r, w, b :: FenceAt(l, a, c, r, w, b)
  {
    if Fence(l) {
      var a, b := BothParts(l);
      var s := MarkdownBlocks.Strip(l);
      var c := if Run(s, '`') >= 3 && AllWord(s[Run(s, '`')..]) then '`' else '~';
      var k := Run(s, c);
      RunChars(s, c);
      Threefold(a, s[..k], s[k..], b);
      assert s == s[..k] + s[k..];
      assert FenceAt(l, a, c, s[..k], s[k..], b);
    }
    forall a, c, r, w, b | FenceAt(l, a, c, r, w, b) ensures Fence(l) {
      FenceHolds(l, a, c, r, w, b);
    }
  }

  lemma Threefold(a: string, r: string, w: string, b: string)
    ensures a + ((r + w) + b) == a + (r + (w + b))
  {
    assert (r + w) + b == r + (w + b);
  }

  lemma FenceHolds(l: string, a: string, c: char, r: string, w: string, b: string)
    requires FenceAt(l, a, c, r, w, b)
    ensures Fence(l)
  {
    assert !IsSpace('`') && !IsSpace('~') && forall ch: char :: IsWord(ch) ==> !IsSpace(ch);
    Threefold(a, r, w, b);
    BothSplit(l, a, r + w, b);
    CharsRun(r, c, w);
    assert (r + w)[|r|..] == w;
  }

  lemma BlankIff(l: string)
    ensures Blank(l) <==> AllSpace(l)
  {
    var a, b := BothParts(l);
    if AllSpace(l) {
      assert l == l + "";
      LeftSplit(l, l, "");
    }
  }

  lemma HeadingPrefixIff(l: string)
    ensures HeadingPrefix(l) <==> exists h, d, rest :: HashesAt(l, h, d, rest)
  {
    if HeadingPrefix(l) {
      var k := Run(l, '#');
      RunChars(l, '#');
      assert l == l[..k] + ([l[k]] + l[k + 1..]);
      assert HashesAt(l, l[..k], l[k], l[k + 1..]);
    }
    forall h, d, rest | HashesAt(l, h, d, rest) ensures HeadingPrefix(l) {
      assert !IsSpace('#');
      CharsRun(h, '#', [d] + rest);
    }
  }

  lemma ThreeRun(s: string, c: char)
    ensures Run(s, c) >= 3 <==> |s| >= 3 && s[..3] == [c, c, c]
  {
    if s != "" && s[1..] != "" {
      assert Run(s[1..], c) >= 2 <==> s[1] == c && Run(s[1..][1..], c) >= 1;
    }
  }

  lemma RightKeepsStart(s: string, m: string)
    requires forall i :: 0 <= i < |m| ==> !IsSpace(m[i])
    ensures m <= RStrip(s) <==> m <= s
  {
    var b := RightParts(s);
    var n := |RStrip(s)|;
    assert m <= s ==> forall i :: 0 <= i < |m| ==> s[i] == m[i];
    assert b != "" ==> s[n] == b[0] && IsSpace(s[n]);
  }

  /** The stripped line starts with a marker exactly when the line does behind its white space. */
  lemma MarkerIff(l: string, c: char)
    requires !IsSpace(c)
    ensures Run(MarkdownBlocks.Strip(l), c) >= 3 <==> exists a, rest :: MarkerAt(l, a, c, rest)
  {
    var m := [c, c, c];
    var s := LStrip(l);
    ThreeRun(MarkdownBlocks.Strip(l), c);
    RightKeepsStart(s, m);
    if m <= s {
      var a := LeftParts(l);
      assert s == m + s[3..];
      assert MarkerAt(l, a, c, s[3..]);
    }
    forall a, rest | MarkerAt(l, a, c, rest) ensures m <= s {
      LeftSplit(l, a, m + rest);
    }
  }

  /** The line that ends a fence opened with `marker`. */
  lemma ClosesFenceIff(l: string, marker: char)
    requires marker == '`' || marker == '~'
    ensures ClosesFence(l, marker) <==> exists a, rest :: MarkerAt(l, a, marker, rest)
  {
    MarkerIff(l, marker);
  }

  /** A fence is closed by the marker that opens it. */
  lemma MarkerOfFence(l: string, a: string, c: char, r: string, w: string, b: string)
    requires FenceAt(l, a, c, r, w, b)
    ensures Marker(l) == c
  {
    assert !IsSpace('`') && !IsSpace('~') && forall ch: char :: IsWord(ch) ==> !IsSpace(ch);
    Threefold(a, r, w, b);
    BothSplit(l, a, r + w, b);
  }

  // ------------------------------------------------------------------------ the kinds

  /** Apart from task lines no line has two of the shapes. */
  lemma ShapesExclude(l: string)
    ensures Fence(l) ==> !Heading(l) && !Rule(l) && !Quote(l) && !Bullet(l) && !Ordered(l)
    ensures Heading(l) ==> !Rule(l) && !Quote(l) && !Bullet(l) && !Ordered(l)
    ensures Rule(l) ==> !Quote(l) && !Bullet(l) && !Ordered(l)
    ensures Quote(l) ==> !Bullet(l) && !Ordered(l)
    ensures Bullet(l) ==> !Ordered(l)
  {
    if Fence(l) {
      FenceCharIsFirst(l);
    } else if Heading(l) {
      HashIsFirst(l);
    } else if Rule(l) {
      var s := MarkdownBlocks.Strip(l);
      assert s <= LStrip(l) && s[0] == s[1];
      assert !IsSpace('-') && !IsSpace('*') && !IsSpace('_');
    }
  }

  /** The kind of block that a line starts, by its shape alone; a task line is a task line although
      it is a bullet line as well. */
  lemma KindIff(l: string)
    ensures KindOf(l).FenceBlock? <==> exists a, c, r, w, b :: FenceAt(l, a, c, r, w, b)
    ensures KindOf(l).HeadingBlock? <==> exists h, d, rest :: HeadingAt(l, h, d, rest)
    ensures KindOf(l).RuleBlock? <==> exists a, c, r, b :: RuleAt(l, a, c, r, b)
    ensures KindOf(l).QuoteBlock? <==> exists a, rest :: QuoteAt(l, a, rest)
    ensures KindOf(l).TaskList? <==> exists a, c, b, x, d, rest :: TaskAt(l, a, c, b, x, d, rest)
    ensures KindOf(l).BulletList? <==>
      (exists a, c, d, rest :: BulletAt(l, a, c, d, rest)) && !exists a, c, b, x, d, rest :: TaskAt(l, a, c, b, x, d, rest)
    ensures KindOf(l).OrderedList? <==> exists a, n, d, rest :: OrderedAt(l, a, n, d, rest)
  {
    ShapesExclude(l);
    FenceIff(l);
    HeadingIff(l);
    RuleIff(l);
    QuoteIff(l);
    TaskIff(l);
    BulletIff(l);
    OrderedIff(l);
  }

  /** The lines at which a paragraph ends. */
  lemma ParagraphEndsIff(l: string)
    ensures InParagraph(l) <==>
      && !AllSpace(l)
      && !(exists h, d, rest :: HashesAt(l, h, d, rest))
      && !(exists a, c, rest :: (c == '`' || c == '~') && MarkerAt(l, a, c, rest))
      && !(exists a, rest :: QuoteAt(l, a, rest))
      && !(exists a, c, d, rest :: BulletAt(l, a, c, d, rest))
      && !(exists a, n, d, rest :: OrderedAt(l, a, n, d, rest))
  {
    BlankIff(l);
    HeadingPrefixIff(l);
    MarkerIff(l, '`');
    MarkerIff(l, '~');
    QuoteIff(l);
    BulletIff(l);
    OrderedIff(l);
  }

  ghost predicate IsQuoteLine(l: string) { exists a, rest :: QuoteAt(l, a, rest) }

  ghost predicate IsBulletLine(l: string) { exists a, c, d, rest :: BulletAt(l, a, c, d, rest) }

  ghost predicate IsTaskLine(l: string) { exists a, c, b, x, d, rest :: TaskAt(l, a, c, b, x, d, rest) }

  ghost predicate IsOrderedLine(l: string) { exists a, n, d, rest :: OrderedAt(l, a, n, d, rest) }

  /** Which lines a list or a quote takes in: all that follow each other and have the shape of its
      items, whatever other shape they have too. */
  lemma BlockTakesIn(lines: seq<string>, b: Block, i: nat)
    requires BlockOk(lines, b) && b.start <= i <= b.end && i < |lines|
    ensures b.kind.QuoteBlock? ==> (IsQuoteLine(lines[i]) <==> i < b.end)
    ensures b.kind.TaskList? ==> (IsTaskLine(lines[i]) <==> i < b.end)
    ensures b.kind.BulletList? ==> (IsBulletLine(lines[i]) <==> i < b.end)
    ensures b.kind.OrderedList? ==> (IsOrderedLine(lines[i]) <==> i < b.end)
    ensures b.kind.Paragraph? ==> (InParagraph(lines[i]) <==> i < b.end)
    ensures b.kind.HeadingBlock? || b.kind.RuleBlock? ==> b.end == b.start + 1
  {
    QuoteIff(lines[i]);
    TaskIff(lines[i]);
    BulletIff(lines[i]);
    OrderedIff(lines[i]);
  }

  /** A fence takes in all lines up to the first that closes it, and that line. */
  lemma FenceTakesIn(lines: seq<string>, b: Block, i: nat, a: string, c: char, r: string, w: string, z: string)
    requires BlockOk(lines, b) && FenceAt(lines[b.start], a, c, r, w, z) && b.start < i < |lines|
    ensures i < b.end - 1 ==> !exists a, rest :: MarkerAt(lines[i], a, c, rest)
    ensures i == b.end - 1 && b.end < |lines| ==> exists a, rest :: MarkerAt(lines[i], a, c, rest)
    ensures b.end == b.start + 1 ==> b.end == |lines|
  {
    FenceIff(lines[b.start]);
    MarkerOfFence(lines[b.start], a, c, r, w, z);
    ClosesFenceIff(lines[i], c);
  }
}
