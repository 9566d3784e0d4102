/**
 The block splitter of the Markdown renderer: `parse_blocks` walks the lines with
 one index and one inner loop per block kind.

 Lines are real strings and the regular expressions are written out as predicates
 on them. The original never returns when a block-start line is refused by every
 branch; the method below reports the index of that line instead.
 */
module MarkdownBlocks {
  import opened Wrappers
  import opened PythonText

  // ------------------------------------------------------------ character classes

  predicate IsDigit(c: char) { '0' <= c <= '9' }

  predicate IsWord(c: char) { IsDigit(c) || 'a' <= c <= 'z' || 'A' <= c <= 'Z' || c == '_' }

  function LStrip(s: string): (r: string)
    ensures r != "" ==> !IsSpace(r[0])
    ensures s != "" && !IsSpace(s[0]) ==> r == s
  {
    if s != "" && IsSpace(s[0]) then LStrip(s[1..]) else s
  }

  function RStrip(s: string): (r: string)
    ensures r <= s
    ensures s != "" && !IsSpace(s[0]) ==> r != ""
  {
    if s != "" && IsSpace(s[|s| - 1]) then RStrip(s[..|s| - 1]) else s
  }

  function Strip(s: string): string { RStrip(LStrip(s)) }

  /** How many characters `c` the string starts with. */
  function Run(s: string, c: char): (n: nat)
    ensures n <= |s|
  {
    if s != "" && s[0] == c then 1 + Run(s[1..], c) else 0
  }

  function DigitRun(s: string): (n: nat)
    ensures n <= |s|
  {
    if s != "" && IsDigit(s[0]) then 1 + DigitRun(s[1..]) else 0
  }

  predicate AllWord(s: string) { forall i :: 0 <= i < |s| ==> IsWord(s[i]) }

  predicate All(s: string, c: char) { forall i :: 0 <= i < |s| ==> s[i] == c }

  // ---------------------------------------------------------------- line shapes

  predicate Blank(l: string) { Strip(l) == "" }

  /** `^(`{3,}|~{3,})` on the stripped line. */
  predicate FencePrefix(l: string) { Run(Strip(l), '`') >= 3 || Run(Strip(l), '~') >= 3 }

  /** The full fence line: a run of one marker, an optional word, nothing else. */
  predicate Fence(l: string) {
    var s := Strip(l);
    || (Run(s, '`') >= 3 && AllWord(s[Run(s, '`')..]))
    || (Run(s, '~') >= 3 && AllWord(s[Run(s, '~')..]))
  }

  predicate ClosesFence(l: string, marker: char) { Run(Strip(l), marker) >= 3 }

  /** `^(#{1,6})\s+` */
  predicate HeadingPrefix(l: string) {
    var k := Run(l, '#');
    1 <= k <= 6 && k < |l| && IsSpace(l[k])
  }

  /** `^(#{1,6})\s+(.+)$`: after the first space at least one more character. */
  predicate Heading(l: string) { HeadingPrefix(l) && Run(l, '#') + 2 <= |l| }

  predicate Rule(l: string) {
    var s := Strip(l);
    |s| >= 3 && (All(s, '-') || All(s, '*') || All(s, '_'))
  }

  predicate Quote(l: string) { LStrip(l) != "" && LStrip(l)[0] == '>' }

  /** `^\s*[-*+]\s+` */
  predicate Bullet(l: string) {
    var s := LStrip(l);
    |s| >= 2 && (s[0] == '-' || s[0] == '*' || s[0] == '+') && IsSpace(s[1])
  }

  /** `^(\s*)[-*+]\s+\[([ xX])\]\s+(.+)$` */
  predicate Task(l: string) {
    && Bullet(l)
    && var t := LStrip(LStrip(l)[1..]);
       && |t| >= 5 && t[0] == '[' && (t[1] == ' ' || t[1] == 'x' || t[1] == 'X') && t[2] == ']' && IsSpace(t[3])
  }

  /** `^\s*\d+\.\s+` */
  predicate Ordered(l: string) {
    var s := LStrip(l);
    var k := DigitRun(s);
    k >= 1 && k + 2 <= |s| && s[k] == '.' && IsSpace(s[k + 1])
  }

  datatype Kind = FenceBlock | HeadingBlock | RuleBlock | QuoteBlock | TaskList | BulletList | OrderedList | Paragraph

  /** The branch that a non-blank block-start line takes. */
  function KindOf(l: string): Kind {
    if Fence(l) then FenceBlock
    else if Heading(l) then HeadingBlock
    else if Rule(l) then RuleBlock
    else if Quote(l) then QuoteBlock
    else if Task(l) then TaskList
    else if Bullet(l) then BulletList
    else if Ordered(l) then OrderedList
    else Paragraph
  }

  /** The lines at which the paragraph loop breaks. */
  predicate BreaksParagraph(l: string) { HeadingPrefix(l) || FencePrefix(l) || Quote(l) || Bullet(l) || Ordered(l) }

  predicate InParagraph(l: string) { !Blank(l) && !BreaksParagraph(l) }

  // -------------------------------------------------------------- the stuck shapes

  /** One to six `#`, one white space, nothing else. */
  predicate BareHeading(l: string) {
    var k := Run(l, '#');
    1 <= k <= 6 && |l| == k + 1 && IsSpace(l[k])
  }

  /** A fence prefix that is not a full fence line. */
  predicate BrokenFence(l: string) { FencePrefix(l) && !Fence(l) }

  predicate Stuck(l: string) { BareHeading(l) || BrokenFence(l) }

  lemma HashIsFirst(l: string)
    requires Run(l, '#') >= 1
    ensures LStrip(l) == l && !Blank(l) && Strip(l)[0] == '#' && Run(Strip(l), '`') == 0 && Run(Strip(l), '~') == 0
  {
    assert !IsSpace('#');
    assert RStrip(l) <= l;
  }

  lemma FenceCharIsFirst(l: string)
    requires FencePrefix(l)
    ensures !Blank(l) && LStrip(l) != "" && (LStrip(l)[0] == '`' || LStrip(l)[0] == '~')
    ensures !HeadingPrefix(l) && !Rule(l) && !Quote(l) && !Bullet(l) && !Ordered(l)
  {
    assert Strip(l) <= LStrip(l);
    if l != "" && l[0] == '#' {
      HashIsFirst(l);
    }
  }

  /** The two shapes are the only block-start lines that every branch refuses. */
  lemma OnlyTwoShapesAreStuck(l: string)
    requires !Blank(l)
    ensures KindOf(l).Paragraph? && BreaksParagraph(l) <==> Stuck(l)
  {
    if FencePrefix(l) {
      FenceCharIsFirst(l);
      if BareHeading(l) {
        HashIsFirst(l);
      }
    } else if HeadingPrefix(l) {
      HashIsFirst(l);
    }
  }

  // --------------------------------------------------------------- the block list

  datatype Block = Block(kind: Kind, start: nat, end: nat)

  /** Lines `start..end` have `shape`, and the next one, if any, has not. */
  predicate MaximalRun(lines: seq<string>, shape: string -> bool, start: nat, end: nat) {
    && start < end <= |lines|
    && (forall i :: start <= i < end ==> shape(lines[i]))
    && (end < |lines| ==> !shape(lines[end]))
  }

  function Marker(l: string): char { if Strip(l) != "" then Strip(l)[0] else ' ' }

  /** The end of a fence: just after the first closing line, or the end of the text. */
  predicate FenceEnds(lines: seq<string>, start: nat, end: nat) {
    && start < end <= |lines|
    && (forall i :: start < i < end - 1 ==> !ClosesFence(lines[i], Marker(lines[start])))
    && (end < |lines| ==> start + 1 < end && ClosesFence(lines[end - 1], Marker(lines[start])))
  }

  /** Kind and extent of a block are those its first line calls for. */
  predicate BlockOk(lines: seq<string>, b: Block) {
    && b.start < b.end <= |lines|
    && !Blank(lines[b.start]) && !Stuck(lines[b.start])
    && b.kind == KindOf(lines[b.start])
    && match b.kind
       case FenceBlock => FenceEnds(lines, b.start, b.end)
       case HeadingBlock => b.end == b.start + 1
       case RuleBlock => b.end == b.start + 1
       case QuoteBlock => MaximalRun(lines, Quote, b.start, b.end)
       case TaskList => MaximalRun(lines, Task, b.start, b.end)
       case BulletList => MaximalRun(lines, Bullet, b.start, b.end)
       case OrderedList => MaximalRun(lines, Ordered, b.start, b.end)
       case Paragraph => MaximalRun(lines, InParagraph, b.start, b.end)
  }

  function LastEnd(blocks: seq<Block>): nat { if blocks == [] then 0 else blocks[|blocks| - 1].end }

  predicate BlanksBetween(lines: seq<string>, from: nat, to: nat) {
    from <= to <= |lines| && forall i :: from <= i < to ==> Blank(lines[i])
  }

  /** The blocks cover lines `0..upTo` in source order, leaving out only blank lines. */
  ghost predicate Covers(lines: seq<string>, blocks: seq<Block>, upTo: nat)
    decreases |blocks|
  {
    && BlanksBetween(lines, LastEnd(blocks), upTo)
    && (blocks != [] ==>
          var b := blocks[|blocks| - 1];
          BlockOk(lines, b) && Covers(lines, blocks[..|blocks| - 1], b.start))
  }

  lemma CoversAppend(lines: seq<string>, blocks: seq<Block>, b: Block)
    requires Covers(lines, blocks, b.start) && BlockOk(lines, b)
    ensures Covers(lines, blocks + [b], b.end)
  {
    assert (blocks + [b])[..|blocks + [b]| - 1] == blocks;
  }

  /** The inner loop of the quote, list and paragraph branches. */
  method TakeLines(lines: seq<string>, start: nat, shape: string -> bool) returns (i: nat)
    requires start < |lines|
    ensures start <= i <= |lines|
    ensures i == start <==> !shape(lines[start])
    ensures i > start ==> MaximalRun(lines, shape, start, i)
  {
    i := start;
    while i < |lines| && shape(lines[i])
      invariant start <= i <= |lines| && forall j :: start <= j < i ==> shape(lines[j])
    {
      i := i + 1;
    }
  }

  /** The inner loop of the fence branch. */
  method TakeFence(lines: seq<string>, start: nat) returns (i: nat)
    requires start < |lines|
    ensures FenceEnds(lines, start, i)
  {
    var marker := Marker(lines[start]);
    i := start + 1;
    while i < |lines| && !ClosesFence(lines[i], marker)
      invariant start + 1 <= i <= |lines|
      invariant forall j :: start < j < i ==> !ClosesFence(lines[j], marker)
    {
      i := i + 1;
    }
    if i < |lines| {
      i := i + 1;
    }
  }

  /** One pass of the outer loop at a line that is not blank; `b.end == b.start` when no
      branch advances. */
  method TakeBlock(lines: seq<string>, start: nat) returns (b: Block)
    requires start < |lines| && !Blank(lines[start])
    ensures b.start == start && start <= b.end <= |lines|
    ensures b.end == start <==> Stuck(lines[start])
    ensures b.end > start ==> BlockOk(lines, b)
  {
    var line := lines[start];
    OnlyTwoShapesAreStuck(line);
    var kind, end := KindOf(line), start + 1;
    match kind {
      case FenceBlock => end := TakeFence(lines, start);
      case HeadingBlock =>
      case RuleBlock =>
      case QuoteBlock => end := TakeLines(lines, start, Quote);
      case TaskList => end := TakeLines(lines, start, Task);
      case BulletList => end := TakeLines(lines, start, Bullet);
      case OrderedList => end := TakeLines(lines, start, Ordered);
      case Paragraph => end := TakeLines(lines, start, InParagraph);
    }
    b := Block(kind, start, end);
  }

  /** Returns the blocks, and the line at which the original loops forever, if there is one. */
  method ParseBlocks(lines: seq<string>) returns (blocks: seq<Block>, stuckAt: Option<nat>)
    ensures stuckAt.None? ==> Covers(lines, blocks, |lines|)
    ensures stuckAt.Some? ==> stuckAt.value < |lines| && Covers(lines, blocks, stuckAt.value)
    ensures stuckAt.Some? ==> !Blank(lines[stuckAt.value]) && Stuck(lines[stuckAt.value])
  {
    blocks, stuckAt := [], None;
    var i, n := 0, |lines|;
    while i < n
      invariant i <= n && Covers(lines, blocks, i)
      decreases n - i
    {
      if Blank(lines[i]) {
        CoversBlank(lines, blocks, i);
        i := i + 1;
        continue;
      }
      var b := TakeBlock(lines, i);
      if b.end == i {
        return blocks, Some(i);
      }
      CoversAppend(lines, blocks, b);
      blocks := blocks + [b];
      i := b.end;
    }
  }

  lemma CoversBlank(lines: seq<string>, blocks: seq<Block>, i: nat)
    requires i < |lines| && Covers(lines, blocks, i) && Blank(lines[i])
    ensures Covers(lines, blocks, i + 1)
  {
  }

  predicate Holds(b: Block, i: nat) { b.start <= i < b.end }

  ghost predicate InSomeBlock(blocks: seq<Block>, i: nat) { exists k :: 0 <= k < |blocks| && Holds(blocks[k], i) }

  /** Each non-blank line before `upTo` lies in some block. */
  lemma {:induction false} EachLineIsInABlock(lines: seq<string>, blocks: seq<Block>, upTo: nat, i: nat)
    requires Covers(lines, blocks, upTo) && i < upTo && !Blank(lines[i])
    ensures InSomeBlock(blocks, i)
    decreases |blocks|
  {
    if blocks != [] {
      var last := |blocks| - 1;
      if i < blocks[last].start {
        EachLineIsInABlock(lines, blocks[..last], blocks[last].start, i);
        var k :| 0 <= k < last && Holds(blocks[..last][k], i);
        assert Holds(blocks[k], i);
      } else {
        assert Holds(blocks[last], i);
      }
    }
  }

  /** The blocks before the last one cover what is before it. */
  lemma CoversInit(lines: seq<string>, blocks: seq<Block>, upTo: nat)
    requires Covers(lines, blocks, upTo) && blocks != []
    ensures BlockOk(lines, blocks[|blocks| - 1])
    ensures blocks[|blocks| - 1].start <= blocks[|blocks| - 1].end <= upTo
    ensures Covers(lines, blocks[..|blocks| - 1], blocks[|blocks| - 1].start)
  {
  }

  /** Each block is as its first line calls for, and none starts at a stuck shape. */
  lemma {:induction false} EachBlockIsOk(lines: seq<string>, blocks: seq<Block>, upTo: nat, k: nat)
    requires Covers(lines, blocks, upTo) && k < |blocks|
    ensures blocks[k].end <= upTo && BlockOk(lines, blocks[k])
    decreases |blocks|
  {
    CoversInit(lines, blocks, upTo);
    if k < |blocks| - 1 {
      var init, start := blocks[..|blocks| - 1], blocks[|blocks| - 1].start;
      assert init[k] == blocks[k];
      EachBlockIsOk(lines, init, start, k);
    }
  }

  /** Blocks follow each other in source order without overlap. */
  lemma {:induction false} BlocksAreInOrder(lines: seq<string>, blocks: seq<Block>, upTo: nat, k: nat, m: nat)
    requires Covers(lines, blocks, upTo) && k < m < |blocks|
    ensures blocks[k].end <= blocks[m].start
    decreases |blocks|
  {
    CoversInit(lines, blocks, upTo);
    var last := |blocks| - 1;
    assert blocks[..last][k] == blocks[k];
    if m == last {
      EachBlockIsOk(lines, blocks[..last], blocks[last].start, k);
    } else {
      BlocksAreInOrder(lines, blocks[..last], blocks[last].start, k, m);
      assert blocks[..last][m] == blocks[m];
    }
  }

  /** No line is in two blocks. */
  lemma LineIsInOneBlock(lines: seq<string>, blocks: seq<Block>, upTo: nat, i: nat, k: nat, m: nat)
    requires Covers(lines, blocks, upTo) && k < |blocks| && m < |blocks|
    requires blocks[k].start <= i < blocks[k].end && blocks[m].start <= i < blocks[m].end
    ensures k == m
  {
    if k < m {
      BlocksAreInOrder(lines, blocks, upTo, k, m);
    } else if m < k {
      BlocksAreInOrder(lines, blocks, upTo, m, k);
    }
  }

  /** A line of each stuck shape. */
  lemma StuckLines()
    ensures Stuck("# ") && Stuck("``` a")
  {
    assert "# "[1..] == " " && Run(" ", '#') == 0 && Run("# ", '#') == 1;
    FencedLine();
  }

  lemma FencedLine()
    ensures BrokenFence("``` a")
  {
    var l := "``` a";
    assert LStrip(l) == l && RStrip(l) == l;
    assert l[1..] == "`` a" && "`` a"[1..] == "` a" && "` a"[1..] == " a";
    assert Run(" a", '`') == 0 && Run("` a", '`') == 1 && Run("`` a", '`') == 2 && Run(l, '`') == 3;
    assert l[3..] == " a" && !IsWord(' ');
  }
}
