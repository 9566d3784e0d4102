/**
 patch_regions, old and new: the block that encloses the dashboard's region, the
 insertion behind it, and upgrading against installing fresh.

 Braces are matched on characters, through strings and comments as the lexer reads
 them; the blocks inserted and removed are lines. `Cut` is where the two views meet:
 the text in front of the cut and the text behind it, split into lines each, so that
 what the pass over marked blocks does can be said of the three parts separately.
 */
module RegionsPatch {
  import opened Wrappers
  import opened Lexer
  import opened TextLines
  import Markers

  // ------------------------------------------------------------- enclosing blocks

  function FirstClosing(s: string, k: nat): (r: int)
    ensures r == -1 || (k <= r < |s| && Closing(s, r, '{', '}'))
    ensures forall j :: k <= j < (if r < 0 then |s| else r) ==> !Closing(s, j, '{', '}')
    decreases |s| - k
  {
    if k >= |s| then -1 else if Closing(s, k, '{', '}') then k else FirstClosing(s, k + 1)
  }

  /** find_matching_brace: where the brace at `open0` closes, or -1. */
  function MatchOf(text: string, open0: nat): (r: int)
    requires open0 < |text|
    ensures r == -1 || open0 <= r < |text|
  {
    var k := FirstClosing(text[open0..], 0);
    if k < 0 then -1 else open0 + k
  }

  /** The brace at `open0` opens a block that position `i` is in. */
  predicate Encloses(text: string, i: nat, open0: nat) {
    open0 < i <= |text| && text[open0] == '{' && MatchOf(text, open0) >= i
  }

  /** The innermost block around `i` that opens before `below`. */
  function Innermost(text: string, i: nat, below: nat): (r: Option<nat>)
    requires below <= i <= |text|
    ensures r.Some? ==> r.value < below && Encloses(text, i, r.value)
    ensures forall o :: (if r.Some? then r.value + 1 else 0) <= o < below ==> !Encloses(text, i, o)
  {
    if below == 0 then Option.None
    else if Encloses(text, i, below - 1) then Some(below - 1)
    else Innermost(text, i, below - 1)
  }

  method LastBrace(text: string, below: nat) returns (o: int)
    requires below <= |text|
    ensures -1 <= o < below && (o >= 0 ==> text[o] == '{')
    ensures forall k :: o < k < below ==> text[k] != '{'
  {
    o := below - 1;
    while o >= 0 && text[o] != '{'
      invariant -1 <= o < below && forall k :: o < k < below ==> text[k] != '{'
    {
      o := o - 1;
    }
  }

  lemma {:induction false} SkipNonBraces(text: string, i: nat, below: nat, o: int)
    requires -1 <= o < below <= i <= |text| && forall k :: o < k < below ==> text[k] != '{'
    ensures Innermost(text, i, below) == Innermost(text, i, o + 1)
    decreases below
  {
    if o + 1 < below {
      SkipNonBraces(text, i, below - 1, o);
    }
  }

  lemma MatchIs(text: string, open0: nat, r: int)
    requires open0 < |text| && (r == -1 || (0 <= r < |text| - open0 && Closing(text[open0..], r, '{', '}')))
    requires forall k :: 0 <= k < (if r < 0 then |text| - open0 else r) ==> !Closing(text[open0..], k, '{', '}')
    ensures MatchOf(text, open0) == if r < 0 then -1 else open0 + r
  {
  }

  /** find_enclosing_block: the innermost `{...}` that position `i` is in. */
  method FindEnclosingBlock(text: string, i: nat) returns (r: Option<(nat, nat)>)
    requires i <= |text|
    ensures r.Some? ==> Encloses(text, i, r.value.0) && r.value.1 == MatchOf(text, r.value.0)
    ensures r.Some? ==> forall o :: r.value.0 < o < i ==> !Encloses(text, i, o)
    ensures r.None? ==> forall o :: 0 <= o < i ==> !Encloses(text, i, o)
    ensures Innermost(text, i, i) == if r.Some? then Some(r.value.0) else Option.None
  {
    var o := LastBrace(text, i);
    SkipNonBraces(text, i, i, o);
    while o >= 0
      invariant -1 <= o < i && (o >= 0 ==> text[o] == '{')
      invariant Innermost(text, i, i) == Innermost(text, i, o + 1)
    {
      var close := FindMatching(text[o..], '{', '}');
      MatchIs(text, o, close);
      if close >= 0 && o + close >= i {
        return Some((o, o + close));
      }
      var next := LastBrace(text, o);
      SkipNonBraces(text, i, o, next);
      o := next;
    }
    r := Option.None;
  }

  // ----------------------------------------------------------------- the insertion

  /** The text cut behind the brace at `close`: the second part starts behind the newline that
      may follow. */
  function CutAt(text: string, close: nat): (r: (string, string))
    requires close < |text| && text[close] == '}'
    ensures r.0 != "" && r.0[|r.0| - 1] == '}'
    ensures text == r.0 + r.1 || text == r.0 + ("\n" + r.1)
  {
    var end := if close + 1 < |text| && text[close + 1] == '\n' then close + 2 else close + 1;
    assert text[close + 1..] == text[close + 1..end] + text[end..];
    assert end == close + 2 ==> text[close + 1..end] == "\n";
    (text[..close + 1], text[end..])
  }

  /** The text cut behind the block around position `at`. */
  function Cut(text: string, at: Option<nat>): (r: Option<(string, string)>)
    requires at.Some? ==> at.value <= |text|
    ensures r.Some? ==> r.value.0 != "" && r.value.0[|r.value.0| - 1] == '}'
    ensures r.Some? ==> text == r.value.0 + r.value.1 || text == r.value.0 + ("\n" + r.value.1)
  {
    if at.None? || Innermost(text, at.value, at.value).None? then Option.None
    else Some(CutAt(text, MatchOf(text, Innermost(text, at.value, at.value).value)))
  }

  /** insert_after_enclosing_block, for a block given by its lines. */
  function Between(x: string, block: seq<string>, y: string): string
    requires block != []
  {
    x + ("\n" + (Join(block) + ("\n" + y)))
  }

  method InsertBehind(text: string, close: nat, block: seq<string>) returns (r: string)
    requires block != [] && close < |text| && text[close] == '}'
    ensures r == Between(CutAt(text, close).0, block, CutAt(text, close).1)
  {
    var end := close + 1;
    if end < |text| && text[end] == '\n' {
      end := end + 1;
    }
    r := Between(text[..close + 1], block, text[end..]);
  }

  method InsertAfterEnclosingBlock(text: string, at: Option<nat>, block: seq<string>) returns (r: string, ok: bool)
    requires block != [] && (at.Some? ==> at.value <= |text|)
    ensures ok <==> Cut(text, at).Some?
    ensures r == if ok then Between(Cut(text, at).value.0, block, Cut(text, at).value.1) else text
  {
    if at.None? {
      return text, false;
    }
    var span := FindEnclosingBlock(text, at.value);
    CutIs(text, at.value);
    if span.None? {
      return text, false;
    }
    r := InsertBehind(text, span.value.1, block);
    ok := true;
  }

  lemma CutIs(text: string, at: nat)
    requires at <= |text|
    ensures var o := Innermost(text, at, at);
      && (o.None? ==> Cut(text, Some(at)).None?)
      && (o.Some? ==>
            && 0 <= MatchOf(text, o.value) < |text| && text[MatchOf(text, o.value)] == '}'
            && Cut(text, Some(at)) == Some(CutAt(text, MatchOf(text, o.value))))
  {
  }

  lemma LinesBetween(x: string, block: seq<string>, y: string)
    requires block != [] && forall l :: l in block ==> '\n' !in l
    ensures Split(Between(x, block, y)) == Split(x) + (block + Split(y))
  {
    SplitJoin(block);
    SplitAtNewline(Join(block), y);
    SplitAtNewline(x, Join(block) + ("\n" + y));
  }

  // -------------------------------------------------------------------- the patches

  /** `panel` and `sentinel` tell whether a line contains the old and the new sentinel; `find`
      is where the dashboard pattern matches. */
  datatype Kit = Kit(
    find: string -> Option<nat>, panel: string -> bool, sentinel: string -> bool,
    oldBlock: seq<string>, newBlock: seq<string>)

  ghost predicate KitOk(k: Kit) {
    && (forall t :: k.find(t).Some? ==> k.find(t).value <= |t|)
    && BlockFits(k.oldBlock) && BlockFits(k.newBlock)
    && !Markers.Has(k.oldBlock, k.sentinel) && Markers.Has(k.newBlock, k.sentinel)
    && forall a: string, b: string :: CutApart(k, a, b)
  }

  predicate BlockFits(b: seq<string>) { Markers.IsBlock(b) && forall l :: l in b ==> '\n' !in l }

  /** The sentinel has no closing brace in it, so it does not go across one. */
  predicate CutApart(k: Kit, a: string, b: string) {
    a != "" && a[|a| - 1] == '}' ==> (k.sentinel(a + b) <==> k.sentinel(a) || k.sentinel(b))
  }

  function WithBlock(k: Kit, t: string, block: seq<string>): string
    requires block != [] && (k.find(t).Some? ==> k.find(t).value <= |t|)
  {
    var cut := Cut(t, k.find(t));
    if cut.None? then t else Between(cut.value.0, block, cut.value.1)
  }

  predicate HasBlock(lines: seq<string>) { lines != [] && (Markers.BlockStarts(lines) || HasBlock(lines[1..])) }

  /** The pattern's first match, replaced. */
  function ReplaceFirst(lines: seq<string>, block: seq<string>): seq<string> {
    if lines == [] then []
    else if Markers.BlockStarts(lines) then
      var n := Markers.BlockSize(lines);
      block + (Markers.Remnant(lines[n - 1], n == |lines|) + lines[n..])
    else [lines[0]] + ReplaceFirst(lines[1..], block)
  }

  ghost function OldPatch(k: Kit, t: string): string
    requires KitOk(k)
  {
    if Markers.Has(Split(t), k.panel) then t else WithBlock(k, t, k.oldBlock)
  }

  ghost function NewPatch(k: Kit, t: string): string
    requires KitOk(k)
  {
    if Markers.Has(Split(t), k.sentinel) then t
    else if HasBlock(Split(t)) then
      var lines := ReplaceFirst(Split(t), k.newBlock);
      if lines == [] then "" else Join(lines)
    else WithBlock(k, t, k.newBlock)
  }

  /** `o` opens the innermost block around `at`, and `close` closes it. */
  predicate InnermostAt(t: string, at: nat, o: nat, close: nat) {
    && o < at <= |t| && close < |t| && t[o] == '{' && MatchOf(t, o) == close >= at
    && forall i :: o < i < at && t[i] == '{' ==> MatchOf(t, i) < at
  }

  lemma CutsBehind(t: string, at: nat, o: nat, close: nat, rest: string)
    requires InnermostAt(t, at, o, close)
    requires rest == if close + 1 < |t| && t[close + 1] == '\n' then t[close + 2..] else t[close + 1..]
    ensures Cut(t, Some(at)) == Some((t[..close + 1], rest))
  {
    assert Encloses(t, at, o);
    CutIs(t, at);
  }

  /** Without the region and without a marked block, the new one goes right behind the innermost
      block around the place, on lines of its own: a newline behind the brace is taken in. */
  lemma RegionGoesTo(k: Kit, t: string, at: nat, o: nat, close: nat, rest: string)
    requires KitOk(k) && k.find(t) == Some(at) && InnermostAt(t, at, o, close)
    requires !Markers.Has(Split(t), k.sentinel) && !HasBlock(Split(t))
    requires rest == if close + 1 < |t| && t[close + 1] == '\n' then t[close + 2..] else t[close + 1..]
    ensures NewPatch(k, t) == t[..close + 1] + ("\n" + (Join(k.newBlock) + ("\n" + rest)))
  {
    CutsBehind(t, at, o, close, rest);
  }

  lemma Passed(out: seq<string>, l: string, rest: seq<string>)
    ensures out + ([l] + rest) == (out + [l]) + rest
  {
  }

  /** The search of the pattern's first match, and its replacement. */
  method ReplaceFirstBlock(lines: seq<string>, block: seq<string>) returns (r: seq<string>, found: bool)
    ensures found <==> HasBlock(lines)
    ensures r == ReplaceFirst(lines, block)
  {
    var out, here := [], lines;
    while here != [] && !Markers.BlockStarts(here)
      invariant HasBlock(here) <==> HasBlock(lines)
      invariant out + ReplaceFirst(here, block) == ReplaceFirst(lines, block)
      decreases |here|
    {
      Passed(out, here[0], ReplaceFirst(here[1..], block));
      out, here := out + [here[0]], here[1..];
    }
    found := here != [];
    r := out;
    if found {
      var n := Markers.BlockSize(here);
      r := out + (block + (Markers.Remnant(here[n - 1], n == |here|) + here[n..]));
    }
  }

  method PatchRegions(k: Kit, t: string) returns (r: string)
    requires KitOk(k)
    ensures r == NewPatch(k, t)
  {
    var lines := Split(t);
    if Markers.Has(lines, k.sentinel) {
      return t;
    }
    var replaced, found := ReplaceFirstBlock(lines, k.newBlock);
    if found {
      return if replaced == [] then "" else Join(replaced);
    }
    var ok;
    r, ok := InsertAfterEnclosingBlock(t, k.find(t), k.newBlock);
  }

  // ---------------------------------------------------------------------- the lines

  lemma {:induction false} NoBlock(lines: seq<string>)
    requires Markers.NoBegin(lines)
    ensures !HasBlock(lines)
    decreases |lines|
  {
    if lines != [] {
      assert lines[0] in lines && forall l :: l in lines[1..] ==> l in lines;
      NoBlock(lines[1..]);
    }
  }

  lemma {:induction false} FirstBlockIs(x: seq<string>, b: seq<string>, y: seq<string>, block: seq<string>)
    requires Markers.NoBegin(x) && Markers.IsBlock(b) && y != []
    ensures HasBlock(x + (b + y)) && ReplaceFirst(x + (b + y), block) == x + (block + y)
    decreases |x|
  {
    if x == [] {
      assert x + (b + y) == b + y;
      Markers.BlockMatches(b, y);
      assert [] + y == y && x + (block + y) == block + y;
    } else {
      assert x[0] in x && forall l :: l in x[1..] ==> l in x;
      FirstBlockIs(x[1..], b, y, block);
      var all := x + (b + y);
      assert all[1..] == x[1..] + (b + y) && all[0] == x[0];
      assert [x[0]] + (x[1..] + (block + y)) == x + (block + y);
    }
  }

  /** Without the region, the first marked block is replaced where it is, and nothing is inserted. */
  lemma RegionIsRenewed(k: Kit, t: string, x: seq<string>, b: seq<string>, y: seq<string>)
    requires KitOk(k) && !Markers.Has(Split(t), k.sentinel)
    requires Split(t) == x + (b + y) && Markers.NoBegin(x) && Markers.IsBlock(b) && y != []
    ensures NewPatch(k, t) == Join(x + (k.newBlock + y))
  {
    FirstBlockIs(x, b, y, k.newBlock);
  }

  lemma {:induction false} UntabbedIsSuffix(l: string)
    ensures |Markers.Untabbed(l)| <= |l| && l[|l| - |Markers.Untabbed(l)|..] == Markers.Untabbed(l)
    ensures Markers.Untabbed(l) == "" ==> forall i :: 0 <= i < |l| ==> Markers.IsTab(l[i])
  {
    if l != "" && Markers.IsTab(l[0]) {
      UntabbedIsSuffix(l[1..]);
      assert forall i :: 1 <= i < |l| ==> l[i] == l[1..][i - 1];
    }
  }

  lemma BeginEnds(l: string)
    requires Markers.IsBegin(l)
    ensures l != "" && (l[|l| - 1] == 'p' || Markers.IsTab(l[|l| - 1]))
  {
    var u := Markers.Untabbed(l);
    var rest := u[|Markers.MARK_BEGIN|..];
    UntabbedIsSuffix(l);
    UntabbedIsSuffix(rest);
    assert u[|u| - 1] == l[|l| - 1];
    if rest != "" {
      assert rest[|rest| - 1] == u[|u| - 1];
    } else {
      assert u[|u| - 1] == Markers.MARK_BEGIN[|Markers.MARK_BEGIN| - 1] == 'p';
    }
  }

  /** A line that ends in a brace is no opening marker. */
  lemma BraceIsNoBegin(l: string)
    requires l != "" && l[|l| - 1] == '}'
    ensures !Markers.IsBegin(l)
  {
    if Markers.IsBegin(l) {
      BeginEnds(l);
    }
  }

  /** The last line of a text. */
  function Bottom(x: string): string { Split(x)[|Split(x)| - 1] }

  lemma {:induction false} BottomEnds(x: string)
    requires x != "" && x[|x| - 1] == '}'
    ensures Bottom(x) != "" && Bottom(x)[|Bottom(x)| - 1] == '}'
    decreases |x|
  {
    var c, rest := x[0], x[1..];
    assert x == [c] + rest;
    SplitCons(c, rest);
    if rest != "" {
      BottomEnds(rest);
      if c != '\n' && |Split(rest)| == 1 {
        assert Split(x) == [[c] + Split(rest)[0]];
      }
    }
  }

  lemma GlueLines(p: seq<string>, q: seq<string>)
    requires p != [] && q != []
    ensures p == p[..|p| - 1] + [p[|p| - 1]] && q == [q[0]] + q[1..]
    ensures Glue(p, q) == p[..|p| - 1] + ([p[|p| - 1] + q[0]] + q[1..])
  {
  }

  /** The cut neither makes nor hides a sentinel. */
  lemma CutKeepsSentinel(k: Kit, t: string, x: string, y: string)
    requires KitOk(k) && x != "" && x[|x| - 1] == '}' && (t == x + y || t == x + ("\n" + y))
    ensures Markers.Has(Split(t), k.sentinel) <==> Markers.Has(Split(x), k.sentinel) || Markers.Has(Split(y), k.sentinel)
  {
    if t == x + ("\n" + y) {
      SplitAtNewline(x, y);
      Markers.HasSum(Split(x), Split(y), k.sentinel);
    } else {
      SplitSum(x, y);
      GlueHasSentinel(k, x, y);
    }
  }

  lemma GlueHasSentinel(k: Kit, x: string, y: string)
    requires KitOk(k) && x != "" && x[|x| - 1] == '}'
    ensures Markers.Has(Glue(Split(x), Split(y)), k.sentinel)
      <==> Markers.Has(Split(x), k.sentinel) || Markers.Has(Split(y), k.sentinel)
  {
    var p, q := Split(x), Split(y);
    var needle, above, below := k.sentinel, p[..|p| - 1], q[1..];
    GlueLines(p, q);
    BottomEnds(x);
    assert CutApart(k, Bottom(x), q[0]);
    Markers.HasSum(above, [Bottom(x)], needle);
    Markers.HasSum([q[0]], below, needle);
    Markers.HasSum(above, [Bottom(x) + q[0]] + below, needle);
    Markers.HasSum([Bottom(x) + q[0]], below, needle);
    Markers.HasOne(Bottom(x), needle);
    Markers.HasOne(q[0], needle);
    Markers.HasOne(Bottom(x) + q[0], needle);
  }

  /** Above the cut there is no opening marker if there is none in the text. */
  lemma CutHasNoBegin(t: string, x: string, y: string)
    requires Markers.NoBegin(Split(t)) && x != "" && x[|x| - 1] == '}' && (t == x + y || t == x + ("\n" + y))
    ensures Markers.NoBegin(Split(x))
  {
    var p := Split(x);
    BottomEnds(x);
    BraceIsNoBegin(Bottom(x));
    if t == x + ("\n" + y) {
      SplitAtNewline(x, y);
    } else {
      SplitSum(x, y);
    }
    forall i | 0 <= i < |p| ensures !Markers.IsBegin(p[i]) {
      if i < |p| - 1 {
        assert Split(t)[i] == p[i];
      }
    }
  }

  // ------------------------------------------------------------------- main results

  /** When upgrading is exact, for a text without opening markers: the old patch found itself
      there or no place to go, or the text has no modal region yet. */
  predicate UpgradesExactly(k: Kit, t: string)
    requires k.find(t).Some? ==> k.find(t).value <= |t|
  {
    Markers.Has(Split(t), k.panel) || Cut(t, k.find(t)).None? || !Markers.Has(Split(t), k.sentinel)
  }

  lemma NewOnOld(k: Kit, t: string, x: string, y: string)
    requires KitOk(k) && Markers.NoBegin(Split(t)) && !Markers.Has(Split(t), k.sentinel)
    requires x != "" && x[|x| - 1] == '}' && (t == x + y || t == x + ("\n" + y))
    ensures NewPatch(k, Between(x, k.oldBlock, y)) == Between(x, k.newBlock, y)
  {
    CutKeepsSentinel(k, t, x, y);
    CutHasNoBegin(t, x, y);
    LinesBetween(x, k.oldBlock, y);
    LinesBetween(x, k.newBlock, y);
    Markers.HasSum(Split(x), k.oldBlock + Split(y), k.sentinel);
    Markers.HasSum(k.oldBlock, Split(y), k.sentinel);
    FirstBlockIs(Split(x), k.oldBlock, Split(y), k.newBlock);
    JoinSplit(Between(x, k.newBlock, y));
  }

  lemma OldStays(k: Kit, t: string, x: string, y: string)
    requires KitOk(k) && Markers.Has(Split(t), k.sentinel)
    requires x != "" && x[|x| - 1] == '}' && (t == x + y || t == x + ("\n" + y))
    ensures NewPatch(k, Between(x, k.oldBlock, y)) == Between(x, k.oldBlock, y) != t
  {
    CutKeepsSentinel(k, t, x, y);
    LinesBetween(x, k.oldBlock, y);
    Markers.HasSum(Split(x), k.oldBlock + Split(y), k.sentinel);
    Markers.HasSum(k.oldBlock, Split(y), k.sentinel);
    assert |Between(x, k.oldBlock, y)| > |x| + 1 + |y|;
  }

  /** Upgrading equals a fresh install, exactly under that condition. */
  lemma UpgradeIsFreshIff(k: Kit, t: string)
    requires KitOk(k) && Markers.NoBegin(Split(t))
    ensures NewPatch(k, OldPatch(k, t)) == NewPatch(k, t) <==> UpgradesExactly(k, t)
  {
    NoBlock(Split(t));
    var cut := Cut(t, k.find(t));
    if !Markers.Has(Split(t), k.panel) && cut.Some? {
      var x, y := cut.value.0, cut.value.1;
      if Markers.Has(Split(t), k.sentinel) {
        OldStays(k, t, x, y);
      } else {
        NewOnOld(k, t, x, y);
      }
    }
  }

  /** A text that has a modal region already gets the old block, and keeps it. */
  lemma OwnRegionDiffers(k: Kit, t: string)
    requires KitOk(k) && Markers.NoBegin(Split(t))
    requires !Markers.Has(Split(t), k.panel) && Cut(t, k.find(t)).Some? && Markers.Has(Split(t), k.sentinel)
    ensures NewPatch(k, OldPatch(k, t)) != NewPatch(k, t)
  {
    UpgradeIsFreshIff(k, t);
  }

  lemma {:induction false} ReplaceFirstBrings(lines: seq<string>, block: seq<string>, needle: string -> bool)
    requires HasBlock(lines) && Markers.Has(block, needle)
    ensures ReplaceFirst(lines, block) != [] && Markers.Has(ReplaceFirst(lines, block), needle)
    decreases |lines|
  {
    if Markers.BlockStarts(lines) {
      var n := Markers.BlockSize(lines);
      Markers.HasSum(block, Markers.Remnant(lines[n - 1], n == |lines|) + lines[n..], needle);
    } else {
      ReplaceFirstBrings(lines[1..], block, needle);
      Markers.HasSum([lines[0]], ReplaceFirst(lines[1..], block), needle);
    }
  }

  lemma SuffixHasNone(l: string, n: nat)
    requires n <= |l| && '\n' !in l
    ensures '\n' !in l[n..]
  {
    assert forall ch :: ch in l[n..] ==> ch in l;
  }

  lemma RemnantHasNoNewline(last: string, atEnd: bool)
    requires Markers.IsEnd(last) && '\n' !in last
    ensures forall l :: l in Markers.Remnant(last, atEnd) ==> '\n' !in l
  {
    var u := Markers.Untabbed(last);
    var v := u[|Markers.MARK_END|..];
    UntabbedIsSuffix(last);
    SuffixHasNone(last, |last| - |u|);
    SuffixHasNone(u, |Markers.MARK_END|);
    UntabbedIsSuffix(v);
    SuffixHasNone(v, |v| - |Markers.Untabbed(v)|);
  }

  predicate OneLiners(lines: seq<string>) { forall l :: l in lines ==> '\n' !in l }

  lemma OneLinersSum(a: seq<string>, b: seq<string>)
    requires OneLiners(a) && OneLiners(b)
    ensures OneLiners(a + b)
  {
  }

  lemma {:induction false} ReplacedAreLines(lines: seq<string>, block: seq<string>)
    requires OneLiners(lines) && OneLiners(block)
    ensures OneLiners(ReplaceFirst(lines, block))
    decreases |lines|
  {
    if lines != [] {
      if Markers.BlockStarts(lines) {
        var n := Markers.BlockSize(lines);
        var rest := Markers.Remnant(lines[n - 1], n == |lines|);
        assert lines[n - 1] in lines && forall l :: l in lines[n..] ==> l in lines;
        RemnantHasNoNewline(lines[n - 1], n == |lines|);
        OneLinersSum(rest, lines[n..]);
        OneLinersSum(block, rest + lines[n..]);
      } else {
        assert lines[0] in lines && forall l :: l in lines[1..] ==> l in lines;
        ReplacedAreLines(lines[1..], block);
        OneLinersSum([lines[0]], ReplaceFirst(lines[1..], block));
      }
    }
  }

  /** Patching again changes nothing, whatever the text: a placed region brings its sentinel. */
  lemma NewPatchIsFixed(k: Kit, t: string)
    requires KitOk(k)
    ensures NewPatch(k, NewPatch(k, t)) == NewPatch(k, t)
  {
    if !Markers.Has(Split(t), k.sentinel) {
      if HasBlock(Split(t)) {
        ReplaceFirstBrings(Split(t), k.newBlock, k.sentinel);
        LinesHaveNoNewline(t);
        ReplacedAreLines(Split(t), k.newBlock);
        SplitJoin(ReplaceFirst(Split(t), k.newBlock));
      } else if Cut(t, k.find(t)).Some? {
        var x, y := Cut(t, k.find(t)).value.0, Cut(t, k.find(t)).value.1;
        LinesBetween(x, k.newBlock, y);
        Markers.HasSum(Split(x), k.newBlock + Split(y), k.sentinel);
        Markers.HasSum(k.newBlock, Split(y), k.sentinel);
      }
    }
  }
}
