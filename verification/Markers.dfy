/**
 Marked blocks in a text given by its lines: what the block pattern of the WhatsApp
 patch matches, and the pass that keeps, replaces or removes every matched block.

 A text ends in a newline iff its last line is empty.
 */
module Markers {
  const MARK_BEGIN := "// >>> caelestia-extras whatsapp"
  const MARK_END := "// <<< caelestia-extras whatsapp"

  predicate IsTab(c: char) { c == ' ' || c == '\t' }

  /** Without its leading blanks. */
  function Untabbed(l: string): string { if l != "" && IsTab(l[0]) then Untabbed(l[1..]) else l }

  /** The opening marker stands alone on its line. */
  predicate IsBegin(l: string) {
    MARK_BEGIN <= Untabbed(l) && Untabbed(Untabbed(l)[|MARK_BEGIN|..]) == ""
  }

  /** The closing marker starts its line; a match ends behind it and the blanks after it. */
  predicate IsEnd(l: string) { MARK_END <= Untabbed(l) }

  function EndRest(l: string): string
    requires IsEnd(l)
  {
    Untabbed(Untabbed(l)[|MARK_END|..])
  }

  /** Index of the first closing marker, |lines| if there is none. */
  function FirstEnd(lines: seq<string>): (j: nat)
    ensures j <= |lines| && (j < |lines| ==> IsEnd(lines[j])) && forall k :: 0 <= k < j ==> !IsEnd(lines[k])
  {
    if lines == [] || IsEnd(lines[0]) then 0 else 1 + FirstEnd(lines[1..])
  }

  /** A match starts at the first of `lines`. */
  predicate BlockStarts(lines: seq<string>) {
    lines != [] && IsBegin(lines[0]) && FirstEnd(lines[1..]) < |lines| - 1
  }

  /** Number of lines that the match touches. */
  function BlockSize(lines: seq<string>): (n: nat)
    requires BlockStarts(lines)
    ensures 2 <= n <= |lines| && IsEnd(lines[n - 1])
  {
    FirstEnd(lines[1..]) + 2
  }

  /** The lines between the markers. */
  function Inner(block: seq<string>): seq<string>
    requires |block| >= 2
  {
    block[1..|block| - 1]
  }

  datatype Fate = Keep | Replace | Remove

  predicate Has(lines: seq<string>, needle: string -> bool) { exists l :: l in lines && needle(l) }

  lemma HasSum(a: seq<string>, b: seq<string>, needle: string -> bool)
    ensures Has(a + b, needle) <==> Has(a, needle) || Has(b, needle)
  {
    assert forall l :: l in a + b <==> l in a || l in b;
  }

  lemma HasOne(l: string, needle: string -> bool)
    ensures Has([l], needle) <==> needle(l)
  {
    assert l in [l];
  }

  /** How a block is classified, by what its inner lines contain. */
  datatype Classes = Classes(keeps: string -> bool, refreshes: string -> bool, replacement: seq<string>)

  function FateOf(c: Classes, block: seq<string>): Fate
    requires |block| >= 2
  {
    if Has(Inner(block), c.keeps) then Keep else if Has(Inner(block), c.refreshes) then Replace else Remove
  }

  /** What is left of the closing marker's line when the block goes: the newline behind the
      marker goes with it, so at the very end of the text an empty line stays. */
  function Remnant(last: string, atEnd: bool): seq<string>
    requires IsEnd(last)
  {
    if EndRest(last) != "" then [EndRest(last)] else if atEnd then [""] else []
  }

  /** The text after the pass over all matches. */
  function Strip(c: Classes, lines: seq<string>): seq<string>
    decreases |lines|
  {
    if lines == [] then []
    else if !BlockStarts(lines) then [lines[0]] + Strip(c, lines[1..])
    else
      var n := BlockSize(lines);
      var rest := Strip(c, lines[n..]);
      match FateOf(c, lines[..n])
      case Keep => lines[..n] + rest
      case Replace => c.replacement + (Remnant(lines[n - 1], n == |lines|) + rest)
      case Remove => Remnant(lines[n - 1], n == |lines|) + rest
  }

  /** What one match leaves. */
  function PieceOf(c: Classes, lines: seq<string>): seq<string>
    requires BlockStarts(lines)
  {
    var n := BlockSize(lines);
    match FateOf(c, lines[..n])
    case Keep => lines[..n]
    case Replace => c.replacement + Remnant(lines[n - 1], n == |lines|)
    case Remove => Remnant(lines[n - 1], n == |lines|)
  }

  /** One match, or one line that starts none: what is kept and how many lines are done. */
  method NextPiece(c: Classes, here: seq<string>) returns (piece: seq<string>, n: nat)
    requires here != []
    ensures 1 <= n <= |here| && Strip(c, here) == piece + Strip(c, here[n..])
  {
    if !BlockStarts(here) {
      return [here[0]], 1;
    }
    StripBlock(c, here);
    n := BlockSize(here);
    piece := PieceOf(c, here);
  }

  lemma Collected(out: seq<string>, piece: seq<string>, rest: seq<string>)
    ensures out + (piece + rest) == (out + piece) + rest
  {
  }

  /** The loop over the matches, collecting pieces. */
  method StripBlocks(c: Classes, lines: seq<string>) returns (out: seq<string>)
    ensures out == Strip(c, lines)
  {
    var here := lines;
    out := [];
    while here != []
      invariant out + Strip(c, here) == Strip(c, lines)
      decreases |here|
    {
      var piece, n := NextPiece(c, here);
      Collected(out, piece, Strip(c, here[n..]));
      out, here := out + piece, here[n..];
    }
  }

  lemma StripBlock(c: Classes, lines: seq<string>)
    requires BlockStarts(lines)
    ensures Strip(c, lines) == PieceOf(c, lines) + Strip(c, lines[BlockSize(lines)..])
  {
    var n := BlockSize(lines);
    assert c.replacement + (Remnant(lines[n - 1], n == |lines|) + Strip(c, lines[n..]))
        == c.replacement + Remnant(lines[n - 1], n == |lines|) + Strip(c, lines[n..]);
  }

  // ------------------------------------------------------------------ whole blocks

  /** A marked block as the patches write it. */
  predicate IsBlock(b: seq<string>) {
    && |b| >= 2 && IsBegin(b[0]) && IsEnd(b[|b| - 1]) && EndRest(b[|b| - 1]) == ""
    && forall l :: l in Inner(b) ==> !IsEnd(l)
  }

  lemma {:induction false} FirstEndAt(lines: seq<string>, j: nat)
    requires j < |lines| && IsEnd(lines[j]) && forall k :: 0 <= k < j ==> !IsEnd(lines[k])
    ensures FirstEnd(lines) == j
    decreases j
  {
    if j > 0 {
      FirstEndAt(lines[1..], j - 1);
    }
  }

  lemma BlockMatches(b: seq<string>, y: seq<string>)
    requires IsBlock(b)
    ensures BlockStarts(b + y) && BlockSize(b + y) == |b| && (b + y)[..|b|] == b && (b + y)[|b|..] == y
  {
    var s := (b + y)[1..];
    forall k | 0 <= k < |b| - 2 ensures !IsEnd(s[k]) {
      assert s[k] == Inner(b)[k];
    }
    assert s[|b| - 2] == b[|b| - 1];
    FirstEndAt(s, |b| - 2);
  }

  /** What a block leaves in front of `y`. */
  lemma StripOneBlock(c: Classes, b: seq<string>, y: seq<string>)
    requires IsBlock(b) && y != []
    ensures FateOf(c, b) == Keep ==> Strip(c, b + y) == b + Strip(c, y)
    ensures FateOf(c, b) == Replace ==> Strip(c, b + y) == c.replacement + Strip(c, y)
    ensures FateOf(c, b) == Remove ==> Strip(c, b + y) == Strip(c, y)
  {
    BlockMatches(b, y);
    StripBlock(c, b + y);
    assert [] + Strip(c, y) == Strip(c, y);
    assert c.replacement + [] == c.replacement;
  }

  lemma StripLastBlock(c: Classes, b: seq<string>)
    requires IsBlock(b)
    ensures FateOf(c, b) == Keep ==> Strip(c, b) == b
    ensures FateOf(c, b) == Replace ==> Strip(c, b) == c.replacement + [""]
    ensures FateOf(c, b) == Remove ==> Strip(c, b) == [""]
  {
    assert b + [] == b;
    BlockMatches(b, []);
    StripBlock(c, b);
    assert b[..|b|] == b && b[|b|..] == [] && Strip(c, []) == [];
  }

  predicate NoBegin(lines: seq<string>) { forall l :: l in lines ==> !IsBegin(l) }

  lemma {:induction false} StripNothing(c: Classes, x: seq<string>, y: seq<string>)
    requires NoBegin(x)
    ensures Strip(c, x + y) == x + Strip(c, y)
    decreases |x|
  {
    if x == [] {
      assert x + y == y && [] + Strip(c, y) == Strip(c, y);
    } else {
      assert x[0] in x && forall l :: l in x[1..] ==> l in x;
      StripNothing(c, x[1..], y);
      assert (x + y)[1..] == x[1..] + y && (x + y)[0] == x[0];
      assert [x[0]] + (x[1..] + Strip(c, y)) == x + Strip(c, y);
    }
  }

  lemma StripClean(c: Classes, x: seq<string>)
    requires NoBegin(x)
    ensures Strip(c, x) == x
  {
    StripNothing(c, x, []);
    assert x + [] == x && Strip(c, []) == [];
  }

  lemma {:induction false} StripIsNonempty(c: Classes, lines: seq<string>)
    requires lines != []
    ensures Strip(c, lines) != []
    decreases |lines|
  {
    if BlockStarts(lines) {
      var n := BlockSize(lines);
      StripBlock(c, lines);
      if n < |lines| {
        StripIsNonempty(c, lines[n..]);
      }
    }
  }
}
