/**
 How the new patch_interactions fails to be a fixed point: when the place of the fullscreen
 block is in an open part of the text that nothing in front of it makes a kept block, the
 second pass takes that part and the new block for one block and renews it. What stood
 between the opening marker and the place is lost. The open part may begin with a marker that
 nothing closes, or be the first half of a block that is kept for a line further down.
 */
module InteractionsLost {
  import opened Markers
  import opened InteractionsPatch
  import opened StableBlocks
  import opened InteractionsTwice

  // ------------------------------------------------------- how it fails to be a fixed point

  lemma StripBehindMatch(k: Kit, x: seq<string>, y: seq<string>)
    requires NewBlockOk(k) && BlockStarts(x) && Stays(k, x[..BlockSize(x)]) && y != []
    requires var rest := x[BlockSize(x)..]; Strip(k.classes, rest + y) == rest + Strip(k.classes, y)
    ensures Strip(k.classes, x + y) == x + Strip(k.classes, y)
  {
    var n := BlockSize(x);
    MatchCut(x, y);
    StripBlock(k.classes, x + y);
    PieceStays(k, x + y);
    assert x == x[..n] + x[n..] && x[..n] + [] == x[..n];
    Regroup(x[..n], x[n..], Strip(k.classes, y));
  }

  lemma StripBehindLine(k: Kit, x: seq<string>, y: seq<string>)
    requires x != [] && !IsBegin(x[0]) && Strip(k.classes, x[1..] + y) == x[1..] + Strip(k.classes, y)
    ensures Strip(k.classes, x + y) == x + Strip(k.classes, y)
  {
    assert x == [x[0]] + x[1..];
    Regroup([x[0]], x[1..], y);
    Regroup([x[0]], x[1..], Strip(k.classes, y));
    StripNothing(k.classes, [x[0]], x[1..] + y);
  }

  lemma {:induction false} StripBehind(k: Kit, x: seq<string>, y: seq<string>)
    requires NewBlockOk(k) && Settled(k, x) && Open(x) == [] && y != []
    ensures Strip(k.classes, x + y) == x + Strip(k.classes, y)
    decreases |x|
  {
    if x == [] {
      assert x + y == y && x + Strip(k.classes, y) == Strip(k.classes, y);
    } else if BlockStarts(x) {
      StripBehind(k, x[BlockSize(x)..], y);
      StripBehindMatch(k, x, y);
    } else {
      StripBehind(k, x[1..], y);
      StripBehindLine(k, x, y);
    }
  }

  /** The place of the fullscreen block ends an open part `o` that is not kept; the press
      handler is not touched. */
  predicate OpenPlace(k: Kit, x: seq<string>, o: seq<string>, y: seq<string>) {
    && Settled(k, x) && Open(x) == [] && o != [] && IsBegin(o[0]) && NoEnd(o) && !Has(o, k.classes.keeps)
    && k.hover(o[|o| - 1]) && Misses(x, k.hover) && Misses(o[..|o| - 1], k.hover)
    && !Has(x + (o + y), k.classes.refreshes) && !Pressing(k, x + (o + y))
  }

  lemma OpenPlaceInserts(k: Kit, x: seq<string>, o: seq<string>, y: seq<string>)
    requires OpenPlace(k, x, o, y)
    ensures FullscreenStep(k, x + (o + y)) == x + ((o + k.classes.replacement) + y)
  {
    var fs, w, h := k.classes.replacement, o[..|o| - 1], o[|o| - 1];
    InsertSkips(x, o + y, k.hover, fs);
    assert o + y == w + ([h] + y) && ([h] + y)[1..] == y;
    InsertSkips(w, [h] + y, k.hover, fs);
    assert w + ([h] + (fs + y)) == (o + fs) + y;
  }

  lemma HasThree(a: seq<string>, b: seq<string>, c: seq<string>, needle: string -> bool)
    ensures Has((a + b) + c, needle) <==> Has(a + c, needle) || Has(b, needle)
  {
    HasSum(a + b, c, needle);
    HasSum(a, b, needle);
    HasSum(a, c, needle);
  }

  /** Nothing to replace in `x + p`, and nothing more in `x + q`. */
  lemma NothingToReplace(k: Kit, x: seq<string>, p: seq<string>, q: seq<string>)
    requires !Pressing(k, x + p)
    requires (Has(p, k.sentinel) ==> Has(q, k.sentinel)) && (Has(q, HasHandler(k)) ==> Has(p, HasHandler(k)))
    ensures PressStep(k, x + q) == x + q
  {
    HasSum(x, p, k.sentinel);
    HasSum(x, q, k.sentinel);
    HasSum(x, p, HasHandler(k));
    HasSum(x, q, HasHandler(k));
    if !Has(x + q, HasHandler(k)) {
      NoHandlerNoChange(k, x + q);
    }
  }

  lemma OpenPlaceFirst(k: Kit, x: seq<string>, o: seq<string>, y: seq<string>)
    requires KitOk(k) && OpenPlace(k, x, o, y) && Stable(k, x + (o + y))
    ensures NewPatch(k, x + (o + y)) == x + ((o + k.classes.replacement) + y)
  {
    var t, fs := x + (o + y), k.classes.replacement;
    StripSettled(k, t);
    assert t + If(false, [""]) == t;
    OpenPlaceInserts(k, x, o, y);
    HasThree(o, fs, y, k.sentinel);
    HasThree(o, fs, y, HasHandler(k));
    QuietHasNone(k, fs);
    NothingToReplace(k, x, o + y, (o + fs) + y);
  }

  lemma OpenPlaceSecond(k: Kit, x: seq<string>, o: seq<string>, y: seq<string>)
    requires KitOk(k) && PressOk(k) && OpenPlace(k, x, o, y)
    ensures var z := x + (k.classes.replacement + (If(y == [], [""]) + y));
      PressStep(k, z) == z && FullscreenStep(k, z) == z
  {
    var fs, e := k.classes.replacement, If(y == [], [""]);
    QuietHasNone(k, fs);
    QuietHasNone(k, e);
    assert !Has(o, k.sentinel);
    HasSum(o, y, k.sentinel);
    HasSum(o, y, HasHandler(k));
    HasSum(e, y, k.sentinel);
    HasSum(e, y, HasHandler(k));
    HasSum(fs, e + y, k.sentinel);
    HasSum(fs, e + y, HasHandler(k));
    NothingToReplace(k, x, o + y, fs + (e + y));
    ReplacementRefreshes(k);
    HasSum(x, fs + (e + y), k.classes.refreshes);
    HasSum(fs, e + y, k.classes.refreshes);
  }

  lemma DroppedPiece(k: Kit, o: seq<string>, y: seq<string>)
    requires KitOk(k) && PressOk(k) && o != [] && IsBegin(o[0]) && NoEnd(o) && !Has(o, k.classes.keeps)
    ensures var fs := k.classes.replacement; var z := (o + fs) + y;
      BlockStarts(z) && z[BlockSize(z)..] == y && PieceOf(k.classes, z) == fs + If(y == [], [""])
  {
    var fs := k.classes.replacement;
    var b := o + fs;
    ClosedByNew(k, o);
    MatchThen(b, y);
    assert (b + y)[|b| - 1] == fs[|fs| - 1];
  }

  lemma StripDropped(k: Kit, o: seq<string>, y: seq<string>)
    requires KitOk(k) && PressOk(k) && o != [] && IsBegin(o[0]) && NoEnd(o) && !Has(o, k.classes.keeps) && Stable(k, y)
    ensures var fs := k.classes.replacement; Strip(k.classes, (o + fs) + y) == fs + (If(y == [], [""]) + y)
  {
    var fs := k.classes.replacement;
    DroppedPiece(k, o, y);
    StripBlock(k.classes, (o + fs) + y);
    StripSettled(k, y);
    assert y + If(false, [""]) == y;
    Regroup(fs, If(y == [], [""]), y);
  }

  lemma StripOpenPlace(k: Kit, x: seq<string>, o: seq<string>, y: seq<string>)
    requires KitOk(k) && PressOk(k) && OpenPlace(k, x, o, y) && Stable(k, y)
    ensures var fs := k.classes.replacement;
      Strip(k.classes, x + ((o + fs) + y)) == x + (fs + (If(y == [], [""]) + y))
  {
    StripBehind(k, x, (o + k.classes.replacement) + y);
    StripDropped(k, o, y);
  }

  /** Patching again drops everything from the opening marker to the place of the block. */
  lemma OpenPartIsDropped(k: Kit, x: seq<string>, o: seq<string>, y: seq<string>)
    requires KitOk(k) && PressOk(k) && OpenPlace(k, x, o, y) && Stable(k, x + (o + y)) && Stable(k, y)
    ensures NewPatch(k, x + (o + y)) == x + ((o + k.classes.replacement) + y)
    ensures NewPatch(k, NewPatch(k, x + (o + y))) == x + (k.classes.replacement + (If(y == [], [""]) + y))
  {
    OpenPlaceFirst(k, x, o, y);
    OpenPlaceSecond(k, x, o, y);
    StripOpenPlace(k, x, o, y);
  }

  /** The opening marker of `o` is closed nowhere. */
  lemma StrayBeginIsNotFixed(k: Kit, x: seq<string>, o: seq<string>, y: seq<string>)
    requires KitOk(k) && PressOk(k) && OpenPlace(k, x, o, y) && NoEnd(y)
    ensures NewPatch(k, x + (o + y)) == x + ((o + k.classes.replacement) + y)
    ensures NewPatch(k, NewPatch(k, x + (o + y))) == x + (k.classes.replacement + (If(y == [], [""]) + y))
  {
    assert NoEnd(o + y);
    NoEndIsStable(k, o + y);
    NoEndIsStable(k, y);
    ClosedThen(k, x, o + y);
    OpenPartIsDropped(k, x, o, y);
  }

  lemma SplitBlockIsStable(k: Kit, o: seq<string>, post: seq<string>, e: string, y: seq<string>)
    requires o != [] && IsBegin(o[0]) && NoEnd(o)
    requires NoEnd(post) && NoBegin(post) && IsEnd(e) && Has(post, k.classes.keeps) && Stable(k, y)
    ensures Stable(k, (post + [e]) + y) && Stable(k, o + ((post + [e]) + y))
  {
    var z := post + [e];
    if IsBegin(e) {
      BeginIsNoEnd(e);
    }
    NoBeginIsStable(k, z);
    ClosedThen(k, z, y);
    assert y == [] ==> z + y == z;
    MatchGrows(o, z);
    Regroup(o, z, y);
    assert Inner(o + z) == o[1..] + post;
    HasSum(o[1..], post, k.classes.keeps);
    SettledMatch(k, o + z, y);
  }

  /** `o` begins a block that is kept for a line behind the place. */
  lemma SplitBlockIsNotFixed(k: Kit, x: seq<string>, o: seq<string>, post: seq<string>, e: string, y: seq<string>)
    requires KitOk(k) && PressOk(k) && OpenPlace(k, x, o, (post + [e]) + y)
    requires NoEnd(post) && NoBegin(post) && IsEnd(e) && Has(post, k.classes.keeps) && Stable(k, y)
    ensures NewPatch(k, x + (o + ((post + [e]) + y))) == x + ((o + k.classes.replacement) + ((post + [e]) + y))
    ensures NewPatch(k, NewPatch(k, x + (o + ((post + [e]) + y)))) == x + (k.classes.replacement + ((post + [e]) + y))
  {
    var p := (post + [e]) + y;
    SplitBlockIsStable(k, o, post, e, y);
    ClosedThen(k, x, o + p);
    OpenPartIsDropped(k, x, o, p);
    assert If(p == [], [""]) + p == p;
  }

  /** The place is the last line, in no open part: the block gets its newline the second time. */
  lemma LastLineIsNotFixed(k: Kit, t: seq<string>)
    requires KitOk(k) && PressOk(k) && Due(k, Strip(k.classes, t))
    requires var a := Strip(k.classes, t); Settled(k, Front(k, a)) && Open(Front(k, a)) == [] && Behind(k, a) == []
    ensures NewPatch(k, NewPatch(k, t)) == NewPatch(k, t) + [""]
  {
    var a, fs := Strip(k.classes, t), k.classes.replacement;
    var u := NewPatch(k, t);
    PatchedParts(k, a);
    assert fs + [] == fs && u == Front(k, a) + fs;
    LastBlockStrips(k, Front(k, a), u);
    HasSum(Front(k, a), fs, k.classes.refreshes);
    ReplacementRefreshes(k);
    HasSum(u, [""], k.classes.refreshes);
    PressStepTwice(k, FullscreenStep(k, a));
    PressAtEnd(k, u);
  }

  lemma LastBlockStrips(k: Kit, front: seq<string>, u: seq<string>)
    requires KitOk(k) && Settled(k, front) && Open(front) == [] && u == front + k.classes.replacement
    ensures Strip(k.classes, u) == u + [""]
  {
    var fs := k.classes.replacement;
    BlockIsMatch(fs);
    SettledMatch(k, fs, []);
    assert fs + [] == fs;
    ClosedThen(k, front, fs);
    StripSettled(k, u);
  }

  /** Nothing to replace: so neither with an empty line more. */
  lemma PressAtEnd(k: Kit, u: seq<string>)
    requires KitOk(k) && PressOk(k) && PressStep(k, u) == u
    ensures PressStep(k, u + [""]) == u + [""]
  {
    HasSum(u, [""], k.sentinel);
    HasSum(u, [""], HasHandler(k));
    HasOne("", HasHandler(k));
    if !Has(u, k.sentinel) {
      if Has(u, HasHandler(k)) {
        ReplaceLength(k, u);
      } else {
        NoHandlerNoChange(k, u + [""]);
      }
    }
  }
}
