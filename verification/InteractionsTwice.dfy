/**
 Applying the new patch_interactions twice: exactly when the second time changes nothing,
 for every text whose marker lines stand alone.

 A text that the pass over the blocks leaves as it is, is called stable. The first half
 of the proof shows that the patched text is a fixed point iff it is stable. The second
 half reads that off the cleaned text. The new fullscreen block and the new press handler
 both end with a closing marker; an opening marker in front of them that was closed further
 down, or not at all, is closed there from now on. So the block that the fullscreen block
 closes must be one that is kept, and what stands behind the two places must be stable
 when it is read by itself.
 */
module InteractionsTwice {
  import opened Markers
  import opened InteractionsPatch
  import opened StableBlocks

  // ------------------------------------------------------------------- assumptions

  /** What else holds of the kit: the new press handler brings one block that is kept, around
      the sentinel, and its other lines are no markers; a line with the sentinel makes a block
      one that is kept; marker lines hold nothing else. */
  ghost predicate PressOk(k: Kit) {
    && |k.pressInner| > 0 && !IsBegin(k.pressInner[0]) && !IsEnd(k.pressInner[0])
    && IsBlock(k.pressInner[1..]) && FateOf(k.classes, k.pressInner[1..]) == Keep
    && Has(k.pressInner, k.sentinel) && !Has(k.pressInner, k.hover)
    && (forall l :: (k.press(l).Some? ==> LineFits(k, l, k.press(l).value.0, k.press(l).value.1)))
    && (forall l :: k.sentinel(l) ==> k.classes.keeps(l))
    && (forall l :: MarkerAlone(l) ==> Quiet(k, l) && !k.classes.keeps(l) && !k.classes.refreshes(l))
  }

  /** The two lines that a line with the press handler is split into. */
  predicate LineFits(k: Kit, l: string, pre: string, post: string) {
    && !IsBegin(pre + k.pressFirst) && !IsBegin(k.pressLast + post)
    && (IsEnd(pre + k.pressFirst) ==> IsEnd(l)) && !IsEnd(k.pressLast + post)
    && (k.hover(pre + k.pressFirst) || k.hover(k.pressLast + post) ==> k.hover(l))
    && (k.classes.refreshes(l) ==> k.classes.refreshes(pre + k.pressFirst) || k.classes.refreshes(k.pressLast + post))
  }

  // -------------------------------------------------- what the pass does not lose

  lemma MatchHas(k: Kit, b: seq<string>, needle: string -> bool)
    requires Match(b) && Alone(b) && (forall l :: MarkerAlone(l) ==> !needle(l))
    ensures Has(b, needle) <==> Has(Inner(b), needle)
  {
    assert b == [b[0]] + (Inner(b) + [b[|b| - 1]]);
    HasSum([b[0]], Inner(b) + [b[|b| - 1]], needle);
    HasSum(Inner(b), [b[|b| - 1]], needle);
    HasOne(b[0], needle);
    HasOne(b[|b| - 1], needle);
    assert b[|b| - 1] in b;
  }

  ghost predicate IsSign(k: Kit, needle: string -> bool) { needle == k.sentinel || needle == k.classes.refreshes }

  /** A sign in a match: the match is kept, or renewed by a block with a fullscreen handler. */
  lemma PieceKeeps(k: Kit, lines: seq<string>, needle: string -> bool)
    requires KitOk(k) && PressOk(k) && Alone(lines) && BlockStarts(lines) && IsSign(k, needle)
    ensures Has(lines[..BlockSize(lines)], needle) ==> Has(PieceOf(k.classes, lines), needle)
  {
    var n := BlockSize(lines);
    MatchCut(lines, []);
    MatchHas(k, lines[..n], needle);
    if Has(Inner(lines[..n]), needle) {
      SignStays(k, lines[..n], needle);
    }
    HasSum(k.classes.replacement, Remnant(lines[n - 1], n == |lines|), needle);
  }

  lemma SignStays(k: Kit, b: seq<string>, needle: string -> bool)
    requires KitOk(k) && PressOk(k) && IsSign(k, needle) && |b| >= 2 && Has(Inner(b), needle)
    ensures FateOf(k.classes, b) == Keep || (FateOf(k.classes, b) == Replace && Has(k.classes.replacement, needle))
  {
    ReplacementRefreshes(k);
  }

  lemma {:induction false} StripKeeps(k: Kit, lines: seq<string>, needle: string -> bool)
    requires KitOk(k) && PressOk(k) && Alone(lines) && IsSign(k, needle)
    ensures Has(lines, needle) ==> Has(Strip(k.classes, lines), needle)
    decreases |lines|
  {
    if lines != [] {
      var n := if BlockStarts(lines) then BlockSize(lines) else 1;
      assert lines == lines[..n] + lines[n..];
      StripKeeps(k, lines[n..], needle);
      HasSum(lines[..n], lines[n..], needle);
      if BlockStarts(lines) {
        PieceKeeps(k, lines, needle);
        StripBlock(k.classes, lines);
        HasSum(PieceOf(k.classes, lines), Strip(k.classes, lines[n..]), needle);
      } else {
        HasSum([lines[0]], Strip(k.classes, lines[n..]), needle);
        assert lines[..n] == [lines[0]];
      }
    }
  }

  // ------------------------------------------------------------- the new handler

  lemma NewHandlerHas(k: Kit, a: seq<string>, m: string, c: seq<string>, needle: string -> bool)
    requires k.press(m).Some?
    ensures var pre, post := k.press(m).value.0, k.press(m).value.1;
      Has(a + (NewHandler(k, m) + c), needle)
      <==> Has(a, needle) || needle(pre + k.pressFirst) || Has(k.pressInner, needle) || needle(k.pressLast + post) || Has(c, needle)
  {
    var pre, post := k.press(m).value.0, k.press(m).value.1;
    HasSum(a, NewHandler(k, m) + c, needle);
    HasSum(NewHandler(k, m), c, needle);
    HasSum([pre + k.pressFirst] + k.pressInner, [k.pressLast + post], needle);
    HasSum([pre + k.pressFirst], k.pressInner, needle);
    HasOne(pre + k.pressFirst, needle);
    HasOne(k.pressLast + post, needle);
  }

  lemma SplitAtFirst(lines: seq<string>, i: nat)
    requires i < |lines|
    ensures lines == lines[..i] + ([lines[i]] + lines[i + 1..])
    ensures lines == lines[..i + 1] + lines[i + 1..]
  {
  }

  /** The press step keeps what the other steps look for. */
  lemma ReplaceKeeps(k: Kit, lines: seq<string>)
    requires PressOk(k) && Has(lines, HasHandler(k))
    ensures Has(ReplacePress(k, lines), k.sentinel)
    ensures Has(lines, k.classes.refreshes) ==> Has(ReplacePress(k, lines), k.classes.refreshes)
    ensures Has(ReplacePress(k, lines), k.hover) ==> Has(lines, k.hover)
  {
    var i := First(lines, HasHandler(k));
    var m := lines[i];
    var a, c := lines[..i], lines[i + 1..];
    SplitAtFirst(lines, i);
    ReplaceAtFirst(k, lines);
    assert LineFits(k, m, k.press(m).value.0, k.press(m).value.1);
    NewHandlerHas(k, a, m, c, k.sentinel);
    NewHandlerHas(k, a, m, c, k.classes.refreshes);
    NewHandlerHas(k, a, m, c, k.hover);
    HasSum(a, [m] + c, k.classes.refreshes);
    HasSum([m], c, k.classes.refreshes);
    HasOne(m, k.classes.refreshes);
    HasSum(a, [m] + c, k.hover);
    HasSum([m], c, k.hover);
    HasOne(m, k.hover);
  }

  // ------------------------------------------------- a fixed point iff it is stable

  lemma PressStepTwice(k: Kit, x: seq<string>)
    requires PressOk(k)
    ensures PressStep(k, PressStep(k, x)) == PressStep(k, x)
  {
    if !Has(x, k.sentinel) {
      if Has(x, HasHandler(k)) {
        ReplaceKeeps(k, x);
      } else {
        NoHandlerNoChange(k, x);
      }
    }
  }

  lemma FullscreenStepAfter(k: Kit, a: seq<string>)
    requires PressOk(k) && KitOk(k)
    ensures var u := PressStep(k, FullscreenStep(k, a)); FullscreenStep(k, u) == u
  {
    var x := FullscreenStep(k, a);
    var u := PressStep(k, x);
    ReplacementRefreshes(k);
    InsertHas(a, k.hover, k.classes.replacement, k.classes.refreshes);
    if Has(x, HasHandler(k)) {
      ReplaceKeeps(k, x);
    } else {
      NoHandlerNoChange(k, x);
    }
    if !Has(u, k.classes.refreshes) {
      InsertMisses(a, k.hover, k.classes.replacement);
      InsertMisses(u, k.hover, k.classes.replacement);
    }
  }

  /** A text that the new patch gives back is stable. */
  lemma FixedIsStable(k: Kit, u: seq<string>)
    requires KitOk(k) && PressOk(k) && Alone(u) && NewPatch(k, u) == u
    ensures Stable(k, u)
  {
    var s := Strip(k.classes, u);
    var x := FullscreenStep(k, s);
    StripKeeps(k, u, k.sentinel);
    StripKeeps(k, u, k.classes.refreshes);
    InsertHas(s, k.hover, k.classes.replacement, k.sentinel);
    if Has(x, HasHandler(k)) {
      ReplaceKeeps(k, x);
    } else {
      NoHandlerNoChange(k, x);
    }
    assert x == u;
    ReplacementRefreshes(k);
    InsertHas(s, k.hover, k.classes.replacement, k.classes.refreshes);
    if !Has(s, k.hover) {
      InsertMisses(s, k.hover, k.classes.replacement);
    }
    StableIff(k, u);
  }

  lemma InsertedIsAlone(k: Kit, a: seq<string>, fs: seq<string>)
    requires Alone(a) && Alone(fs)
    ensures Alone(InsertAfter(a, k.hover, fs))
  {
    if Has(a, k.hover) {
      InsertAtFirst(a, k.hover, fs);
      var i := First(a, k.hover);
      SplitAtFirst(a, i);
      AloneParts(a[..i + 1], a[i + 1..]);
      AloneParts(fs, a[i + 1..]);
      AloneParts(a[..i + 1], fs + a[i + 1..]);
    } else {
      InsertMisses(a, k.hover, fs);
    }
  }

  lemma PatchedIsAlone(k: Kit, t: seq<string>)
    requires KitOk(k) && PressOk(k) && Alone(t)
    ensures Alone(NewPatch(k, t))
  {
    StripIsStable(k, t);
    var a := Strip(k.classes, t);
    var x := FullscreenStep(k, a);
    BlockIsAlone(k.classes.replacement);
    InsertedIsAlone(k, a, k.classes.replacement);
    if Has(x, HasHandler(k)) {
      ReplacedIsAlone(k, x);
    } else {
      NoHandlerNoChange(k, x);
    }
  }

  lemma HandlerIsAlone(k: Kit, x: seq<string>, m: string)
    requires PressOk(k) && Alone(x) && m in x && k.press(m).Some?
    ensures Alone(NewHandler(k, m))
  {
    HandlerIsNoMarker(k, x, m);
    var pre, post := k.press(m).value.0, k.press(m).value.1;
    var inner := k.pressInner;
    assert inner == [inner[0]] + inner[1..];
    BlockIsAlone(inner[1..]);
    AloneParts([inner[0]], inner[1..]);
    AloneParts([pre + k.pressFirst], inner);
    AloneParts([pre + k.pressFirst] + inner, [k.pressLast + post]);
  }

  lemma ReplacedIsAlone(k: Kit, x: seq<string>)
    requires PressOk(k) && Alone(x) && Has(x, HasHandler(k))
    ensures Alone(ReplacePress(k, x))
  {
    var i := First(x, HasHandler(k));
    ReplaceAtFirst(k, x);
    HandlerIsAlone(k, x, x[i]);
    SplitAtFirst(x, i);
    AloneParts(x[..i], [x[i]] + x[i + 1..]);
    AloneParts([x[i]], x[i + 1..]);
    AloneParts(NewHandler(k, x[i]), x[i + 1..]);
    AloneParts(x[..i], NewHandler(k, x[i]) + x[i + 1..]);
  }

  lemma HandlerIsNoMarker(k: Kit, x: seq<string>, m: string)
    requires PressOk(k) && Alone(x) && m in x && k.press(m).Some?
    ensures LineFits(k, m, k.press(m).value.0, k.press(m).value.1)
    ensures !IsBegin(m) && !IsEnd(m)
    ensures !IsBegin(k.press(m).value.0 + k.pressFirst) && !IsEnd(k.press(m).value.0 + k.pressFirst)
  {
    assert MarkerAlone(m) ==> Quiet(k, m);
  }

  lemma FixedIffStable(k: Kit, t: seq<string>)
    requires KitOk(k) && PressOk(k) && Alone(t)
    ensures NewPatch(k, NewPatch(k, t)) == NewPatch(k, t) <==> Stable(k, NewPatch(k, t))
  {
    var u, a := NewPatch(k, t), Strip(k.classes, t);
    PatchedIsAlone(k, t);
    if Stable(k, u) {
      StableIff(k, u);
      FullscreenStepAfter(k, a);
      PressStepTwice(k, FullscreenStep(k, a));
    } else if NewPatch(k, u) == u {
      FixedIsStable(k, u);
    }
  }

  // -------------------------------------------------------- the two places, one by one

  predicate BlockGoesWell(k: Kit, front: seq<string>, behind: seq<string>) {
    && Stable(k, behind)
    && if Open(front) == [] then behind != [] else Has(Open(front), k.classes.keeps)
  }

  /** A fullscreen block that a kept one closes with is kept. */
  lemma ClosedByNew(k: Kit, o: seq<string>)
    requires KitOk(k) && PressOk(k) && o != [] && IsBegin(o[0]) && NoEnd(o)
    ensures var b := o + k.classes.replacement;
      Match(b) && (FateOf(k.classes, b) == Keep <==> Has(o, k.classes.keeps)) && b != k.classes.replacement
      && FateOf(k.classes, b) != Remove
  {
    var fs := k.classes.replacement;
    BlockIsMatch(fs);
    MatchGrows(o, fs);
    InnerHas(o, fs, k.classes.keeps);
    InnerHas(o, fs, k.classes.refreshes);
    HasFirst(o, k.classes.keeps);
    assert MarkerAlone(o[0]) && MarkerAlone(fs[0]);
  }

  lemma InnerHas(o: seq<string>, b: seq<string>, needle: string -> bool)
    requires o != [] && |b| >= 2
    ensures Has(Inner(o + b), needle) <==> Has(o[1..], needle) || needle(b[0]) || Has(Inner(b), needle)
  {
    assert Inner(o + b) == o[1..] + ([b[0]] + Inner(b));
    HasSum(o[1..], [b[0]] + Inner(b), needle);
    HasSum([b[0]], Inner(b), needle);
    HasOne(b[0], needle);
  }

  /** With the new fullscreen block between `front` and `behind`. */
  lemma NewBlockBetween(k: Kit, front: seq<string>, behind: seq<string>)
    requires KitOk(k) && PressOk(k)
    ensures Stable(k, front + (k.classes.replacement + behind)) <==> Settled(k, front) && BlockGoesWell(k, front, behind)
  {
    var fs, o := k.classes.replacement, Open(front);
    var closed := OpenSplits(front);
    Regroup(closed, o, fs + behind);
    ClosedThen(k, closed, o + (fs + behind));
    ClosedThen(k, closed, o);
    NoEndIsStable(k, o);
    if o == [] {
      assert o + (fs + behind) == fs + behind;
      BlockIsMatch(fs);
      SettledMatch(k, fs, behind);
    } else {
      Regroup(o, fs, behind);
      ClosedByNew(k, o);
      SettledMatch(k, o + fs, behind);
    }
  }

  lemma HandlerLines(k: Kit, m: string) returns (head: seq<string>, last: string)
    requires PressOk(k) && k.press(m).Some? && !IsEnd(m)
    ensures head == [k.press(m).value.0 + k.pressFirst, k.pressInner[0]] && last == k.pressLast + k.press(m).value.1
    ensures NoEnd(head) && NoBegin(head) && !IsBegin(last)
  {
    assert LineFits(k, m, k.press(m).value.0, k.press(m).value.1);
    head, last := [k.press(m).value.0 + k.pressFirst, k.pressInner[0]], k.pressLast + k.press(m).value.1;
  }

  /** The new handler's lines: two free lines, its block, and a free line. */
  lemma HandlerShape(k: Kit, m: string, head: seq<string>, last: string, behind: seq<string>)
    requires k.press(m).Some? && |k.pressInner| > 0
    requires head == [k.press(m).value.0 + k.pressFirst, k.pressInner[0]] && last == k.pressLast + k.press(m).value.1
    ensures NewHandler(k, m) + behind == head + (k.pressInner[1..] + ([last] + behind))
  {
    assert k.pressInner == [k.pressInner[0]] + k.pressInner[1..];
  }

  lemma ShapeBehind(k: Kit, o: seq<string>, head: seq<string>, block: seq<string>, rest: seq<string>)
    requires |head| == 2 && NoEnd(head) && NoBegin(head) && rest != []
    requires IsBlock(block) && FateOf(k.classes, block) == Keep && (o != [] ==> IsBegin(o[0]) && NoEnd(o))
    ensures var u := o + (head + (block + rest));
      (Settled(k, u) <==> Settled(k, rest)) && (EndsInNew(k, u) <==> EndsInNew(k, rest)) && Open(u) == Open(rest)
  {
    if o == [] {
      assert o + (head + (block + rest)) == head + (block + rest);
      KeptBehind(k, head, block, rest);
    } else {
      HandlerCloses(k, o, head, block);
      Regroup(o, head + block, rest);
      Regroup(head, block, rest);
      KeptMatch(k, o + (head + block), rest);
    }
  }

  /** The new handler behind an open part. */
  lemma NewHandlerBehind(k: Kit, o: seq<string>, m: string, behind: seq<string>)
    requires PressOk(k) && k.press(m).Some? && !IsEnd(m) && (o != [] ==> IsBegin(o[0]) && NoEnd(o))
    ensures var u := o + (NewHandler(k, m) + behind);
      && (Settled(k, u) <==> Settled(k, behind)) && (EndsInNew(k, u) <==> EndsInNew(k, behind))
      && Open(u) == Open(behind)
  {
    var head, last := HandlerLines(k, m);
    HandlerShape(k, m, head, last, behind);
    SettledLine(k, last, behind);
    ShapeBehind(k, o, head, k.pressInner[1..], [last] + behind);
  }

  /** With the new handler between `front` and `behind`. */
  lemma NewHandlerBetween(k: Kit, front: seq<string>, m: string, behind: seq<string>)
    requires PressOk(k) && k.press(m).Some? && !IsEnd(m)
    ensures var u := front + (NewHandler(k, m) + behind);
      && (Settled(k, u) <==> Settled(k, front) && Settled(k, behind))
      && (Stable(k, u) <==> Settled(k, front) && Stable(k, behind))
      && Open(u) == Open(behind)
  {
    var o := Open(front);
    var closed := OpenSplits(front);
    NoEndIsStable(k, o);
    ClosedThen(k, closed, o);
    Regroup(closed, o, NewHandler(k, m) + behind);
    ClosedThen(k, closed, o + (NewHandler(k, m) + behind));
    NewHandlerBehind(k, o, m, behind);
  }

  lemma KeptMatch(k: Kit, b: seq<string>, rest: seq<string>)
    requires Match(b) && FateOf(k.classes, b) == Keep && rest != []
    ensures Settled(k, b + rest) <==> Settled(k, rest)
    ensures EndsInNew(k, b + rest) <==> EndsInNew(k, rest)
    ensures Open(b + rest) == Open(rest)
  {
    SettledMatch(k, b, rest);
    MatchThen(b, rest);
  }

  lemma KeptBehind(k: Kit, head: seq<string>, block: seq<string>, rest: seq<string>)
    requires |head| == 2 && !IsBegin(head[0]) && !IsBegin(head[1]) && rest != []
    requires IsBlock(block) && FateOf(k.classes, block) == Keep
    ensures var u := head + (block + rest);
      (Settled(k, u) <==> Settled(k, rest)) && (EndsInNew(k, u) <==> EndsInNew(k, rest)) && Open(u) == Open(rest)
  {
    BlockIsMatch(block);
    KeptMatch(k, block, rest);
    SettledLine(k, head[1], block + rest);
    SettledLine(k, head[0], [head[1]] + (block + rest));
    assert head + (block + rest) == [head[0]] + ([head[1]] + (block + rest));
  }

  lemma HandlerCloses(k: Kit, o: seq<string>, head: seq<string>, block: seq<string>)
    requires o != [] && IsBegin(o[0]) && NoEnd(o) && NoEnd(head) && IsBlock(block) && FateOf(k.classes, block) == Keep
    ensures Match(o + (head + block)) && FateOf(k.classes, o + (head + block)) == Keep
  {
    var z := head + block;
    BlockIsMatch(block);
    forall i | 0 <= i < |z| - 1 ensures !IsEnd(z[i]) {
      if i < |head| {
        assert z[i] == head[i];
      } else {
        assert z[i] == block[i - |head|];
      }
    }
    MatchGrows(o, z);
    assert Inner(o + z) == (o[1..] + head + [block[0]]) + Inner(block);
    HasSum(o[1..] + head + [block[0]], Inner(block), k.classes.keeps);
  }

  // -------------------------------------------------------------- the exact condition

  /** The new fullscreen block is inserted into the cleaned text. */
  predicate Due(k: Kit, a: seq<string>) { !Has(a, k.classes.refreshes) && Has(a, k.hover) }

  /** The press handler of the cleaned text is replaced. */
  predicate Pressing(k: Kit, a: seq<string>) { !Has(a, k.sentinel) && Has(a, HasHandler(k)) }

  /** What stands behind the handler. */
  function BehindHandler(k: Kit, a: seq<string>): seq<string>
    requires Has(a, HasHandler(k))
  {
    a[First(a, HasHandler(k)) + 1..]
  }

  /** The lines up to the place of the fullscreen block, the handler in them replaced. */
  function Front(k: Kit, a: seq<string>): seq<string>
    requires Has(a, k.hover)
  {
    var w := a[..First(a, k.hover) + 1];
    if Pressing(k, a) && Has(w, HasHandler(k)) then ReplacePress(k, w) else w
  }

  /** The lines behind it. */
  function Behind(k: Kit, a: seq<string>): seq<string>
    requires Has(a, k.hover)
  {
    var i := First(a, k.hover) + 1;
    if Pressing(k, a) && !Has(a[..i], HasHandler(k)) then ReplacePress(k, a[i..]) else a[i..]
  }

  /** What a caller can check on the cleaned text: read by themselves, the lines behind the
      handler and those behind the fullscreen block are stable; and the fullscreen block is not
      in an open block, and not last, or it is in one that has a line that makes it kept. */
  predicate StaysPut(k: Kit, a: seq<string>) {
    && (Pressing(k, a) ==> Stable(k, BehindHandler(k, a)))
    && (Due(k, a) ==> BlockGoesWell(k, Front(k, a), Behind(k, a)))
  }

  lemma AtHandler(k: Kit, a: seq<string>)
    requires PressOk(k) && Alone(a) && Has(a, HasHandler(k))
    ensures var i := First(a, HasHandler(k));
      && !IsEnd(a[i]) && BehindHandler(k, a) == a[i + 1..]
      && ReplacePress(k, a) == a[..i] + (NewHandler(k, a[i]) + a[i + 1..])
      && (Settled(k, a) ==> Settled(k, a[..i]))
  {
    var i := First(a, HasHandler(k));
    SplitAtFirst(a, i);
    HandlerIsNoMarker(k, a, a[i]);
    ReplaceAtFirst(k, a);
    if Settled(k, a) {
      PrefixSettled(k, a[..i], [a[i]] + a[i + 1..]);
    }
  }

  lemma StableAfterHandler(k: Kit, a: seq<string>)
    requires PressOk(k) && Alone(a) && Settled(k, a) && Has(a, HasHandler(k))
    ensures Stable(k, ReplacePress(k, a)) <==> Stable(k, BehindHandler(k, a))
    ensures Settled(k, ReplacePress(k, a)) <==> Settled(k, BehindHandler(k, a))
    ensures Open(ReplacePress(k, a)) == Open(BehindHandler(k, a))
  {
    var i := First(a, HasHandler(k));
    AtHandler(k, a);
    NewHandlerBetween(k, a[..i], a[i], a[i + 1..]);
  }

  lemma {:induction false} FirstEndCloses(k: Kit, p: seq<string>, j: nat)
    requires j < |p| && IsEnd(p[j]) && forall i :: 0 <= i < j ==> !IsEnd(p[i])
    ensures Open(p[..j + 1]) == []
    decreases j
  {
    var x := p[..j + 1];
    if IsBegin(x[0]) {
      BeginIsNoEnd(x[0]);
      MatchAt(x, []);
      assert x + [] == x;
    } else if j > 0 {
      FirstEndCloses(k, p[1..], j - 1);
      assert x[1..] == p[1..][..j];
    }
  }

  /** A kept block that goes on in a stable text leaves it stable. */
  lemma OpenThenStable(k: Kit, o: seq<string>, p: seq<string>)
    requires PressOk(k) && o != [] && IsBegin(o[0]) && NoEnd(o) && Has(o, k.classes.keeps) && Stable(k, p)
    ensures Stable(k, o + p)
  {
    var j := FirstEnd(p);
    if j == |p| {
      assert NoEnd(o + p);
      NoEndIsStable(k, o + p);
    } else {
      var z, rest := p[..j + 1], p[j + 1..];
      assert p == z + rest;
      Regroup(o, z, rest);
      MatchGrows(o, z);
      FirstEndCloses(k, p, j);
      ClosedThen(k, z, rest);
      SettledMatch(k, o + z, rest);
      assert Inner(o + z) == o[1..] + z[..j];
      HasSum(o[1..], z[..j], k.classes.keeps);
      HasFirst(o, k.classes.keeps);
      assert MarkerAlone(o[0]);
    }
  }

  /** When the fullscreen block goes well, what is behind a handler in front of it is stable
      iff what lies between the two is settled. */
  lemma BetweenIsSettledIff(k: Kit, c: seq<string>, p: seq<string>)
    requires KitOk(k) && PressOk(k) && BlockGoesWell(k, c, p)
    ensures Settled(k, c) <==> Stable(k, c + p)
  {
    var closed := OpenSplits(c);
    var o := Open(c);
    Regroup(closed, o, p);
    ClosedThen(k, closed, o + p);
    ClosedThen(k, closed, o);
    NoEndIsStable(k, o);
    if o == [] {
      assert o + p == p;
    } else {
      OpenThenStable(k, o, p);
    }
  }

  /** The patched text, taken apart at the place of the fullscreen block. */
  lemma PatchedParts(k: Kit, a: seq<string>)
    requires KitOk(k) && Due(k, a)
    ensures PressStep(k, FullscreenStep(k, a)) == Front(k, a) + (k.classes.replacement + Behind(k, a))
  {
    var i, fs := First(a, k.hover) + 1, k.classes.replacement;
    var w, p := a[..i], a[i..];
    InsertAtFirst(a, k.hover, fs);
    SplitAtFirst(a, i - 1);
    QuietHasNone(k, fs);
    HasSum(w, p, k.sentinel);
    HasSum(w, fs + p, k.sentinel);
    HasSum(fs, p, k.sentinel);
    HasSum(w, p, HasHandler(k));
    HasSum(w, fs + p, HasHandler(k));
    HasSum(fs, p, HasHandler(k));
    if Pressing(k, a) {
      if Has(w, HasHandler(k)) {
        ReplaceFront(k, w, fs + p);
      } else {
        ReplaceBehind(k, w, fs + p);
        ReplaceBehind(k, fs, p);
      }
    } else if !Has(a, HasHandler(k)) {
      NoHandlerNoChange(k, w + (fs + p));
    }
  }

  lemma {:induction false} ReplaceFront(k: Kit, x: seq<string>, y: seq<string>)
    requires Has(x, HasHandler(k))
    ensures ReplacePress(k, x + y) == ReplacePress(k, x) + y
    decreases |x|
  {
    HasFirst(x, HasHandler(k));
    assert (x + y)[0] == x[0] && (x + y)[1..] == x[1..] + y;
    if k.press(x[0]).Some? {
      Regroup(NewHandler(k, x[0]), x[1..], y);
    } else {
      ReplaceFront(k, x[1..], y);
      Regroup([x[0]], ReplacePress(k, x[1..]), y);
    }
  }

  lemma {:induction false} FirstOfSum(w: seq<string>, p: seq<string>, needle: string -> bool)
    ensures First(w + p, needle) == if Has(w, needle) then First(w, needle) else |w| + First(p, needle)
    decreases |w|
  {
    if w == [] {
      assert w + p == p;
    } else {
      assert (w + p)[0] == w[0] && (w + p)[1..] == w[1..] + p;
      HasFirst(w, needle);
      FirstOfSum(w[1..], p, needle);
    }
  }

  /** The handler in the part that has the first one. */
  lemma BehindHandlerParts(k: Kit, w: seq<string>, p: seq<string>)
    requires Has(w + p, HasHandler(k))
    ensures Has(w, HasHandler(k)) ==> BehindHandler(k, w + p) == BehindHandler(k, w) + p
    ensures !Has(w, HasHandler(k)) ==> Has(p, HasHandler(k)) && BehindHandler(k, w + p) == BehindHandler(k, p)
  {
    HasSum(w, p, HasHandler(k));
    FirstOfSum(w, p, HasHandler(k));
  }

  lemma DueIsStableIff(k: Kit, a: seq<string>)
    requires KitOk(k) && PressOk(k) && Alone(a) && Stable(k, a) && Due(k, a)
    ensures Stable(k, PressStep(k, FullscreenStep(k, a))) <==> StaysPut(k, a)
  {
    var i := First(a, k.hover) + 1;
    var w, p := a[..i], a[i..];
    SplitAtFirst(a, i - 1);
    AloneParts(w, p);
    PatchedParts(k, a);
    NewBlockBetween(k, Front(k, a), Behind(k, a));
    PrefixSettled(k, w, p);
    if Pressing(k, a) {
      BehindHandlerParts(k, w, p);
      if Has(w, HasHandler(k)) {
        StableAfterHandler(k, w);
        if BlockGoesWell(k, Front(k, a), p) {
          BetweenIsSettledIff(k, BehindHandler(k, w), p);
        }
      } else {
        HandlerBehind(k, p);
      }
    }
  }

  /** What is behind the handler of a stable text with a new handler is stable. */
  lemma HandlerBehind(k: Kit, p: seq<string>)
    requires PressOk(k) && Alone(p) && Has(p, HasHandler(k))
    ensures Stable(k, ReplacePress(k, p)) ==> Stable(k, BehindHandler(k, p))
  {
    var i := First(p, HasHandler(k));
    AtHandler(k, p);
    NewHandlerBetween(k, p[..i], p[i], p[i + 1..]);
  }

  lemma NotDueIsStableIff(k: Kit, a: seq<string>)
    requires KitOk(k) && PressOk(k) && Alone(a) && Stable(k, a) && !Due(k, a)
    ensures Stable(k, PressStep(k, FullscreenStep(k, a))) <==> StaysPut(k, a)
  {
    if !Has(a, k.hover) {
      InsertMisses(a, k.hover, k.classes.replacement);
    }
    if Has(a, HasHandler(k)) {
      StableAfterHandler(k, a);
    } else {
      NoHandlerNoChange(k, a);
    }
  }

  // ------------------------------------------------------------------- main results

  /** On a text whose marker lines stand alone, patching again changes nothing iff the places
      of the two insertions meet the condition. */
  lemma NewPatchIsFixedIff(k: Kit, t: seq<string>)
    requires KitOk(k) && PressOk(k) && Alone(t)
    ensures NewPatch(k, NewPatch(k, t)) == NewPatch(k, t) <==> StaysPut(k, Strip(k.classes, t))
  {
    var a := Strip(k.classes, t);
    FixedIffStable(k, t);
    StripIsStable(k, t);
    if Due(k, a) {
      DueIsStableIff(k, a);
    } else {
      NotDueIsStableIff(k, a);
    }
  }

  // -------------------------------------------------------------------- paired markers

  /** No match holds a second opening marker. */
  predicate Paired(lines: seq<string>)
    decreases |lines|
  {
    lines == [] ||
    if BlockStarts(lines) then NoBegin(Inner(lines[..BlockSize(lines)])) && Paired(lines[BlockSize(lines)..])
    else Paired(lines[1..])
  }

  lemma {:induction false} NoBeginIsStable(k: Kit, x: seq<string>)
    requires NoBegin(x)
    ensures Stable(k, x) && Open(x) == []
    decreases |x|
  {
    if x != [] {
      assert x[0] in x && forall l :: l in x[1..] ==> l in x;
      NoBeginIsStable(k, x[1..]);
    }
  }

  lemma RestOfMatch(x: seq<string>, i: nat)
    requires BlockStarts(x) && NoBegin(Inner(x[..BlockSize(x)])) && 0 < i < BlockSize(x)
    ensures NoBegin(x[i..BlockSize(x)]) && x[i..] == x[i..BlockSize(x)] + x[BlockSize(x)..]
  {
    var n := BlockSize(x);
    forall j | i <= j < n ensures !IsBegin(x[j]) {
      if j < n - 1 {
        assert x[j] == Inner(x[..n])[j - 1];
      } else if IsBegin(x[j]) {
        BeginIsNoEnd(x[j]);
      }
    }
  }

  lemma {:induction false} SuffixIsStable(k: Kit, x: seq<string>, i: nat)
    requires Stable(k, x) && Paired(x) && i <= |x|
    ensures Stable(k, x[i..])
    decreases |x|
  {
    if i == 0 {
      assert x[0..] == x;
    } else if !BlockStarts(x) {
      SuffixIsStable(k, x[1..], i - 1);
      assert x[i..] == x[1..][i - 1..];
    } else if i >= BlockSize(x) {
      var n := BlockSize(x);
      if n < |x| {
        SuffixIsStable(k, x[n..], i - n);
        assert x[i..] == x[n..][i - n..];
      }
    } else {
      RestOfMatch(x, i);
      NoBeginIsStable(k, x[i..BlockSize(x)]);
      ClosedThen(k, x[i..BlockSize(x)], x[BlockSize(x)..]);
      if x[BlockSize(x)..] == [] {
        assert x[i..] == x[i..BlockSize(x)];
      }
    }
  }

  lemma PairedBehind(k: Kit, a: seq<string>)
    requires PressOk(k) && Alone(a) && Stable(k, a) && Paired(a) && Has(a, k.hover)
    ensures Stable(k, Behind(k, a))
  {
    var i := First(a, k.hover) + 1;
    SuffixIsStable(k, a, i);
    if Pressing(k, a) && !Has(a[..i], HasHandler(k)) {
      PairedHandlerBehind(k, a, i);
    }
  }

  lemma BehindHandlerOf(k: Kit, a: seq<string>, i: nat)
    requires i <= |a| && Has(a, HasHandler(k)) && !Has(a[..i], HasHandler(k))
    ensures Has(a[i..], HasHandler(k)) && BehindHandler(k, a[i..]) == a[First(a, HasHandler(k)) + 1..]
  {
    assert a == a[..i] + a[i..];
    BehindHandlerParts(k, a[..i], a[i..]);
  }

  lemma PairedHandlerBehind(k: Kit, a: seq<string>, i: nat)
    requires PressOk(k) && Alone(a) && Stable(k, a) && Paired(a)
    requires i <= |a| && Has(a, HasHandler(k)) && !Has(a[..i], HasHandler(k))
    ensures Stable(k, ReplacePress(k, a[i..]))
  {
    BehindHandlerOf(k, a, i);
    StableParts(k, a, i, First(a, HasHandler(k)) + 1);
    assert Alone(a[i..]);
    StableAfterHandler(k, a[i..]);
  }

  lemma StableParts(k: Kit, a: seq<string>, i: nat, j: nat)
    requires Stable(k, a) && Paired(a) && i <= |a| && j <= |a|
    ensures Stable(k, a[i..]) && Stable(k, a[j..])
  {
    SuffixIsStable(k, a, i);
    SuffixIsStable(k, a, j);
  }

  /** The fullscreen block is not due, or its place is in no open block and not last, or in
      one that has a line in front of it that makes it kept, be it brought by the handler. */
  predicate PlaceIsFine(k: Kit, a: seq<string>) {
    Due(k, a) ==>
      if Open(Front(k, a)) == [] then Behind(k, a) != [] else Has(Open(Front(k, a)), k.classes.keeps)
  }

  lemma PairedBehindHandler(k: Kit, a: seq<string>)
    requires Stable(k, a) && Paired(a) && Has(a, HasHandler(k))
    ensures Stable(k, BehindHandler(k, a))
  {
    SuffixIsStable(k, a, First(a, HasHandler(k)) + 1);
  }

  lemma PairedStaysPut(k: Kit, a: seq<string>)
    requires PressOk(k) && Alone(a) && Stable(k, a) && Paired(a)
    ensures StaysPut(k, a) <==> PlaceIsFine(k, a)
  {
    if Has(a, HasHandler(k)) {
      PairedBehindHandler(k, a);
    }
    if Has(a, k.hover) {
      PairedBehind(k, a);
    }
  }

  /** When the kept blocks hold no second opening marker, only the fullscreen block matters. */
  lemma PairedIsFixedIff(k: Kit, t: seq<string>)
    requires KitOk(k) && PressOk(k) && Alone(t) && Paired(Strip(k.classes, t))
    ensures NewPatch(k, NewPatch(k, t)) == NewPatch(k, t) <==> PlaceIsFine(k, Strip(k.classes, t))
  {
    NewPatchIsFixedIff(k, t);
    StripIsStable(k, t);
    PairedStaysPut(k, Strip(k.classes, t));
  }
}
