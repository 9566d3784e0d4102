/**
 Where the lines of the old and of the new patch go in a text that has neither.
 */
module InteractionsPlaces {
  import opened Wrappers
  import opened Markers
  import opened InteractionsPatch

  /** None of the four places that a block goes behind. */
  predicate Elsewhere(k: Kit, lines: seq<string>) {
    Misses(lines, k.props) && Misses(lines, k.hover) && Misses(lines, k.ypos) && Misses(lines, k.lost)
  }

  lemma MissesSum(a: seq<string>, b: seq<string>, p: string -> bool)
    requires Misses(a, p) && Misses(b, p)
    ensures Misses(a + b, p)
  {
  }

  lemma MissesOne(l: string, p: string -> bool)
    requires !p(l)
    ensures Misses([l], p)
  {
  }

  /** A block that has no place in it goes behind the only line that is one. */
  lemma OnlyPlace(x: seq<string>, l: string, y: seq<string>, p: string -> bool, b: seq<string>)
    requires Misses(x, p) && Misses(y, p)
    ensures p(l) ==> InsertAfter(x + ([l] + y), p, b) == (x + [l]) + (b + y)
    ensures !p(l) ==> InsertAfter(x + ([l] + y), p, b) == x + ([l] + y)
  {
    if p(l) {
      InsertBehind(x, l, y, p, b);
    } else {
      MissesOne(l, p);
      MissesSum([l], y, p);
      MissesSum(x, [l] + y, p);
      InsertMisses(x + ([l] + y), p, b);
    }
  }

  /** A second insertion, behind a line of another kind, finds nothing. */
  lemma NoPlaceNow(x: seq<string>, l: string, b: seq<string>, y: seq<string>, p: string -> bool, c: seq<string>)
    requires Misses(x, p) && Misses(y, p) && Misses(b, p) && !p(l)
    ensures InsertAfter((x + [l]) + (b + y), p, c) == (x + [l]) + (b + y)
  {
    MissesOne(l, p);
    MissesSum(x, [l], p);
    MissesSum(b, y, p);
    MissesSum(x + [l], b + y, p);
    InsertMisses((x + [l]) + (b + y), p, c);
  }

  lemma BlocksAreElsewhere(k: Kit)
    requires KitOk(k)
    ensures Elsewhere(k, k.propsBlock) && Elsewhere(k, k.fullscreenBlock) && Elsewhere(k, k.sensorBlock)
  {
  }

  /** The old patch puts each of its blocks behind its own place: stated for a text in which `l` is
      the only place, of each of the four kinds in turn. */
  lemma OldBlockGoesTo(k: Kit, x: seq<string>, l: string, y: seq<string>)
    requires KitOk(k) && Elsewhere(k, x) && Elsewhere(k, y) && !Has(x + ([l] + y), k.edge)
    ensures var t := x + ([l] + y);
      && (k.props(l) && !k.hover(l) && !k.ypos(l) && !k.lost(l) ==> OldPatch(k, t) == (x + [l]) + (k.propsBlock + y))
      && (k.hover(l) && !k.props(l) && !k.ypos(l) && !k.lost(l) ==> OldPatch(k, t) == (x + [l]) + (k.fullscreenBlock + y))
      && (k.ypos(l) && !k.props(l) && !k.hover(l) && !k.lost(l) ==> OldPatch(k, t) == (x + [l]) + (k.sensorBlock + y))
      && (k.lost(l) && !k.props(l) && !k.hover(l) && !k.ypos(l) ==> OldPatch(k, t) == (x + [l]) + (k.lostBlock + y))
      && (!k.props(l) && !k.hover(l) && !k.ypos(l) && !k.lost(l) ==> OldPatch(k, t) == t)
  {
    BlocksAreElsewhere(k);
    OnlyPlace(x, l, y, k.props, k.propsBlock);
    OnlyPlace(x, l, y, k.hover, k.fullscreenBlock);
    OnlyPlace(x, l, y, k.ypos, k.sensorBlock);
    OnlyPlace(x, l, y, k.lost, k.lostBlock);
    if k.props(l) && !k.hover(l) && !k.ypos(l) && !k.lost(l) {
      NoPlaceNow(x, l, k.propsBlock, y, k.hover, k.fullscreenBlock);
      NoPlaceNow(x, l, k.propsBlock, y, k.ypos, k.sensorBlock);
      NoPlaceNow(x, l, k.propsBlock, y, k.lost, k.lostBlock);
    } else if k.hover(l) && !k.props(l) && !k.ypos(l) && !k.lost(l) {
      NoPlaceNow(x, l, k.fullscreenBlock, y, k.ypos, k.sensorBlock);
      NoPlaceNow(x, l, k.fullscreenBlock, y, k.lost, k.lostBlock);
    } else if k.ypos(l) && !k.props(l) && !k.hover(l) && !k.lost(l) {
      NoPlaceNow(x, l, k.sensorBlock, y, k.lost, k.lostBlock);
    }
  }

  lemma NoHandlerIn(k: Kit, b: seq<string>)
    requires QuietBlock(k, b)
    ensures !Has(b, HasHandler(k)) && !Has(b, k.sentinel)
  {
  }

  /** The new patch on a text without markers, with its two places in this order: the new block
      goes behind the first, and the handler's line becomes the new handler, with what stood in
      front of it and behind it on that line. */
  lemma NewLinesGoTo(k: Kit, x: seq<string>, h: string, y: seq<string>, l: string, z: seq<string>, pre: string, post: string)
    requires KitOk(k) && k.hover(h) && Misses(x, k.hover) && k.press(l) == Some((pre, post))
    requires var t := x + ([h] + (y + ([l] + z)));
      NoBegin(t) && !Has(t, k.classes.refreshes) && !Has(t, k.sentinel)
    requires !Has((x + [h]) + y, HasHandler(k))
    ensures NewPatch(k, x + ([h] + (y + ([l] + z)))) ==
      ((x + [h]) + (k.classes.replacement + y)) + (([pre + k.pressFirst] + k.pressInner + [k.pressLast + post]) + z)
  {
    var rest, t, b := y + ([l] + z), x + ([h] + (y + ([l] + z))), k.classes.replacement;
    StripClean(k.classes, t);
    InsertBehind(x, h, rest, k.hover, b);
    NoHandlerIn(k, b);
    Behind(k, x + [h], b, y, l, z);
  }

  lemma HasInParts(a: seq<string>, b: seq<string>, c: seq<string>, p: string -> bool)
    ensures Has(a + (b + c), p) <==> Has(a, p) || Has(b, p) || Has(c, p)
  {
    HasSum(a, b + c, p);
    HasSum(b, c, p);
  }

  lemma Behind(k: Kit, a: seq<string>, b: seq<string>, y: seq<string>, l: string, z: seq<string>)
    requires k.press(l).Some? && !Has(a + y, HasHandler(k)) && !Has(b, HasHandler(k)) && !Has(b, k.sentinel)
    requires !Has(a + (y + ([l] + z)), k.sentinel)
    ensures PressStep(k, a + (b + (y + ([l] + z)))) == (a + (b + y)) + (PressNew(k, k.press(l).value.0, k.press(l).value.1) + z)
  {
    var t := a + (b + (y + ([l] + z)));
    HasInParts(a, b, y + ([l] + z), k.sentinel);
    HasSum(a, y + ([l] + z), k.sentinel);
    HasSum(a, y, HasHandler(k));
    HasInParts(a, b, y, HasHandler(k));
    assert t == (a + (b + y)) + ([l] + z);
    ReplaceBehind(k, a + (b + y), [l] + z);
    assert ([l] + z)[1..] == z;
  }
}
