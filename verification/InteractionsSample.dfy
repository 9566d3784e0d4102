/**
 The assumptions on the texts of the WhatsApp patch can be met, and texts on which the upgrade
 differs from a fresh install and on which the new patch is no fixed point.
 */
module InteractionsSample {
  import opened Markers
  import opened InteractionsPatch
  import opened StableBlocks
  import opened InteractionsTwice
  import opened InteractionsLost

  predicate Head(l: string, c: char) { l != "" && l[0] == c }

  function SampleKit(): Kit {
    var keeps := (l: string) => Head(l, 'o');
    var block := [MARK_BEGIN, "fullscreen", MARK_END];
    var plain := [MARK_BEGIN, "x", MARK_END];
    Kit(Classes(keeps, (l: string) => Head(l, 'f'), block), (l: string) => false, keeps,
      (l: string) => Head(l, 'a'), (l: string) => Head(l, 'h'), (l: string) => Head(l, 'y'), (l: string) => Head(l, 'b'),
      (l: string) => if Head(l, 'p') then Wrappers.Some(("", l[1..])) else Wrappers.None,
      plain, block, plain, plain, "{", ["drag", MARK_BEGIN, "opened", MARK_END], "}")
  }

  lemma MarksAreAlone()
    ensures IsBegin(MARK_BEGIN) && IsEnd(MARK_END) && EndRest(MARK_END) == ""
  {
    assert Untabbed(MARK_BEGIN) == MARK_BEGIN && Untabbed(MARK_END) == MARK_END;
    assert MARK_BEGIN[|MARK_BEGIN|..] == "" && MARK_END[|MARK_END|..] == "";
  }

  /** Markers begin with a slash, behind blanks. */
  lemma MarkersHead(l: string)
    requires IsBegin(l) || IsEnd(l)
    ensures Head(l, '/') || Head(l, ' ') || Head(l, '\t')
  {
    assert MARK_BEGIN[0] == '/' && MARK_END[0] == '/';
  }

  lemma SampleBlock(c: Classes, l: string)
    requires l != "" && l[0] != '/' && !IsTab(l[0])
    ensures var b := [MARK_BEGIN, l, MARK_END];
      IsBlock(b) && Inner(b) == [l]
      && FateOf(c, b) == if c.keeps(l) then Keep else if c.refreshes(l) then Replace else Remove
  {
    MarksAreAlone();
    var b := [MARK_BEGIN, l, MARK_END];
    assert Inner(b) == [l];
    HasOne(l, c.keeps);
    HasOne(l, c.refreshes);
    if IsEnd(l) {
      MarkersHead(l);
    }
  }

  /** A line that begins with none of the letters of the places. */
  lemma SampleQuiet(l: string)
    requires l == "" || l[0] in "/ \txf"
    ensures Quiet(SampleKit(), l)
  {
  }

  lemma SampleQuietBlock(l: string)
    requires l == "x" || l == "fullscreen"
    ensures QuietBlock(SampleKit(), [MARK_BEGIN, l, MARK_END])
  {
    SampleBlock(SampleKit().classes, l);
    MarksAreAlone();
    MarkersHead(MARK_BEGIN);
    MarkersHead(MARK_END);
    SampleQuiet(MARK_BEGIN);
    SampleQuiet(l);
    SampleQuiet(MARK_END);
  }

  lemma SampleFate(l: string)
    requires l == "x" || l == "fullscreen"
    ensures FateOf(SampleKit().classes, [MARK_BEGIN, l, MARK_END]) == if l == "x" then Remove else Replace
  {
    SampleBlock(SampleKit().classes, l);
  }

  /** The assumptions on the kit can be met: here each place is told by one letter. */
  lemma SampleKitIsOk()
    ensures KitOk(SampleKit())
  {
    SampleQuietBlock("x");
    SampleQuietBlock("fullscreen");
    SampleFate("x");
    SampleFate("fullscreen");
    SampleQuiet("");
    if IsBegin("") {
      MarkersHead("");
    }
  }

  lemma SampleInner()
    ensures var k := SampleKit(); var inner := k.pressInner;
      && |inner| > 0 && !IsBegin(inner[0]) && !IsEnd(inner[0])
      && IsBlock(inner[1..]) && FateOf(k.classes, inner[1..]) == Keep
  {
    var k := SampleKit();
    SampleBlock(k.classes, "opened");
    assert k.pressInner[1..] == [MARK_BEGIN, "opened", MARK_END];
    if IsBegin("drag") || IsEnd("drag") {
      MarkersHead("drag");
    }
  }

  lemma SampleSentinel()
    ensures var k := SampleKit(); Has(k.pressInner, k.sentinel) && !Has(k.pressInner, k.hover)
  {
    var inner := SampleKit().pressInner;
    assert inner[2] in inner;
    MarksAreAlone();
    MarkersHead(MARK_BEGIN);
    MarkersHead(MARK_END);
  }

  lemma SampleMarkers(l: string)
    requires MarkerAlone(l)
    ensures var k := SampleKit(); Quiet(k, l) && !k.classes.keeps(l) && !k.classes.refreshes(l)
  {
    MarkersHead(l);
    SampleQuiet(l);
  }

  lemma SamplePressIsOk()
    ensures PressOk(SampleKit())
  {
    var k := SampleKit();
    SampleInner();
    SampleSentinel();
    forall l | k.press(l).Some? ensures LineFits(k, l, k.press(l).value.0, k.press(l).value.1) {
      SampleLineFits(l);
    }
    forall l | MarkerAlone(l) ensures Quiet(k, l) && !k.classes.keeps(l) && !k.classes.refreshes(l) {
      SampleMarkers(l);
    }
  }

  lemma SampleLineFits(l: string)
    requires SampleKit().press(l).Some?
    ensures var k := SampleKit(); LineFits(k, l, k.press(l).value.0, k.press(l).value.1)
  {
    var first, last := "" + "{", "}" + l[1..];
    assert first[0] == '{' && last[0] == '}';
    if IsBegin(first) || IsEnd(first) {
      MarkersHead(first);
    }
    if IsBegin(last) || IsEnd(last) {
      MarkersHead(last);
    }
  }

  // ------------------------------------------------------------------- failing texts

  lemma PlainLines(t: seq<string>)
    requires forall l :: l in t ==> l == "" || l[0] in "hfo"
    ensures NoBegin(t) && NoEnd(t)
  {
    forall l | l in t ensures !IsBegin(l) && !IsEnd(l) {
      if IsBegin(l) || IsEnd(l) {
        MarkersHead(l);
      }
    }
  }

  lemma OneOf(l: string, t: seq<string>, k: Kit)
    requires k == SampleKit() && l in t
    ensures Head(l, 'h') ==> Has(t, k.hover)
    ensures Head(l, 'f') ==> Has(t, k.classes.refreshes)
    ensures Head(l, 'o') ==> Has(t, k.classes.keeps)
  {
  }

  /** A core with its own fullscreen handler. */
  lemma OwnHandlerSample()
    ensures var k, t := SampleKit(), ["h", "f", ""];
      NoBegin(t) && !Has(t, k.edge) && Has(t, k.hover) && Has(t, k.classes.refreshes)
  {
    var k, t := SampleKit(), ["h", "f", ""];
    PlainLines(t);
    OneOf("h", t, k);
    OneOf("f", t, k);
  }

  /** A place on an unterminated last line. */
  lemma LastLineUpgradeSample()
    ensures var k, t := SampleKit(), ["h"];
      NoBegin(t) && !Has(t, k.edge)
      && HitsLastLine(k, t, k.propsBlock, k.fullscreenBlock, k.sensorBlock, k.lostBlock)
  {
    var k, t := SampleKit(), ["h"];
    PlainLines(t);
    assert k.hover("h") && |k.fullscreenBlock| == 3;
  }

  lemma NothingInParts(k: Kit, t: seq<string>)
    requires k == SampleKit() && forall l :: l in t ==> l == "" || l[0] in "/h"
    ensures !Has(t, k.classes.refreshes) && !Has(t, k.classes.keeps) && !Has(t, HasHandler(k))
  {
  }

  lemma OpenPart(k: Kit, o: seq<string>)
    requires k == SampleKit() && o == [MARK_BEGIN, "h"]
    ensures IsBegin(o[0]) && NoEnd(o) && !Has(o, k.classes.keeps) && k.hover(o[1]) && Misses(o[..1], k.hover)
  {
    MarksAreAlone();
    BeginIsNoEnd(MARK_BEGIN);
    assert MARK_BEGIN[0] == '/';
    if IsEnd("h") {
      MarkersHead("h");
    }
    assert o[..1] == [MARK_BEGIN];
    NothingInParts(k, o);
  }

  lemma OpenPlaceOf(k: Kit, o: seq<string>, y: seq<string>, t: seq<string>)
    requires k == SampleKit() && o == [MARK_BEGIN, "h"] && t == [] + (o + y)
    requires !Has(t, k.classes.refreshes) && !Pressing(k, t)
    ensures OpenPlace(k, [], o, y)
  {
    OpenPart(k, o);
  }

  /** An opening marker that nothing closes. */
  lemma StrayBeginSample()
    ensures var k := SampleKit(); OpenPlace(k, [], [MARK_BEGIN, "h"], [""]) && NoEnd([""])
  {
    var k, o, t := SampleKit(), [MARK_BEGIN, "h"], [MARK_BEGIN, "h", ""];
    assert [] + (o + [""]) == t;
    assert MARK_BEGIN[0] == '/';
    NothingInParts(k, t);
    OpenPlaceOf(k, o, [""], t);
    PlainLines([""]);
  }

  lemma SplitParts(k: Kit, t: seq<string>)
    requires k == SampleKit() && t == [MARK_BEGIN, "h", "o", MARK_END, ""]
    ensures !Has(t, k.classes.refreshes) && !Pressing(k, t)
  {
    assert MARK_BEGIN[0] == '/' && MARK_END[0] == '/';
    OneOf("o", t, k);
  }

  /** A block that is kept for a line behind the place in it. */
  lemma SplitBlockSample(k: Kit, o: seq<string>, y: seq<string>)
    requires k == SampleKit() && o == [MARK_BEGIN, "h"] && y == (["o"] + [MARK_END]) + [""]
    ensures OpenPlace(k, [], o, y)
  {
    var t := [MARK_BEGIN, "h", "o", MARK_END, ""];
    assert [] + (o + y) == t;
    SplitParts(k, t);
    OpenPlaceOf(k, o, y, t);
  }

  lemma SplitRestSample(k: Kit, post: seq<string>, y: seq<string>)
    requires k == SampleKit() && post == ["o"] && y == [""]
    ensures NoEnd(post) && NoBegin(post) && IsEnd(MARK_END) && Has(post, k.classes.keeps) && Stable(k, y)
  {
    MarksAreAlone();
    PlainLines(post);
    PlainLines(y);
    NoEndIsStable(k, y);
    OneOf("o", post, k);
  }

  lemma FirstPlace(k: Kit, t: seq<string>)
    requires k == SampleKit() && t == ["h"]
    ensures Due(k, t) && !Pressing(k, t) && First(t, k.hover) == 0
  {
    NothingInParts(k, t);
    OneOf("h", t, k);
    FirstIs(t, k.hover, 0);
  }

  /** The place on an unterminated last line. */
  lemma LastLineSample(k: Kit, t: seq<string>)
    requires k == SampleKit() && t == ["h"]
    ensures Strip(k.classes, t) == t && Due(k, t) && Front(k, t) == t && Behind(k, t) == []
    ensures Settled(k, t) && Open(t) == []
  {
    PlainLines(t);
    StripClean(k.classes, t);
    FirstPlace(k, t);
    NoBeginIsStable(k, t);
    assert t[..1] == t && t[1..] == [];
  }
}
