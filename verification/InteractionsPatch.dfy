/**
 patch_interactions, old and new: upgrading a file that has the old patch gives what
 the new patch gives on the clean file (`StripInserted` undoes the old blocks).

 A text is given by its lines. Search patterns and fixed texts are parameters,
 gathered in a kit; what the proofs need of them is stated in `KitOk`.
 */
module InteractionsPatch {
  import opened Wrappers
  import opened Markers

  /** `classes.keeps` and `classes.refreshes` tell whether a line contains
      "root.panels.whatsapp.opened" and "onFullscreenChanged"; `classes.replacement` is the new
      fullscreen block. `press` splits a line at the original press handler. */
  datatype Kit = Kit(
    classes: Classes,
    edge: string -> bool, sentinel: string -> bool,
    props: string -> bool, hover: string -> bool, ypos: string -> bool, lost: string -> bool,
    press: string -> Option<(string, string)>,
    propsBlock: seq<string>, fullscreenBlock: seq<string>, sensorBlock: seq<string>, lostBlock: seq<string>,
    pressFirst: string, pressInner: seq<string>, pressLast: string)

  // ------------------------------------------------------------------- the patches

  /** insert_after_line: behind the first line that the pattern matches. */
  function InsertAfter(lines: seq<string>, anchor: string -> bool, block: seq<string>): seq<string> {
    if lines == [] then []
    else if anchor(lines[0]) then [lines[0]] + (block + lines[1..])
    else [lines[0]] + InsertAfter(lines[1..], anchor, block)
  }

  /** The old patch's four insertions, each block possibly empty. */
  function Inserted(k: Kit, t: seq<string>, p: seq<string>, f: seq<string>, s: seq<string>, c: seq<string>): seq<string> {
    InsertAfter(InsertAfter(InsertAfter(InsertAfter(t, k.props, p), k.hover, f), k.ypos, s), k.lost, c)
  }

  function OldPatch(k: Kit, lines: seq<string>): seq<string> {
    if Has(lines, k.edge) then lines
    else Inserted(k, lines, k.propsBlock, k.fullscreenBlock, k.sensorBlock, k.lostBlock)
  }

  function PressNew(k: Kit, pre: string, post: string): seq<string> {
    [pre + k.pressFirst] + k.pressInner + [k.pressLast + post]
  }

  /** replace_once of the press handler. */
  function ReplacePress(k: Kit, lines: seq<string>): seq<string> {
    if lines == [] then []
    else if k.press(lines[0]).Some? then
      PressNew(k, k.press(lines[0]).value.0, k.press(lines[0]).value.1) + lines[1..]
    else [lines[0]] + ReplacePress(k, lines[1..])
  }

  function FullscreenStep(k: Kit, lines: seq<string>): seq<string> {
    if Has(lines, k.classes.refreshes) then lines else InsertAfter(lines, k.hover, k.classes.replacement)
  }

  function PressStep(k: Kit, lines: seq<string>): seq<string> {
    if Has(lines, k.sentinel) then lines else ReplacePress(k, lines)
  }

  function NewPatch(k: Kit, lines: seq<string>): seq<string> {
    PressStep(k, FullscreenStep(k, Strip(k.classes, lines)))
  }

  /** The search of a line. */
  method FindLine(lines: seq<string>, p: string -> bool) returns (i: nat)
    ensures i == First(lines, p)
  {
    i := 0;
    while i < |lines| && !p(lines[i])
      invariant i <= |lines| && forall j :: 0 <= j < i ==> !p(lines[j])
    {
      i := i + 1;
    }
    FirstIs(lines, p, i);
  }

  /** insert_after_line: search, then splice. */
  method InsertAfterLine(lines: seq<string>, anchor: string -> bool, block: seq<string>) returns (r: seq<string>, ok: bool)
    ensures r == InsertAfter(lines, anchor, block) && (ok <==> Has(lines, anchor))
  {
    var i := FindLine(lines, anchor);
    ok := i < |lines|;
    if !ok {
      InsertMisses(lines, anchor, block);
      return lines, false;
    }
    InsertAtFirst(lines, anchor, block);
    r := lines[..i + 1] + (block + lines[i + 1..]);
  }

  /** replace_once of the press handler. */
  method ReplaceOnce(k: Kit, lines: seq<string>) returns (r: seq<string>, ok: bool)
    ensures r == ReplacePress(k, lines) && (ok <==> Has(lines, HasHandler(k)))
  {
    var i := FindLine(lines, HasHandler(k));
    ok := i < |lines|;
    if !ok {
      NoHandlerNoChange(k, lines);
      return lines, false;
    }
    ReplaceAtFirst(k, lines);
    r := lines[..i] + (NewHandler(k, lines[i]) + lines[i + 1..]);
  }

  method PatchInteractions(k: Kit, lines: seq<string>) returns (r: seq<string>)
    ensures r == NewPatch(k, lines)
  {
    var ok;
    r := StripBlocks(k.classes, lines);
    if !Has(r, k.classes.refreshes) {
      r, ok := InsertAfterLine(r, k.hover, k.classes.replacement);
    }
    if !Has(r, k.sentinel) {
      r, ok := ReplaceOnce(k, r);
    }
  }

  method PatchInteractionsOld(k: Kit, lines: seq<string>) returns (r: seq<string>)
    ensures r == OldPatch(k, lines)
  {
    var ok;
    r := lines;
    if Has(r, k.edge) {
      return;
    }
    r, ok := InsertAfterLine(r, k.props, k.propsBlock);
    r, ok := InsertAfterLine(r, k.hover, k.fullscreenBlock);
    r, ok := InsertAfterLine(r, k.ypos, k.sensorBlock);
    r, ok := InsertAfterLine(r, k.lost, k.lostBlock);
  }

  // ------------------------------------------------------------- the first of a kind

  /** Index of the first line that `p` holds of, |lines| if there is none. */
  function First(lines: seq<string>, p: string -> bool): (i: nat)
    ensures i <= |lines| && (i < |lines| ==> p(lines[i])) && forall j :: 0 <= j < i ==> !p(lines[j])
    ensures i < |lines| <==> Has(lines, p)
  {
    if lines == [] || p(lines[0]) then 0
    else
      HasFirst(lines, p);
      1 + First(lines[1..], p)
  }

  lemma FirstIs(lines: seq<string>, p: string -> bool, i: nat)
    requires i <= |lines| && (i < |lines| ==> p(lines[i])) && forall j :: 0 <= j < i ==> !p(lines[j])
    ensures i == First(lines, p)
  {
  }

  lemma HasFirst(lines: seq<string>, p: string -> bool)
    requires lines != []
    ensures Has(lines, p) <==> p(lines[0]) || Has(lines[1..], p)
  {
    assert lines == [lines[0]] + lines[1..];
    HasSum([lines[0]], lines[1..], p);
    HasOne(lines[0], p);
  }

  lemma LineAt(lines: seq<string>, i: nat)
    requires i < |lines|
    ensures lines == lines[..i] + ([lines[i]] + lines[i + 1..]) && lines[..i] + [lines[i]] == lines[..i + 1]
  {
  }

  lemma InsertBehind(x: seq<string>, l: string, y: seq<string>, p: string -> bool, block: seq<string>)
    requires Misses(x, p) && p(l)
    ensures InsertAfter(x + ([l] + y), p, block) == (x + [l]) + (block + y)
  {
    InsertSkips(x, [l] + y, p, block);
    assert ([l] + y)[1..] == y;
    Regroup(x, [l], block + y);
  }

  lemma InsertAtFirst(lines: seq<string>, p: string -> bool, block: seq<string>)
    requires Has(lines, p)
    ensures var i := First(lines, p); InsertAfter(lines, p, block) == lines[..i + 1] + (block + lines[i + 1..])
  {
    var i := First(lines, p);
    LineAt(lines, i);
    InsertBehind(lines[..i], lines[i], lines[i + 1..], p, block);
  }

  function NewHandler(k: Kit, l: string): seq<string>
    requires k.press(l).Some?
  {
    PressNew(k, k.press(l).value.0, k.press(l).value.1)
  }

  lemma {:induction false} ReplaceBehind(k: Kit, x: seq<string>, y: seq<string>)
    requires !Has(x, HasHandler(k))
    ensures ReplacePress(k, x + y) == x + ReplacePress(k, y)
    decreases |x|
  {
    if x == [] {
      assert x + y == y && x + ReplacePress(k, y) == ReplacePress(k, y);
    } else {
      HasFirst(x, HasHandler(k));
      assert (x + y)[0] == x[0] && (x + y)[1..] == x[1..] + y;
      ReplaceBehind(k, x[1..], y);
      assert x == [x[0]] + x[1..];
      Regroup([x[0]], x[1..], ReplacePress(k, y));
    }
  }

  lemma ReplaceAtFirst(k: Kit, lines: seq<string>)
    requires Has(lines, HasHandler(k))
    ensures var i := First(lines, HasHandler(k));
      ReplacePress(k, lines) == lines[..i] + (NewHandler(k, lines[i]) + lines[i + 1..])
  {
    var i := First(lines, HasHandler(k));
    LineAt(lines, i);
    ReplaceBehind(k, lines[..i], [lines[i]] + lines[i + 1..]);
    assert ([lines[i]] + lines[i + 1..])[1..] == lines[i + 1..];
  }

  lemma {:induction false} NoHandlerNoChange(k: Kit, lines: seq<string>)
    requires !Has(lines, HasHandler(k))
    ensures ReplacePress(k, lines) == lines
    decreases |lines|
  {
    if lines != [] {
      HasFirst(lines, HasHandler(k));
      NoHandlerNoChange(k, lines[1..]);
    }
  }

  // ----------------------------------------------------------------------- the kit

  predicate Quiet(k: Kit, l: string) {
    !k.props(l) && !k.hover(l) && !k.ypos(l) && !k.lost(l) && !k.sentinel(l) && k.press(l).None?
  }

  predicate QuietBlock(k: Kit, b: seq<string>) { IsBlock(b) && forall l :: l in b ==> Quiet(k, l) }

  /** The texts the patches insert are marked blocks that contain no place the patches look
      for; of them only the fullscreen blocks have a fullscreen handler. */
  predicate KitOk(k: Kit) {
    && QuietBlock(k, k.propsBlock) && FateOf(k.classes, k.propsBlock) == Remove
    && QuietBlock(k, k.sensorBlock) && FateOf(k.classes, k.sensorBlock) == Remove
    && QuietBlock(k, k.lostBlock) && FateOf(k.classes, k.lostBlock) == Remove
    && QuietBlock(k, k.fullscreenBlock) && FateOf(k.classes, k.fullscreenBlock) == Replace
    && QuietBlock(k, k.classes.replacement) && FateOf(k.classes, k.classes.replacement) == Replace
    && Quiet(k, "") && !k.classes.refreshes("") && !IsBegin("")
  }

  // -------------------------------------------------------------------- insertions

  predicate Misses(lines: seq<string>, anchor: string -> bool) { forall l :: l in lines ==> !anchor(l) }

  lemma {:induction false} InsertSkips(x: seq<string>, y: seq<string>, anchor: string -> bool, b: seq<string>)
    requires Misses(x, anchor)
    ensures InsertAfter(x + y, anchor, b) == x + InsertAfter(y, anchor, b)
    decreases |x|
  {
    if x == [] {
      assert x + y == y && [] + InsertAfter(y, anchor, b) == InsertAfter(y, anchor, b);
    } else {
      assert x[0] in x && forall l :: l in x[1..] ==> l in x;
      InsertSkips(x[1..], y, anchor, b);
      assert (x + y)[1..] == x[1..] + y;
      assert [x[0]] + (x[1..] + InsertAfter(y, anchor, b)) == x + InsertAfter(y, anchor, b);
    }
  }

  lemma {:induction false} InsertMisses(x: seq<string>, anchor: string -> bool, b: seq<string>)
    requires Misses(x, anchor)
    ensures InsertAfter(x, anchor, b) == x
  {
    InsertSkips(x, [], anchor, b);
    assert x + [] == x;
  }

  lemma {:induction false} InsertNothing(x: seq<string>, anchor: string -> bool)
    ensures InsertAfter(x, anchor, []) == x
    decreases |x|
  {
    if x != [] {
      InsertNothing(x[1..], anchor);
      assert [] + x[1..] == x[1..];
    }
  }

  function If(b: bool, block: seq<string>): seq<string> { if b then block else [] }

  /** One line further: `above` lies between the line and the rest. */
  lemma InsertHead(l: string, above: seq<string>, rest: seq<string>, anchor: string -> bool, b: seq<string>)
    requires Misses(above, anchor)
    ensures InsertAfter([l] + (above + rest), anchor, b)
         == [l] + (If(anchor(l), b) + (above + InsertAfter(rest, anchor, If(!anchor(l), b))))
  {
    var all := [l] + (above + rest);
    assert all[1..] == above + rest;
    if anchor(l) {
      InsertNothing(rest, anchor);
    } else {
      InsertSkips(above, rest, anchor, b);
      assert [] + (above + InsertAfter(rest, anchor, b)) == above + InsertAfter(rest, anchor, b);
    }
  }

  predicate Fits(k: Kit, b: seq<string>) { b == [] || QuietBlock(k, b) }

  lemma FitsMisses(k: Kit, b: seq<string>, c: seq<string>)
    requires Fits(k, b) && Misses(c, k.props) && Misses(c, k.hover) && Misses(c, k.ypos) && Misses(c, k.lost)
    ensures Misses(b + c, k.props) && Misses(b + c, k.hover) && Misses(b + c, k.ypos) && Misses(b + c, k.lost)
  {
  }

  lemma Regroup(a: seq<string>, b: seq<string>, c: seq<string>)
    ensures (a + b) + c == a + (b + c)
  {
  }

  /** What goes between a line and the rest. */
  function Stack(k: Kit, l: string, p: seq<string>, f: seq<string>, s: seq<string>, c: seq<string>): seq<string> {
    If(k.lost(l), c) + (If(k.ypos(l), s) + (If(k.hover(l), f) + If(k.props(l), p)))
  }

  lemma InsertedHead(k: Kit, l: string, r: seq<string>, p: seq<string>, f: seq<string>, s: seq<string>, c: seq<string>)
    requires Fits(k, p) && Fits(k, f) && Fits(k, s) && Fits(k, c)
    ensures Inserted(k, [l] + r, p, f, s, c)
         == [l] + (Stack(k, l, p, f, s, c)
                   + Inserted(k, r, If(!k.props(l), p), If(!k.hover(l), f), If(!k.ypos(l), s), If(!k.lost(l), c)))
  {
    var r1 := InsertAfter(r, k.props, If(!k.props(l), p));
    var r2 := InsertAfter(r1, k.hover, If(!k.hover(l), f));
    var r3 := InsertAfter(r2, k.ypos, If(!k.ypos(l), s));
    var r4 := InsertAfter(r3, k.lost, If(!k.lost(l), c));
    var p', f', s', c' := If(k.props(l), p), If(k.hover(l), f), If(k.ypos(l), s), If(k.lost(l), c);
    assert [] + r == r && [] + r1 == r1;
    InsertHead(l, [], r, k.props, p);
    FitsMisses(k, p', []);
    assert p' + [] == p';
    InsertHead(l, p', r1, k.hover, f);
    FitsMisses(k, f', p');
    Regroup(f', p', r2);
    InsertHead(l, f' + p', r2, k.ypos, s);
    FitsMisses(k, s', f' + p');
    Regroup(s', f' + p', r3);
    InsertHead(l, s' + (f' + p'), r3, k.lost, c);
    Regroup(c', s' + (f' + p'), r4);
  }

  // --------------------------------------------------- the old blocks are taken out

  /** The part of a stack that survives the pass: a fullscreen block becomes the new one. */
  function Renewed(k: Kit, l: string, f: seq<string>): seq<string> { If(k.hover(l) && f != [], k.classes.replacement) }

  /** A block that the pass removes, or nothing. */
  predicate Goes(k: Kit, b: seq<string>) { b == [] || (QuietBlock(k, b) && FateOf(k.classes, b) == Remove) }

  /** A block that the pass renews, or nothing. */
  predicate Renews(k: Kit, b: seq<string>) { b == [] || (QuietBlock(k, b) && FateOf(k.classes, b) == Replace) }

  lemma StripGone(k: Kit, b: seq<string>, y: seq<string>)
    requires Goes(k, b) && y != []
    ensures Strip(k.classes, b + y) == Strip(k.classes, y)
  {
    if b == [] {
      assert b + y == y;
    } else {
      StripOneBlock(k.classes, b, y);
    }
  }

  lemma StripRenewed(k: Kit, b: seq<string>, y: seq<string>)
    requires Renews(k, b) && y != []
    ensures Strip(k.classes, b + y) == If(b != [], k.classes.replacement) + Strip(k.classes, y)
  {
    if b == [] {
      assert b + y == y;
    } else {
      StripOneBlock(k.classes, b, y);
    }
  }

  /** The four kinds of old blocks, each there or not. */
  predicate OldBlocks(k: Kit, p: seq<string>, f: seq<string>, s: seq<string>, c: seq<string>) {
    Goes(k, p) && Renews(k, f) && Goes(k, s) && Goes(k, c)
  }

  lemma StripStack(k: Kit, l: string, p: seq<string>, f: seq<string>, s: seq<string>, c: seq<string>, y: seq<string>)
    requires OldBlocks(k, p, f, s, c) && y != []
    ensures Strip(k.classes, Stack(k, l, p, f, s, c) + y) == Renewed(k, l, f) + Strip(k.classes, y)
  {
    var p', f', s', c' := If(k.props(l), p), If(k.hover(l), f), If(k.ypos(l), s), If(k.lost(l), c);
    Regroup(c', s' + (f' + p'), y);
    Regroup(s', f' + p', y);
    Regroup(f', p', y);
    StripGone(k, p', y);
    StripRenewed(k, f', p' + y);
    StripGone(k, s', f' + (p' + y));
    StripGone(k, c', s' + (f' + (p' + y)));
  }

  lemma StripGoneAtEnd(k: Kit, b: seq<string>)
    requires Goes(k, b)
    ensures Strip(k.classes, b) == If(b != [], [""])
  {
    if b != [] {
      StripLastBlock(k.classes, b);
    }
  }

  lemma StripRenewedAtEnd(k: Kit, f: seq<string>, p: seq<string>)
    requires Renews(k, f) && Goes(k, p)
    ensures Strip(k.classes, f + p) == If(f != [], k.classes.replacement) + If(f + p != [], [""])
  {
    if p != [] {
      StripRenewed(k, f, p);
      StripGoneAtEnd(k, p);
    } else if f != [] {
      assert f + p == f;
      StripLastBlock(k.classes, f);
    }
  }

  /** Removed blocks in front of the end of the text change nothing there but the newline. */
  lemma GoneAtEnd(k: Kit, b: seq<string>, y: seq<string>, r: seq<string>)
    requires Goes(k, b) && Strip(k.classes, y) == r + If(y != [], [""]) && (y == [] ==> r == [])
    ensures Strip(k.classes, b + y) == r + If(b + y != [], [""]) && (b + y == [] ==> r == [])
  {
    if y != [] {
      StripGone(k, b, y);
    } else {
      assert b + y == b;
      StripGoneAtEnd(k, b);
      assert r + If(b != [], [""]) == If(b != [], [""]);
    }
  }

  lemma StripStackAtEnd(k: Kit, l: string, p: seq<string>, f: seq<string>, s: seq<string>, c: seq<string>)
    requires OldBlocks(k, p, f, s, c)
    ensures Strip(k.classes, Stack(k, l, p, f, s, c))
         == Renewed(k, l, f) + If(Stack(k, l, p, f, s, c) != [], [""])
  {
    var p', f', s', c' := If(k.props(l), p), If(k.hover(l), f), If(k.ypos(l), s), If(k.lost(l), c);
    StripRenewedAtEnd(k, f', p');
    GoneAtEnd(k, s', f' + p', Renewed(k, l, f));
    GoneAtEnd(k, c', s' + (f' + p'), Renewed(k, l, f));
  }

  /** Some insertion falls on the last line of the text, which no newline ends. */
  predicate HitsLastLine(k: Kit, t: seq<string>, p: seq<string>, f: seq<string>, s: seq<string>, c: seq<string>) {
    t != [] &&
    if |t| == 1 then Stack(k, t[0], p, f, s, c) != []
    else
      var l := t[0];
      HitsLastLine(k, t[1..], If(!k.props(l), p), If(!k.hover(l), f), If(!k.ypos(l), s), If(!k.lost(l), c))
  }

  lemma {:induction false} InsertedNonempty(k: Kit, t: seq<string>, p: seq<string>, f: seq<string>, s: seq<string>, c: seq<string>)
    requires t != []
    ensures Inserted(k, t, p, f, s, c) != []
  {
  }

  lemma InsertFullscreenHead(k: Kit, l: string, r: seq<string>, f: seq<string>)
    ensures InsertAfter([l] + r, k.hover, If(f != [], k.classes.replacement))
         == [l] + (Renewed(k, l, f) + InsertAfter(r, k.hover, If(!k.hover(l) && f != [], k.classes.replacement)))
  {
    assert ([l] + r)[1..] == r;
    if k.hover(l) {
      InsertNothing(r, k.hover);
    }
    assert [] + InsertAfter(r, k.hover, If(f != [], k.classes.replacement)) == InsertAfter(r, k.hover, If(f != [], k.classes.replacement));
    assert [] + r == r;
  }

  predicate BlocksFit(k: Kit, p: seq<string>, f: seq<string>, s: seq<string>, c: seq<string>) {
    OldBlocks(k, p, f, s, c) && Fits(k, p) && Fits(k, f) && Fits(k, s) && Fits(k, c)
  }

  /** What the pass leaves of a clean text with the old patch. */
  function Cleaned(k: Kit, t: seq<string>, p: seq<string>, f: seq<string>, s: seq<string>, c: seq<string>): seq<string> {
    InsertAfter(t, k.hover, If(f != [], k.classes.replacement)) + If(HitsLastLine(k, t, p, f, s, c), [""])
  }

  /** One line of it; `done` is what the pass leaves of the rest. */
  lemma StripLine(k: Kit, l: string, r: seq<string>, p: seq<string>, f: seq<string>, s: seq<string>, c: seq<string>, done: seq<string>)
    requires !IsBegin(l) && BlocksFit(k, p, f, s, c) && r != []
    requires done == Strip(k.classes,
      Inserted(k, r, If(!k.props(l), p), If(!k.hover(l), f), If(!k.ypos(l), s), If(!k.lost(l), c)))
    ensures Strip(k.classes, Inserted(k, [l] + r, p, f, s, c)) == [l] + (Renewed(k, l, f) + done)
  {
    InsertedHead(k, l, r, p, f, s, c);
    var rest := Inserted(k, r, If(!k.props(l), p), If(!k.hover(l), f), If(!k.ypos(l), s), If(!k.lost(l), c));
    InsertedNonempty(k, r, If(!k.props(l), p), If(!k.hover(l), f), If(!k.ypos(l), s), If(!k.lost(l), c));
    StripNothing(k.classes, [l], Stack(k, l, p, f, s, c) + rest);
    StripStack(k, l, p, f, s, c, rest);
  }

  lemma CleanedLine(k: Kit, l: string, r: seq<string>, p: seq<string>, f: seq<string>, s: seq<string>, c: seq<string>)
    requires r != []
    ensures Cleaned(k, [l] + r, p, f, s, c)
         == [l] + (Renewed(k, l, f) + Cleaned(k, r, If(!k.props(l), p), If(!k.hover(l), f), If(!k.ypos(l), s), If(!k.lost(l), c)))
  {
    assert ([l] + r)[1..] == r;
    InsertFullscreenHead(k, l, r, f);
    Shuffle([l], Renewed(k, l, f), InsertAfter(r, k.hover, If(!k.hover(l) && f != [], k.classes.replacement)),
            If(HitsLastLine(k, [l] + r, p, f, s, c), [""]));
  }

  lemma StripOnlyLine(k: Kit, l: string, p: seq<string>, f: seq<string>, s: seq<string>, c: seq<string>)
    requires !IsBegin(l) && BlocksFit(k, p, f, s, c)
    ensures Strip(k.classes, Inserted(k, [l], p, f, s, c)) == Cleaned(k, [l], p, f, s, c)
  {
    assert [l] + [] == [l];
    InsertedHead(k, l, [], p, f, s, c);
    InsertFullscreenHead(k, l, [], f);
    StripNothing(k.classes, [l], Stack(k, l, p, f, s, c) + []);
    StripLastLine(k, l, p, f, s, c);
  }

  /** The pass takes the old patch out of a clean text again and leaves the new fullscreen block
      in its place; if a block was put behind an unterminated last line, an empty line stays. */
  lemma {:induction false} StripInserted(k: Kit, t: seq<string>, p: seq<string>, f: seq<string>, s: seq<string>, c: seq<string>)
    requires NoBegin(t) && BlocksFit(k, p, f, s, c)
    ensures Strip(k.classes, Inserted(k, t, p, f, s, c)) == Cleaned(k, t, p, f, s, c)
    decreases |t|
  {
    if t != [] {
      var l, r := t[0], t[1..];
      assert t == [l] + r && l in t && forall m :: m in r ==> m in t;
      if r == [] {
        StripOnlyLine(k, l, p, f, s, c);
      } else {
        var p1, f1, s1, c1 := If(!k.props(l), p), If(!k.hover(l), f), If(!k.ypos(l), s), If(!k.lost(l), c);
        StripInserted(k, r, p1, f1, s1, c1);
        StripLine(k, l, r, p, f, s, c, Cleaned(k, r, p1, f1, s1, c1));
        CleanedLine(k, l, r, p, f, s, c);
      }
    }
  }

  lemma Shuffle(a: seq<string>, b: seq<string>, c: seq<string>, d: seq<string>)
    ensures a + (b + (c + d)) == (a + (b + c)) + d
  {
  }

  lemma StripLastLine(k: Kit, l: string, p: seq<string>, f: seq<string>, s: seq<string>, c: seq<string>)
    requires OldBlocks(k, p, f, s, c)
    ensures [l] + Strip(k.classes, Stack(k, l, p, f, s, c) + [])
         == [l] + (Renewed(k, l, f) + []) + If(Stack(k, l, p, f, s, c) != [], [""])
  {
    var stack := Stack(k, l, p, f, s, c);
    assert stack + [] == stack && Renewed(k, l, f) + [] == Renewed(k, l, f);
    StripStackAtEnd(k, l, p, f, s, c);
    Regroup([l], Renewed(k, l, f), If(stack != [], [""]));
  }

  // ----------------------------------------------------------- old, then new, against new

  lemma {:induction false} InsertHas(t: seq<string>, anchor: string -> bool, b: seq<string>, needle: string -> bool)
    ensures Has(InsertAfter(t, anchor, b), needle) <==> Has(t, needle) || (Has(t, anchor) && Has(b, needle))
    decreases |t|
  {
    if t != [] {
      var l, r := t[0], t[1..];
      assert t == [l] + r;
      HasSum([l], r, needle);
      HasSum([l], r, anchor);
      HasOne(l, anchor);
      if anchor(l) {
        HasSum([l], b + r, needle);
        HasSum(b, r, needle);
      } else {
        InsertHas(r, anchor, b, needle);
        HasSum([l], InsertAfter(r, anchor, b), needle);
      }
    }
  }

  lemma {:induction false} InsertLength(t: seq<string>, anchor: string -> bool, b: seq<string>)
    ensures |InsertAfter(t, anchor, b)| == |t| + if Has(t, anchor) then |b| else 0
    decreases |t|
  {
    if t != [] {
      assert t == [t[0]] + t[1..];
      HasSum([t[0]], t[1..], anchor);
      HasOne(t[0], anchor);
      if !anchor(t[0]) {
        InsertLength(t[1..], anchor, b);
      }
    }
  }

  function HasHandler(k: Kit): string -> bool { l => k.press(l).Some? }

  lemma {:induction false} ReplaceLength(k: Kit, lines: seq<string>)
    ensures |ReplacePress(k, lines)| == |lines| + if Has(lines, HasHandler(k)) then |k.pressInner| + 1 else 0
    decreases |lines|
  {
    if lines != [] {
      HasSum([lines[0]], lines[1..], HasHandler(k));
      HasOne(lines[0], HasHandler(k));
      assert lines == [lines[0]] + lines[1..];
      if k.press(lines[0]).None? {
        ReplaceLength(k, lines[1..]);
      }
    }
  }

  /** Two texts with the same sentinels and handlers stay as far apart in length. */
  lemma PressKeepsDifference(k: Kit, a: seq<string>, b: seq<string>)
    requires (Has(a, k.sentinel) <==> Has(b, k.sentinel)) && (Has(a, HasHandler(k)) <==> Has(b, HasHandler(k)))
    ensures |PressStep(k, a)| - |a| == |PressStep(k, b)| - |b|
  {
    ReplaceLength(k, a);
    ReplaceLength(k, b);
  }

  lemma QuietHasNone(k: Kit, b: seq<string>)
    requires forall l :: l in b ==> Quiet(k, l)
    ensures !Has(b, k.sentinel) && !Has(b, HasHandler(k)) && Misses(b, k.hover)
  {
  }

  /** The new patch's insertion and the empty line do not touch what the press step looks for. */
  lemma SameForPress(k: Kit, t: seq<string>, e: seq<string>)
    requires KitOk(k) && (e == [] || e == [""])
    ensures var x := InsertAfter(t, k.hover, k.classes.replacement) + e;
      && (Has(x, k.sentinel) <==> Has(t, k.sentinel)) && (Has(x, HasHandler(k)) <==> Has(t, HasHandler(k)))
  {
    var x := InsertAfter(t, k.hover, k.classes.replacement);
    QuietHasNone(k, k.classes.replacement);
    QuietHasNone(k, e);
    InsertHas(t, k.hover, k.classes.replacement, k.sentinel);
    InsertHas(t, k.hover, k.classes.replacement, HasHandler(k));
    HasSum(x, e, k.sentinel);
    HasSum(x, e, HasHandler(k));
  }

  lemma ReplacementRefreshes(k: Kit)
    requires KitOk(k)
    ensures Has(k.classes.replacement, k.classes.refreshes)
  {
    var b := k.classes.replacement;
    var l :| l in Inner(b) && k.classes.refreshes(l);
    assert l in b;
  }

  lemma HoverOfCleaned(k: Kit, t: seq<string>, e: seq<string>)
    requires KitOk(k) && (e == [] || e == [""])
    ensures FullscreenStep(k, InsertAfter(t, k.hover, k.classes.replacement) + e)
         == InsertAfter(t, k.hover, k.classes.replacement) + e
  {
    var b := k.classes.replacement;
    var x := InsertAfter(t, k.hover, b) + e;
    ReplacementRefreshes(k);
    InsertHas(t, k.hover, b, k.classes.refreshes);
    HasSum(InsertAfter(t, k.hover, b), e, k.classes.refreshes);
    if !Has(x, k.classes.refreshes) {
      QuietHasNone(k, e);
      InsertMisses(t, k.hover, b);
      InsertMisses(t + e, k.hover, b);
    }
  }

  /** When the upgrade is exact, for a text without opening markers: the old patch found itself
      already there, or the core has no fullscreen handler of its own beside the place of the
      new one, and no block was put behind an unterminated last line. */
  predicate UpgradesExactly(k: Kit, t: seq<string>) {
    || Has(t, k.edge)
    || (!(Has(t, k.hover) && Has(t, k.classes.refreshes))
        && !HitsLastLine(k, t, k.propsBlock, k.fullscreenBlock, k.sensorBlock, k.lostBlock))
  }

  lemma NewOnClean(k: Kit, t: seq<string>)
    requires KitOk(k) && NoBegin(t)
    ensures NewPatch(k, t) == PressStep(k, FullscreenStep(k, t))
  {
    StripClean(k.classes, t);
  }

  lemma NewOnOld(k: Kit, t: seq<string>)
    requires KitOk(k) && NoBegin(t) && !Has(t, k.edge)
    ensures NewPatch(k, OldPatch(k, t))
         == PressStep(k, Cleaned(k, t, k.propsBlock, k.fullscreenBlock, k.sensorBlock, k.lostBlock))
  {
    StripInserted(k, t, k.propsBlock, k.fullscreenBlock, k.sensorBlock, k.lostBlock);
    HoverOfCleaned(k, t, If(HitsLastLine(k, t, k.propsBlock, k.fullscreenBlock, k.sensorBlock, k.lostBlock), [""]));
  }

  /** The step of the new patch on the clean text, against the cleaned upgrade. */
  lemma CleanedDiffers(k: Kit, t: seq<string>, e: seq<string>)
    requires KitOk(k) && (e == [] || e == [""])
    ensures var x, y := InsertAfter(t, k.hover, k.classes.replacement) + e, FullscreenStep(k, t);
      && (x == y <==> e == [] && !(Has(t, k.hover) && Has(t, k.classes.refreshes)))
      && (x != y ==> |x| != |y|)
  {
    var b := k.classes.replacement;
    InsertLength(t, k.hover, b);
    assert InsertAfter(t, k.hover, b) + [] == InsertAfter(t, k.hover, b);
    if !Has(t, k.hover) {
      InsertMisses(t, k.hover, b);
    }
  }

  /** Upgrading equals a fresh install, exactly under that condition. */
  lemma UpgradeIsFreshIff(k: Kit, t: seq<string>)
    requires KitOk(k) && NoBegin(t)
    ensures NewPatch(k, OldPatch(k, t)) == NewPatch(k, t) <==> UpgradesExactly(k, t)
  {
    if !Has(t, k.edge) {
      var e := If(HitsLastLine(k, t, k.propsBlock, k.fullscreenBlock, k.sensorBlock, k.lostBlock), [""]);
      var x, y := InsertAfter(t, k.hover, k.classes.replacement) + e, FullscreenStep(k, t);
      NewOnOld(k, t);
      NewOnClean(k, t);
      CleanedDiffers(k, t, e);
      SameForPress(k, t, e);
      SameForPress(k, t, []);
      assert InsertAfter(t, k.hover, k.classes.replacement) + [] == InsertAfter(t, k.hover, k.classes.replacement);
      PressKeepsDifference(k, x, y);
    }
  }

  /** A core with its own fullscreen handler: the old patch adds one, the new one does not. */
  lemma OwnHandlerDiffers(k: Kit, t: seq<string>)
    requires KitOk(k) && NoBegin(t) && !Has(t, k.edge) && Has(t, k.hover) && Has(t, k.classes.refreshes)
    ensures NewPatch(k, OldPatch(k, t)) != NewPatch(k, t)
  {
    UpgradeIsFreshIff(k, t);
  }

  /** A block behind an unterminated last line: the newline that the old patch brought stays. */
  lemma LastLineDiffers(k: Kit, t: seq<string>)
    requires KitOk(k) && NoBegin(t) && !Has(t, k.edge)
    requires HitsLastLine(k, t, k.propsBlock, k.fullscreenBlock, k.sensorBlock, k.lostBlock)
    ensures NewPatch(k, OldPatch(k, t)) != NewPatch(k, t)
  {
    UpgradeIsFreshIff(k, t);
  }
}
