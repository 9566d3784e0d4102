/**
 Texts that the pass over the marked blocks leaves as they are.

 A match is what the block pattern matches: an opening marker and everything up to the next
 closing one. `Open` is the part of a text whose opening marker no closing marker follows; in
 front of it everything is closed, and what follows closed lines is read as if it stood alone.
 A text is stable when every match in it is kept, or is the new block in front of more text.
 */
module StableBlocks {
  import opened Markers
  import opened InteractionsPatch

  // --------------------------------------------------------------- lines with markers

  /** A line that holds a marker and blanks. */
  predicate MarkerAlone(l: string) { IsBegin(l) || (IsEnd(l) && EndRest(l) == "") }

  /** Every marker stands alone on its line. */
  predicate Alone(lines: seq<string>) { forall l :: l in lines && IsEnd(l) ==> EndRest(l) == "" }

  predicate NoEnd(lines: seq<string>) { forall l :: l in lines ==> !IsEnd(l) }

  lemma BeginIsNoEnd(l: string)
    requires IsBegin(l)
    ensures !IsEnd(l)
  {
    assert Untabbed(l)[3] == MARK_BEGIN[3] == '>';
    assert MARK_END[3] == '<';
  }

  // ------------------------------------------------------------------ matched parts

  /** A match from the first line to the last. */
  predicate Match(b: seq<string>) { BlockStarts(b) && BlockSize(b) == |b| }

  lemma MatchAt(b: seq<string>, y: seq<string>)
    requires b != [] && IsBegin(b[0]) && IsEnd(b[|b| - 1]) && forall i :: 0 < i < |b| - 1 ==> !IsEnd(b[i])
    ensures BlockStarts(b + y) && BlockSize(b + y) == |b| && (b + y)[..|b|] == b && (b + y)[|b|..] == y
  {
    BeginIsNoEnd(b[0]);
    var s := (b + y)[1..];
    forall i | 0 <= i < |b| - 2 ensures !IsEnd(s[i]) {
      assert s[i] == b[i + 1];
    }
    assert s[|b| - 2] == b[|b| - 1];
    FirstEndAt(s, |b| - 2);
  }

  /** What is matched depends on the lines up to the closing marker alone. */
  lemma MatchCut(x: seq<string>, y: seq<string>)
    requires BlockStarts(x)
    ensures var n := BlockSize(x);
      Match(x[..n]) && BlockStarts(x + y) && BlockSize(x + y) == n && (x + y)[..n] == x[..n] && (x + y)[n..] == x[n..] + y
  {
    var n := BlockSize(x);
    forall i | 0 < i < n - 1 ensures !IsEnd(x[i]) {
      assert x[1..][i - 1] == x[i];
    }
    MatchAt(x[..n], []);
    assert x[..n] + [] == x[..n];
    MatchAt(x[..n], x[n..] + y);
    assert x[..n] + (x[n..] + y) == x + y;
  }

  lemma MatchThen(b: seq<string>, y: seq<string>)
    requires Match(b)
    ensures BlockStarts(b + y) && BlockSize(b + y) == |b| && (b + y)[..|b|] == b && (b + y)[|b|..] == y
  {
    MatchCut(b, y);
  }

  /** Lines that a closing marker ends, behind an opening marker that nothing else closes. */
  lemma MatchGrows(o: seq<string>, z: seq<string>)
    requires o != [] && IsBegin(o[0]) && NoEnd(o) && z != []
    requires IsEnd(z[|z| - 1]) && forall i :: 0 <= i < |z| - 1 ==> !IsEnd(z[i])
    ensures Match(o + z)
  {
    var b := o + z;
    forall i | 0 < i < |b| - 1 ensures !IsEnd(b[i]) {
      if i < |o| {
        assert b[i] == o[i];
      } else {
        assert b[i] == z[i - |o|];
      }
    }
    MatchAt(b, []);
    assert b + [] == b;
  }

  lemma BlockIsMatch(b: seq<string>)
    requires IsBlock(b)
    ensures Match(b) && forall i :: 0 <= i < |b| - 1 ==> !IsEnd(b[i])
  {
    BlockMatches(b, []);
    assert b + [] == b;
    BeginIsNoEnd(b[0]);
    forall i | 0 <= i < |b| - 1 ensures !IsEnd(b[i]) {
      if i > 0 {
        assert Inner(b)[i - 1] == b[i];
      }
    }
  }

  lemma MatchIsBlock(b: seq<string>)
    requires Match(b) && Alone(b)
    ensures IsBlock(b)
  {
    forall i | 0 <= i < |b| - 2 ensures !IsEnd(Inner(b)[i]) {
      assert b[1..][i] == Inner(b)[i];
    }
  }

  /** The lines from the first opening marker on that no closing marker follows. */
  function Open(lines: seq<string>): (o: seq<string>)
    decreases |lines|
  {
    if lines == [] then []
    else if BlockStarts(lines) then Open(lines[BlockSize(lines)..])
    else if IsBegin(lines[0]) then lines
    else Open(lines[1..])
  }

  lemma NoMatchNoEnd(lines: seq<string>)
    requires lines != [] && IsBegin(lines[0]) && !BlockStarts(lines)
    ensures NoEnd(lines)
  {
    BeginIsNoEnd(lines[0]);
    forall i | 0 <= i < |lines| ensures !IsEnd(lines[i]) {
      if i > 0 {
        assert lines[1..][i - 1] == lines[i];
      }
    }
  }

  lemma OpenBehind(x: seq<string>, rest: seq<string>) returns (closed: seq<string>)
    requires BlockStarts(x) && x[BlockSize(x)..] == rest + Open(x) && Open(rest) == []
    ensures x == closed + Open(x) && Open(closed) == []
  {
    var b := x[..BlockSize(x)];
    MatchCut(x, []);
    MatchThen(b, rest);
    Regroup(b, rest, Open(x));
    assert x == b + (rest + Open(x));
    closed := b + rest;
  }

  lemma OpenBelow(x: seq<string>, rest: seq<string>) returns (closed: seq<string>)
    requires x != [] && !IsBegin(x[0]) && x[1..] == rest + Open(x[1..]) && Open(rest) == []
    ensures x == closed + Open(x) && Open(closed) == []
  {
    closed := [x[0]] + rest;
    assert closed[1..] == rest && x == [x[0]] + x[1..];
    Regroup([x[0]], rest, Open(x[1..]));
  }

  lemma {:induction false} OpenSplits(x: seq<string>) returns (closed: seq<string>)
    ensures x == closed + Open(x) && Open(closed) == []
    ensures Open(x) != [] ==> IsBegin(Open(x)[0]) && NoEnd(Open(x))
    decreases |x|
  {
    if x == [] {
      closed := [];
    } else if BlockStarts(x) {
      closed := OpenSplits(x[BlockSize(x)..]);
      closed := OpenBehind(x, closed);
    } else if IsBegin(x[0]) {
      NoMatchNoEnd(x);
      closed := [];
      assert closed + x == x;
    } else {
      closed := OpenSplits(x[1..]);
      closed := OpenBelow(x, closed);
    }
  }

  lemma StartsHasEnd(o: seq<string>)
    requires BlockStarts(o)
    ensures !NoEnd(o)
  {
    var e := FirstEnd(o[1..]);
    assert o[1..][e] == o[e + 1];
    assert o[e + 1] in o;
  }

  // ------------------------------------------------------------------- stable texts

  predicate Stays(k: Kit, b: seq<string>)
    requires |b| >= 2
  {
    FateOf(k.classes, b) == Keep || b == k.classes.replacement
  }

  /** Every match is kept or is the new fullscreen block. */
  predicate Settled(k: Kit, lines: seq<string>)
    decreases |lines|
  {
    lines == [] ||
    if BlockStarts(lines) then Stays(k, lines[..BlockSize(lines)]) && Settled(k, lines[BlockSize(lines)..])
    else Settled(k, lines[1..])
  }

  /** A match that is not kept ends the text. */
  predicate EndsInNew(k: Kit, lines: seq<string>)
    decreases |lines|
  {
    lines != [] &&
    if !BlockStarts(lines) then EndsInNew(k, lines[1..])
    else if BlockSize(lines) == |lines| then FateOf(k.classes, lines) != Keep
    else EndsInNew(k, lines[BlockSize(lines)..])
  }

  /** The pass leaves the text as it is. */
  predicate Stable(k: Kit, lines: seq<string>) { Settled(k, lines) && !EndsInNew(k, lines) }

  predicate NewBlockOk(k: Kit) {
    IsBlock(k.classes.replacement) && FateOf(k.classes, k.classes.replacement) == Replace
  }

  /** A match that stays, and what the pass leaves of it. */
  lemma PieceStays(k: Kit, lines: seq<string>)
    requires NewBlockOk(k) && BlockStarts(lines) && Stays(k, lines[..BlockSize(lines)])
    ensures var n := BlockSize(lines);
      PieceOf(k.classes, lines)
      == lines[..n] + If(n == |lines| && FateOf(k.classes, lines[..n]) != Keep, [""])
  {
    var n := BlockSize(lines);
    var b := lines[..n];
    assert lines[n - 1] == b[n - 1] && b + [] == b;
  }

  lemma JoinEnds(b: seq<string>, rest: seq<string>, e1: seq<string>, e2: seq<string>)
    requires (rest != [] ==> e1 == []) && (rest == [] ==> e2 == [])
    ensures (b + e1) + (rest + e2) == (b + rest) + if rest == [] then e1 else e2
  {
    Regroup(b, rest, e2);
    assert b + [] == b;
  }

  /** The end of a text that begins with a match. */
  lemma EndsBehind(k: Kit, lines: seq<string>)
    requires BlockStarts(lines)
    ensures var b, rest := lines[..BlockSize(lines)], lines[BlockSize(lines)..];
      && lines == b + rest && (rest == [] ==> !EndsInNew(k, rest))
      && (EndsInNew(k, lines) <==> if rest == [] then FateOf(k.classes, b) != Keep else EndsInNew(k, rest))
  {
    assert lines[..|lines|] == lines;
  }

  lemma StripSettledMatch(k: Kit, lines: seq<string>)
    requires NewBlockOk(k) && BlockStarts(lines) && Stays(k, lines[..BlockSize(lines)])
    requires var rest := lines[BlockSize(lines)..]; Strip(k.classes, rest) == rest + If(EndsInNew(k, rest), [""])
    ensures Strip(k.classes, lines) == lines + If(EndsInNew(k, lines), [""])
  {
    var n := BlockSize(lines);
    var b, rest := lines[..n], lines[n..];
    StripBlock(k.classes, lines);
    PieceStays(k, lines);
    EndsBehind(k, lines);
    JoinEnds(b, rest, If(n == |lines| && FateOf(k.classes, b) != Keep, [""]), If(EndsInNew(k, rest), [""]));
  }

  lemma {:induction false} StripSettled(k: Kit, lines: seq<string>)
    requires NewBlockOk(k) && Settled(k, lines)
    ensures Strip(k.classes, lines) == lines + If(EndsInNew(k, lines), [""])
    decreases |lines|
  {
    if lines != [] {
      if BlockStarts(lines) {
        StripSettled(k, lines[BlockSize(lines)..]);
        StripSettledMatch(k, lines);
      } else {
        StripSettled(k, lines[1..]);
        assert lines == [lines[0]] + lines[1..];
        Regroup([lines[0]], lines[1..], If(EndsInNew(k, lines), [""]));
      }
    }
  }

  lemma SettledMatch(k: Kit, b: seq<string>, y: seq<string>)
    requires Match(b)
    ensures Settled(k, b + y) <==> Stays(k, b) && Settled(k, y)
    ensures EndsInNew(k, b + y) <==> if y == [] then FateOf(k.classes, b) != Keep else EndsInNew(k, y)
  {
    MatchThen(b, y);
    if y == [] {
      assert b + y == b;
    }
  }

  lemma SettledLine(k: Kit, l: string, y: seq<string>)
    requires !IsBegin(l)
    ensures Settled(k, [l] + y) <==> Settled(k, y)
    ensures EndsInNew(k, [l] + y) <==> EndsInNew(k, y)
    ensures Open([l] + y) == Open(y)
  {
    assert ([l] + y)[1..] == y;
  }

  /** Behind closed blocks a text is read as if it stood alone. */
  lemma {:induction false} ClosedThen(k: Kit, x: seq<string>, y: seq<string>)
    requires Open(x) == []
    ensures Settled(k, x + y) <==> Settled(k, x) && Settled(k, y)
    ensures y != [] ==> (EndsInNew(k, x + y) <==> EndsInNew(k, y))
    ensures Open(x + y) == Open(y)
    decreases |x|
  {
    if x == [] {
      assert x + y == y;
    } else if BlockStarts(x) {
      var n := BlockSize(x);
      MatchCut(x, y);
      ClosedThen(k, x[n..], y);
    } else {
      assert (x + y)[0] == x[0] && (x + y)[1..] == x[1..] + y;
      ClosedThen(k, x[1..], y);
    }
  }

  lemma {:induction false} NoEndIsStable(k: Kit, x: seq<string>)
    requires NoEnd(x)
    ensures Stable(k, x)
    decreases |x|
  {
    if x != [] {
      if BlockStarts(x) {
        StartsHasEnd(x);
      }
      assert forall l :: l in x[1..] ==> l in x;
      NoEndIsStable(k, x[1..]);
    }
  }

  lemma PrefixSettled(k: Kit, x: seq<string>, y: seq<string>)
    requires Settled(k, x + y)
    ensures Settled(k, x)
  {
    var closed := OpenSplits(x);
    Regroup(closed, Open(x), y);
    ClosedThen(k, closed, Open(x) + y);
    NoEndIsStable(k, Open(x));
    ClosedThen(k, closed, Open(x));
  }

  // ----------------------------------------------------------- the pass gives stable

  lemma AloneParts(a: seq<string>, b: seq<string>)
    ensures Alone(a + b) <==> Alone(a) && Alone(b)
  {
    assert forall l :: l in a + b <==> l in a || l in b;
  }

  lemma BlockIsAlone(b: seq<string>)
    requires IsBlock(b)
    ensures Alone(b)
  {
    BlockIsMatch(b);
  }

  lemma {:induction false} StripIsStable(k: Kit, lines: seq<string>)
    requires KitOk(k) && Alone(lines)
    ensures Stable(k, Strip(k.classes, lines)) && Alone(Strip(k.classes, lines))
    decreases |lines|
  {
    if lines != [] {
      if BlockStarts(lines) {
        StripMatchIsStable(k, lines);
      } else if IsBegin(lines[0]) {
        NoMatchNoEnd(lines);
        NoEndIsStable(k, lines);
        StripSettled(k, lines);
        assert lines + If(false, [""]) == lines;
      } else {
        assert lines == [lines[0]] + lines[1..];
        AloneParts([lines[0]], lines[1..]);
        StripIsStable(k, lines[1..]);
        SettledLine(k, lines[0], Strip(k.classes, lines[1..]));
        AloneParts([lines[0]], Strip(k.classes, lines[1..]));
      }
    }
  }

  lemma {:induction false} StripMatchIsStable(k: Kit, lines: seq<string>)
    requires KitOk(k) && Alone(lines) && BlockStarts(lines)
    ensures Stable(k, Strip(k.classes, lines)) && Alone(Strip(k.classes, lines))
    decreases |lines|, 0
  {
    var n := BlockSize(lines);
    var b, rest, fs := lines[..n], lines[n..], k.classes.replacement;
    assert lines == b + rest;
    MatchCut(lines, []);
    AloneParts(b, rest);
    MatchIsBlock(b);
    BlockIsMatch(fs);
    BlockIsAlone(fs);
    var tail := if rest == [] then [""] else Strip(k.classes, rest);
    if rest == [] {
      assert b + [] == b;
      StripLastBlock(k.classes, b);
      SettledMatch(k, b, []);
      SettledLine(k, "", []);
      assert [""] + [] == [""];
      assert !IsEnd("");
    } else {
      StripIsStable(k, rest);
      StripIsNonempty(k.classes, rest);
      StripOneBlock(k.classes, b, rest);
      SettledMatch(k, b, tail);
    }
    SettledMatch(k, fs, tail);
    AloneParts(b, tail);
    AloneParts(fs, tail);
  }

  /** A text that the pass gives back is stable. */
  lemma StableIff(k: Kit, lines: seq<string>)
    requires KitOk(k) && Alone(lines)
    ensures Stable(k, lines) <==> Strip(k.classes, lines) == lines
  {
    StripIsStable(k, lines);
    if Stable(k, lines) {
      StripSettled(k, lines);
    }
  }
}
