/**
 What the block pattern of the WhatsApp patch matches, spelled out as the pattern is,
 and what the pass makes of any text that begins with a block of given lines.
 */
module MarkerLines {
  import opened Markers

  predicate AllTab(s: string) { forall i :: 0 <= i < |s| ==> s[i] == ' ' || s[i] == '\t' }

  /** Blanks, the opening marker, blanks. */
  predicate BeginAt(l: string, a: string, b: string) {
    AllTab(a) && AllTab(b) && l == a + ("// >>> caelestia-extras whatsapp" + b)
  }

  /** Blanks, the closing marker, blanks, and the rest of the line, which no blank starts. */
  predicate EndAt(l: string, a: string, b: string, rest: string) {
    && AllTab(a) && AllTab(b) && (rest != "" ==> rest[0] != ' ' && rest[0] != '\t')
    && l == a + ("// <<< caelestia-extras whatsapp" + (b + rest))
  }

  lemma {:induction false} UntabbedIs(l: string, a: string, s: string)
    requires AllTab(a) && l == a + s && (s != "" ==> s[0] != ' ' && s[0] != '\t')
    ensures Untabbed(l) == s
  {
    if a == "" {
      assert l == s;
    } else {
      assert l[0] == a[0] && l[1..] == a[1..] + s;
      UntabbedIs(l[1..], a[1..], s);
    }
  }

  lemma {:induction false} UntabbedParts(l: string) returns (a: string)
    ensures AllTab(a) && l == a + Untabbed(l)
    ensures Untabbed(l) != "" ==> Untabbed(l)[0] != ' ' && Untabbed(l)[0] != '\t'
  {
    if l != "" && IsTab(l[0]) {
      a := UntabbedParts(l[1..]);
      a := [l[0]] + a;
    } else {
      a := "";
    }
  }

  lemma BeginParts(l: string) returns (a: string, b: string)
    requires IsBegin(l)
    ensures BeginAt(l, a, b)
  {
    a := UntabbedParts(l);
    var u := Untabbed(l);
    var tail := u[|MARK_BEGIN|..];
    assert u == MARK_BEGIN + tail;
    b := UntabbedParts(tail);
    assert b + "" == b;
  }

  lemma BeginHolds(l: string, a: string, b: string)
    requires BeginAt(l, a, b)
    ensures IsBegin(l)
  {
    UntabbedIs(l, a, MARK_BEGIN + b);
    assert (MARK_BEGIN + b)[|MARK_BEGIN|..] == b && b + "" == b;
    UntabbedIs(b, b, "");
  }

  lemma BeginIff(l: string)
    ensures IsBegin(l) <==> exists a, b :: BeginAt(l, a, b)
  {
    if IsBegin(l) {
      var a, b := BeginParts(l);
    }
    forall a, b | BeginAt(l, a, b) ensures IsBegin(l) {
      BeginHolds(l, a, b);
    }
  }

  lemma EndParts(l: string) returns (a: string, b: string)
    requires IsEnd(l)
    ensures EndAt(l, a, b, EndRest(l))
  {
    a := UntabbedParts(l);
    var u := Untabbed(l);
    var tail := u[|MARK_END|..];
    assert u == MARK_END + tail;
    b := UntabbedParts(tail);
  }

  lemma EndHolds(l: string, a: string, b: string, rest: string)
    requires EndAt(l, a, b, rest)
    ensures IsEnd(l) && EndRest(l) == rest
  {
    UntabbedIs(l, a, MARK_END + (b + rest));
    assert (MARK_END + (b + rest))[|MARK_END|..] == b + rest;
    UntabbedIs(b + rest, b, rest);
  }

  lemma EndIff(l: string)
    ensures IsEnd(l) <==> exists a, b, rest :: EndAt(l, a, b, rest)
  {
    if IsEnd(l) {
      var a, b := EndParts(l);
    }
    forall a, b, rest | EndAt(l, a, b, rest) ensures IsEnd(l) {
      EndHolds(l, a, b, rest);
    }
  }

  ghost predicate HasNoEnd(lines: seq<string>) {
    forall l, a, b, rest :: l in lines ==> !EndAt(l, a, b, rest)
  }

  lemma NoEndLine(lines: seq<string>)
    requires HasNoEnd(lines)
    ensures forall l :: l in lines ==> !IsEnd(l)
  {
    forall l | l in lines ensures !IsEnd(l) {
      EndIff(l);
    }
  }

  lemma BlockFound(first: string, inner: seq<string>, last: string, y: seq<string>)
    requires IsBegin(first) && IsEnd(last) && forall l :: l in inner ==> !IsEnd(l)
    ensures var t := [first] + (inner + ([last] + y));
      && BlockStarts(t) && BlockSize(t) == |inner| + 2
      && t[..|inner| + 2] == [first] + inner + [last] && t[|inner| + 2..] == y && t[|inner| + 1] == last
      && Inner(t[..|inner| + 2]) == inner
  {
    var s := inner + ([last] + y);
    var t := [first] + s;
    assert t[1..] == s;
    FirstEndAt(s, |inner|);
  }

  /** The first block of a text by its lines: it stays as it is when a line between its markers
      keeps it; otherwise the replacement stands in its place when such a line asks for it; and
      what follows the closing marker on its line stays in any case. */
  lemma BlockBecomes(c: Classes, first: string, a: string, b: string,
                     inner: seq<string>, last: string, a2: string, b2: string, rest: string, y: seq<string>)
    requires BeginAt(first, a, b) && EndAt(last, a2, b2, rest) && HasNoEnd(inner)
    ensures var left := if rest != "" then [rest] else if y == [] then [""] else [];
      Strip(c, [first] + (inner + ([last] + y))) ==
        if exists l :: l in inner && c.keeps(l) then ([first] + inner + [last]) + Strip(c, y)
        else if exists l :: l in inner && c.refreshes(l) then (c.replacement + left) + Strip(c, y)
        else left + Strip(c, y)
  {
    BeginHolds(first, a, b);
    EndHolds(last, a2, b2, rest);
    NoEndLine(inner);
    BlockFound(first, inner, last, y);
    StripBlock(c, [first] + (inner + ([last] + y)));
  }

  /** A line that opens no block stays, and so does an opening marker that nothing closes. */
  lemma LineStays(c: Classes, l: string, y: seq<string>)
    requires HasNoEnd(y) || forall a, b :: !BeginAt(l, a, b)
    ensures Strip(c, [l] + y) == [l] + Strip(c, y)
  {
    assert ([l] + y)[1..] == y;
    BeginIff(l);
    if HasNoEnd(y) {
      NoEndLine(y);
    }
  }
}
