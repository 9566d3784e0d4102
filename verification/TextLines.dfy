/**
 Texts as lines: split at newlines, and how the lines of two texts meet when they
 are put together.
 */
module TextLines {

  /** str.split("\n"). */
  function Split(s: string): (r: seq<string>)
    ensures |r| >= 1
    decreases |s|
  {
    if s == "" then [""]
    else
      var rest := Split(s[1..]);
      if s[0] == '\n' then [""] + rest else [[s[0]] + rest[0]] + rest[1..]
  }

  /** "\n".join(lines). */
  function Join(lines: seq<string>): string
    requires lines != []
    decreases |lines|
  {
    if |lines| == 1 then lines[0] else lines[0] + "\n" + Join(lines[1..])
  }

  /** The last line of `p` continues with the first of `q`. */
  function Glue(p: seq<string>, q: seq<string>): seq<string>
    requires p != [] && q != []
  {
    p[..|p| - 1] + [p[|p| - 1] + q[0]] + q[1..]
  }

  lemma GlueCons(l: string, p: seq<string>, q: seq<string>)
    requires p != [] && q != []
    ensures Glue([l] + p, q) == [l] + Glue(p, q)
  {
    assert ([l] + p)[..|p|] == [l] + p[..|p| - 1];
  }

  lemma GlueFirst(c: char, p: seq<string>, q: seq<string>)
    requires p != [] && q != []
    ensures Glue([[c] + p[0]] + p[1..], q) == [[c] + Glue(p, q)[0]] + Glue(p, q)[1..]
  {
    if |p| == 1 {
      assert [[c] + p[0]] + p[1..] == [[c] + p[0]];
      assert [c] + p[0] + q[0] == [c] + (p[0] + q[0]);
    } else {
      var p' := [[c] + p[0]] + p[1..];
      assert p'[..|p| - 1] == [[c] + p[0]] + p[1..|p| - 1];
      assert Glue(p, q) == [p[0]] + (p[1..|p| - 1] + [p[|p| - 1] + q[0]] + q[1..]);
    }
  }

  lemma SplitCons(c: char, s: string)
    ensures Split([c] + s) == if c == '\n' then [""] + Split(s) else [[c] + Split(s)[0]] + Split(s)[1..]
  {
    assert ([c] + s)[1..] == s;
  }

  lemma {:induction false} SplitSum(a: string, b: string)
    ensures Split(a + b) == Glue(Split(a), Split(b))
    decreases |a|
  {
    if a == "" {
      assert a + b == b;
      assert "" + Split(b)[0] == Split(b)[0];
      assert [""][..0] + [Split(b)[0]] + Split(b)[1..] == Split(b);
    } else {
      var c, rest := a[0], a[1..];
      assert a == [c] + rest && a + b == [c] + (rest + b);
      SplitSum(rest, b);
      SplitCons(c, rest);
      SplitCons(c, rest + b);
      if c == '\n' {
        GlueCons("", Split(rest), Split(b));
      } else {
        GlueFirst(c, Split(rest), Split(b));
      }
    }
  }

  /** A newline between two texts puts their lines after each other. */
  lemma SplitAtNewline(a: string, b: string)
    ensures Split(a + ("\n" + b)) == Split(a) + Split(b)
  {
    assert "\n" + b == ['\n'] + b;
    SplitCons('\n', b);
    SplitSum(a, "\n" + b);
    GlueEmpty(Split(a), Split(b));
  }

  lemma GlueEmpty(p: seq<string>, q: seq<string>)
    requires p != []
    ensures Glue(p, [""] + q) == p + q
  {
    assert p[|p| - 1] + "" == p[|p| - 1];
    assert p == p[..|p| - 1] + [p[|p| - 1]];
  }

  lemma {:induction false} SingleLine(l: string)
    requires '\n' !in l
    ensures Split(l) == [l]
    decreases |l|
  {
    if l != "" {
      SingleLine(l[1..]);
      assert l == [l[0]] + l[1..];
      SplitCons(l[0], l[1..]);
    }
  }

  lemma {:induction false} LinesHaveNoNewline(s: string)
    ensures forall l :: l in Split(s) ==> '\n' !in l
    decreases |s|
  {
    if s != "" {
      LinesHaveNoNewline(s[1..]);
      var rest := Split(s[1..]);
      assert rest[0] in rest;
      assert forall l :: l in rest[1..] ==> l in rest;
    }
  }

  lemma {:induction false} SplitJoin(lines: seq<string>)
    requires lines != [] && forall l :: l in lines ==> '\n' !in l
    ensures Split(Join(lines)) == lines
    decreases |lines|
  {
    SingleLine(lines[0]);
    if |lines| > 1 {
      assert forall l :: l in lines[1..] ==> l in lines;
      SplitJoin(lines[1..]);
      SplitAtNewline(lines[0], Join(lines[1..]));
      assert lines[0] + "\n" + Join(lines[1..]) == lines[0] + ("\n" + Join(lines[1..]));
      assert lines == [lines[0]] + lines[1..];
    }
  }

  lemma {:induction false} JoinSplit(s: string)
    ensures Join(Split(s)) == s
    decreases |s|
  {
    if s != "" {
      var c, rest := s[0], s[1..];
      assert s == [c] + rest;
      JoinSplit(rest);
      SplitCons(c, rest);
      var lines := Split(rest);
      if c == '\n' {
        assert ([""] + lines)[1..] == lines && "" + "\n" + Join(lines) == ['\n'] + Join(lines);
      } else {
        JoinFirst(c, lines);
      }
    }
  }

  lemma JoinFirst(c: char, lines: seq<string>)
    requires lines != []
    ensures Join([[c] + lines[0]] + lines[1..]) == [c] + Join(lines)
  {
    var l' := [[c] + lines[0]] + lines[1..];
    if |lines| > 1 {
      assert l'[1..] == lines[1..];
      assert [c] + lines[0] + "\n" + Join(lines[1..]) == [c] + (lines[0] + "\n" + Join(lines[1..]));
    }
  }

  /** Joining more lines gives a longer text. */
  lemma {:induction false} JoinLength(a: seq<string>, more: seq<string>, b: seq<string>)
    requires a != [] && more != []
    ensures |Join(a + more + b)| >= |Join(a + b)| + |more|
    decreases |a|
  {
    if |a| == 1 {
      JoinPrepend(more, b);
      if b == [] {
        assert a + b == a && more + b == more;
        assert a + more + b == [a[0]] + more;
      } else {
        assert a + b == [a[0]] + b && (a + b)[1..] == b;
        assert a + more + b == [a[0]] + (more + b);
      }
      assert (a + more + b)[1..] == more + b;
    } else {
      assert (a + more + b)[1..] == a[1..] + more + b && (a + b)[1..] == a[1..] + b;
      JoinLength(a[1..], more, b);
    }
  }

  lemma {:induction false} JoinPrepend(more: seq<string>, b: seq<string>)
    requires more != []
    ensures |Join(more + b)| >= |more| - 1
    ensures b != [] ==> |Join(more + b)| >= |Join(b)| + |more|
    decreases |more|
  {
    if |more| == 1 {
      assert (more + b)[1..] == b;
    } else {
      assert (more + b)[1..] == more[1..] + b;
      JoinPrepend(more[1..], b);
    }
  }
}
