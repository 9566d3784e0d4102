/**
 The assumptions on the texts of patch_regions can be met, and a text on which the upgrade
 differs from a fresh install: it has a modal region already.
 */
module RegionsSample {
  import opened Wrappers
  import opened Lexer
  import opened TextLines
  import opened Markers
  import opened RegionsPatch

  /** The sentinels are told by one letter; the place is behind the first character. */
  function SampleKit(): RegionsPatch.Kit {
    RegionsPatch.Kit(
      (t: string) => if t == "" then Option.None else Some(1),
      (l: string) => 'P' in l, (l: string) => 'S' in l,
      [MARK_BEGIN, "x", MARK_END], [MARK_BEGIN, "S", MARK_END])
  }

  lemma MarksAreAlone()
    ensures IsBegin(MARK_BEGIN) && IsEnd(MARK_END) && EndRest(MARK_END) == ""
  {
    assert Untabbed(MARK_BEGIN) == MARK_BEGIN && Untabbed(MARK_END) == MARK_END;
    assert MARK_BEGIN[|MARK_BEGIN|..] == "" && MARK_END[|MARK_END|..] == "";
  }

  lemma OneLetter(l: string)
    requires |l| == 1 && l[0] != '/' && !IsTab(l[0]) && l[0] != '\n'
    ensures !IsEnd(l) && '\n' !in l
  {
    assert MARK_END[0] == '/';
  }

  lemma MarksAreLines()
    ensures '\n' !in MARK_BEGIN && '\n' !in MARK_END
  {
  }

  lemma SampleBlock(l: string)
    requires |l| == 1 && l[0] != '/' && !IsTab(l[0]) && l[0] != '\n'
    ensures BlockFits([MARK_BEGIN, l, MARK_END])
  {
    MarksAreAlone();
    MarksAreLines();
    OneLetter(l);
    assert Inner([MARK_BEGIN, l, MARK_END]) == [l];
  }

  lemma SampleSentinels()
    ensures var k := SampleKit(); !Has(k.oldBlock, k.sentinel) && Has(k.newBlock, k.sentinel)
  {
    var k := SampleKit();
    assert k.newBlock[1] in k.newBlock && k.newBlock[1][0] == 'S';
    NoLetter();
  }

  lemma NoLetter()
    ensures 'S' !in MARK_BEGIN && 'S' !in MARK_END && 'S' !in "x"
  {
  }

  lemma SampleCuts(a: string, b: string)
    ensures CutApart(SampleKit(), a, b)
  {
  }

  lemma SampleKitIsOk()
    ensures RegionsPatch.KitOk(SampleKit())
  {
    SampleBlock("x");
    SampleBlock("S");
    SampleSentinels();
    forall a: string, b: string ensures CutApart(SampleKit(), a, b) {
      SampleCuts(a, b);
    }
  }

  const REGION := "{S}"

  lemma RegionDepths()
    ensures Depth("{", '{', '}') == 1 && Depth("{S", '{', '}') == 1 && Depth(REGION, '{', '}') == 0
    ensures Before(REGION, 2) == Code
  {
    assert REGION[..2] == "{S" && "{S"[..1] == "{" && "{"[..0] == "";
    assert Run(Code, "") == Code && Run(Code, "{") == Code && Run(Code, "{S") == Code;
  }

  lemma RegionCloses()
    ensures MatchOf(REGION, 0) >= 1
  {
    RegionDepths();
    assert REGION[0..] == REGION && REGION[..3] == REGION;
    assert Closing(REGION, 2, '{', '}');
    assert !Closing(REGION, 0, '{', '}');
  }

  lemma RegionIsCut()
    ensures Cut(REGION, Some(1)).Some?
  {
    RegionCloses();
    assert Encloses(REGION, 1, 0);
    CutIs(REGION, 1);
  }

  /** A text with a modal region. */
  lemma OwnRegionSample(k: RegionsPatch.Kit, t: string)
    requires k == SampleKit() && t == REGION
    ensures NoBegin(Split(t)) && !Has(Split(t), k.panel) && Has(Split(t), k.sentinel)
    ensures Cut(t, k.find(t)).Some?
  {
    SingleLine(t);
    assert t in Split(t) && t[1] == 'S';
    assert Untabbed(t) == t && MARK_BEGIN[0] == '/';
    RegionIsCut();
  }
}
