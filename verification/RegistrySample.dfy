/**
 The assumptions on the texts of build_registry can be met, and a text, its one list below its
 only import, on which a second build inserts the import again.
 */
module RegistrySample {
  import opened Wrappers
  import opened ListPatcher
  import opened TextLines
  import opened RegistryPatch
  import opened RegistryTwice
  import opened RegistryBare
  import opened RegistryDiffers

  const IMPORT := "import a.b"
  const DECL := "pages: ["

  function SampleConfig(): Config { Config(IMPORT, "//", "//", true, "{", Patch("//", ["{}"], "//")) }

  lemma PlainSample()
    ensures PlainImport(IMPORT) && '/' !in IMPORT && '{' !in IMPORT && '[' !in IMPORT
  {
    assert IMPORT[..7] == "import ";
  }

  lemma HasForeign(imp: string, l: string)
    requires l != "" && !IsTab(l[0]) && l[0] !in imp
    ensures Foreign(imp, l)
  {
    assert l[0] in l;
  }

  lemma LinesSample(imp: string, ls: seq<string>)
    requires imp == IMPORT && ls == ["//", "{}", "//"]
    ensures PatchOk(imp, ls)
  {
    PlainSample();
    HasForeign(imp, "//");
    HasForeign(imp, "{}");
    forall l | l in ls ensures '\n' !in l && Foreign(imp, l) {
      assert l == "//" || l == "{}";
    }
  }

  lemma SentinelSample(c: Config)
    requires c == SampleConfig()
    ensures SentinelOk(c)
  {
    assert Lines(c.patch) == ["//", "{}", "//"];
    assert FoundAt("{}", "{", 0);
    assert Contains("{}", "{") && Lines(c.patch)[1] == "{}";
  }

  /** What is assumed of a configuration. */
  lemma FitsSample(c: Config)
    requires c == SampleConfig()
    ensures Fits(c) && Marked(c)
  {
    PlainSample();
    assert Lines(c.patch) == ["//", "{}", "//"];
    LinesSample(c.importLine, Lines(c.patch));
    SentinelSample(c);
  }

  /** The sentinel is not in a text without its first character. */
  lemma NotContained(s: string, w: string)
    requires w != "" && w[0] !in s
    ensures !Contains(s, w)
  {
    forall i | 0 <= i <= |s| ensures !FoundAt(s, w, i) {
      if i + |w| <= |s| {
        assert s[i..i + |w|][0] == s[i];
      }
    }
  }

  function SampleText(): string { Sample(IMPORT, "\n", DECL + ("]" + "")) }

  lemma TextSample()
    ensures !Contains(SampleText(), "{") && |SampleText()| == |IMPORT| + |DECL| + 2
  {
    PlainSample();
    assert '{' !in DECL && '{' !in "\n" && '{' !in "]" + "";
    assert forall ch :: ch in SampleText() ==> ch in IMPORT || ch in "\n" || ch in DECL || ch in "]" + "";
    NotContained(SampleText(), "{");
  }

  lemma DeclSample()
    ensures '\n' !in DECL && !HasImport(IMPORT, Split(DECL + ("]" + "")))
  {
    var l := DECL + ("]" + "");
    PlainSample();
    assert l == "pages: []" && '\n' !in l;
    SingleLine(l);
    assert l[7] == '[' && l[7] in l;
    assert Foreign(IMPORT, l);
    ForeignIsNoImport(IMPORT, l);
    HasImportOf(IMPORT, l);
  }

  /** The search that finds this list and nothing else. */
  function Find(): string -> Option<nat> {
    (t: string) => if t == SampleText() then Some(|IMPORT| + |DECL|) else Option.None
  }

  lemma FindLocates()
    ensures Locates(Find())
  {
    TextSample();
  }

  lemma BuildTwiceDiffersSample(c: Config)
    requires c == SampleConfig()
    ensures var t := SampleText(); Built(c, Find(), Built(c, Find(), t)) != Built(c, Find(), t)
  {
    FindLocates();
    FitsSample(c);
    TextSample();
    DeclSample();
    OneLineListDiffers(c, Find(), DECL, "", DECL + ("]" + ""), SampleText());
  }
}
