/** The sample document of the parsing tests and what the consolidated KSI
    parser makes of it: four controls in three groups, in document order,
    with the level-dependent indicator applying at low and moderate only in
    the test copy and at moderate only in the module. The document is built
    from its texts (statements and names), so that the proofs hold for any
    texts with the few properties `Fits` names; `TestTextsFit` shows that the
    test's own texts have them. */
module Sample {
  import opened Json
  import opened Text
  import opened Prose
  import opened ControlIds
  import opened Indicators
  import opened Controls
  import opened Ksi
  import opened KsiGrowth
  import opened SampleTexts

  function RntOf(t: Texts): Json {
    Obj([("name", Str(t.rntName)), ("statement", Str(t.rnt)), ("controls", Arr([Str("ac-17.3"), Str("ca-9")]))])
  }

  function MasOf(t: Texts): Json {
    Obj([("name", Str(t.masName)), ("statement", Str(t.mas)), ("controls", Arr([Str("sc-7.3")]))])
  }

  function MitOf(t: Texts): Json {
    Obj([("fka", Str("KSI-TPR-03")), ("name", Str(t.mitName)), ("statement", Str(t.mit)),
         ("controls", Arr([Str("ac-20"), Str("ra-3.1")]))])
  }

  function PrrLowOf(t: Texts): Json { Obj([("statement", Str(t.prrLow))]) }

  function PrrModerateOf(t: Texts): Json { Obj([("statement", Str(t.prr))]) }

  function PrrVariesOf(t: Texts): Json { Obj([("low", PrrLowOf(t)), ("moderate", PrrModerateOf(t))]) }

  function PrrOf(t: Texts): Json {
    Obj([("name", Str(t.prrName)), ("varies_by_level", PrrVariesOf(t)), ("controls", Arr([Str("sc-4")]))])
  }

  function CnaInds(t: Texts): seq<(string, Json)> { [("KSI-CNA-RNT", RntOf(t)), ("KSI-CNA-MAS", MasOf(t))] }

  function CnaOf(t: Texts): Json {
    Obj([("id", Str("KSI-CNA")), ("name", Str("Cloud Native Architecture")), ("short_name", Str("CNA")),
         ("indicators", Obj(CnaInds(t)))])
  }

  function ScrOf(t: Texts): Json {
    Obj([("id", Str("KSI-SCR")), ("name", Str("Supply Chain Risk")), ("short_name", Str("SCR")),
         ("indicators", Obj([("KSI-SCR-MIT", MitOf(t))]))])
  }

  function SvcOf(t: Texts): Json {
    Obj([("id", Str("KSI-SVC")), ("name", Str("Service Configuration")), ("short_name", Str("SVC")),
         ("indicators", Obj([("KSI-SVC-PRR", PrrOf(t))]))])
  }

  function ThemesOf(t: Texts): seq<(string, Json)> { [("CNA", CnaOf(t)), ("SCR", ScrOf(t)), ("SVC", SvcOf(t))] }

  function DocOf(t: Texts): Json {
    Obj([("info", Obj([("version", Str("0.9.0-beta")), ("last_updated", Str("2025-01-19"))])),
         ("KSI", Obj([("data", Obj(ThemesOf(t)))]))])
  }

  /** `SAMPLE_DATA`. */
  const SampleData := DocOf(TestTexts)

  const SampleIds := [("CNA", "cna-rnt"), ("CNA", "cna-mas"), ("SCR", "scr-mit"), ("SVC", "svc-prr")]

  // ---------------------------------------------------------------------
  // The sample's indicators
  // ---------------------------------------------------------------------

  lemma RntFields(t: Texts)
    ensures Lookup(RntOf(t).fields, "retired").None? && Lookup(RntOf(t).fields, "varies_by_level").None?
    ensures Lookup(RntOf(t).fields, "following_information").None?
    ensures Lookup(RntOf(t).fields, "statement") == Some(Str(t.rnt))
    ensures Lookup(RntOf(t).fields, "name") == Some(Str(t.rntName))
  {
    var f := RntOf(t).fields;
    LookupThree(f[0], f[1], f[2], "retired");
    LookupThree(f[0], f[1], f[2], "varies_by_level");
    LookupThree(f[0], f[1], f[2], "following_information");
    LookupThree(f[0], f[1], f[2], "statement");
    LookupThree(f[0], f[1], f[2], "name");
  }

  lemma MasFields(t: Texts)
    ensures Lookup(MasOf(t).fields, "retired").None? && Lookup(MasOf(t).fields, "varies_by_level").None?
    ensures Lookup(MasOf(t).fields, "following_information").None?
    ensures Lookup(MasOf(t).fields, "statement") == Some(Str(t.mas))
    ensures Lookup(MasOf(t).fields, "name") == Some(Str(t.masName))
  {
    var f := MasOf(t).fields;
    LookupThree(f[0], f[1], f[2], "retired");
    LookupThree(f[0], f[1], f[2], "varies_by_level");
    LookupThree(f[0], f[1], f[2], "following_information");
    LookupThree(f[0], f[1], f[2], "statement");
    LookupThree(f[0], f[1], f[2], "name");
  }

  lemma MitFields(t: Texts)
    ensures Lookup(MitOf(t).fields, "retired").None? && Lookup(MitOf(t).fields, "varies_by_level").None?
    ensures Lookup(MitOf(t).fields, "following_information").None?
    ensures Lookup(MitOf(t).fields, "statement") == Some(Str(t.mit))
    ensures Lookup(MitOf(t).fields, "name") == Some(Str(t.mitName))
  {
    var f := MitOf(t).fields;
    LookupFour(f[0], f[1], f[2], f[3], "retired");
    LookupFour(f[0], f[1], f[2], f[3], "varies_by_level");
    LookupFour(f[0], f[1], f[2], f[3], "following_information");
    LookupFour(f[0], f[1], f[2], f[3], "statement");
    LookupFour(f[0], f[1], f[2], f[3], "name");
  }

  lemma PrrFields(t: Texts)
    ensures Lookup(PrrOf(t).fields, "retired").None? && Lookup(PrrOf(t).fields, "statement").None?
    ensures Lookup(PrrOf(t).fields, "following_information").None?
    ensures Lookup(PrrOf(t).fields, "varies_by_level") == Some(PrrVariesOf(t))
    ensures Lookup(PrrOf(t).fields, "name") == Some(Str(t.prrName))
  {
    var f := PrrOf(t).fields;
    LookupThree(f[0], f[1], f[2], "retired");
    LookupThree(f[0], f[1], f[2], "statement");
    LookupThree(f[0], f[1], f[2], "following_information");
    LookupThree(f[0], f[1], f[2], "varies_by_level");
    LookupThree(f[0], f[1], f[2], "name");
  }

  lemma PrrLevelData(t: Texts)
    ensures LevelData(PrrVariesOf(t), "low") == Some(PrrLowOf(t))
    ensures LevelData(PrrVariesOf(t), "moderate") == Some(PrrModerateOf(t))
    ensures LevelData(PrrVariesOf(t), "high").None?
  {
    var f := PrrVariesOf(t).fields;
    LookupTwo(f[0], f[1], "low");
    LookupTwo(f[0], f[1], "moderate");
    LookupTwo(f[0], f[1], "high");
  }

  /** The impact the parsers give `svc-prr`. */
  function PrrLevels(v: Variant): Impact {
    map[Low := v == TestCopy, Moderate := true, High := false]
  }

  /** In the module a level whose statement carries the `Optional:` marker
      does not apply; in the test copy every listed level does. */
  lemma PrrLevelsApply(v: Variant, t: Texts)
    requires Contains(t.prrLow, "Optional:") && 'O' !in t.prr
    ensures LevelApplies(v, PrrLowOf(t)) == Success(v == TestCopy)
    ensures LevelApplies(v, PrrModerateOf(t)) == Success(true)
  {
    assert LevelStatement(PrrLowOf(t)) == Str(t.prrLow);
    assert LevelStatement(PrrModerateOf(t)) == Str(t.prr);
    OptionalMarkedText(t.prrLow);
    OptionalMarkedText(t.prr);
    FirstOfContained(t.prr, "Optional:");
  }

  /** The level-dependent indicator: the test copy applies it at every level
      its `varies_by_level` lists, low and moderate; the module drops low,
      whose statement carries the `Optional:` marker. */
  lemma PrrImpact(v: Variant, t: Texts)
    requires Contains(t.prrLow, "Optional:") && 'O' !in t.prr
    ensures ImpactOf(v, PrrOf(t)) == Success(PrrLevels(v))
  {
    var prr, varies := PrrOf(t), PrrVariesOf(t);
    assert Get0(prr, "varies_by_level") == varies && HasVaries(prr) by { PrrFields(t); }
    PrrLevelData(t);
    PrrLevelsApply(v, t);
    VariesLowModerate(v, varies, PrrLowOf(t), PrrModerateOf(t), v == TestCopy, true);
  }

  /** Without its own statement the indicator takes the moderate level's. */
  lemma PrrModerateStatement(t: Texts)
    ensures IndicatorStatement(PrrOf(t), "moderate") == Str(t.prr)
  {
    var prr, varies, moderate := PrrOf(t), PrrVariesOf(t), PrrModerateOf(t);
    assert Get(prr, "statement", Str("")) == Str("") && Get0(prr, "varies_by_level") == varies by { PrrFields(t); }
    assert LevelData(varies, "moderate") == Some(moderate) by { PrrLevelData(t); }
    assert LevelStatement(moderate) == Str(t.prr) by { LookupOne(moderate.fields[0], "statement"); }
  }

  /** The parts `svc-prr` gets: its moderate statement, cleaned. */
  function PrrParts(v: Variant, t: Texts): seq<Part> {
    ControlParts("svc-prr", CleanProse(v, t.prr), [])
  }

  /** What the level-dependent indicator offers the parser: it is neither
      retired nor followed by information, its id normalises to `svc-prr`,
      its statement is the moderate level's and its impact `PrrLevels`. */
  lemma PrrFacts(v: Variant, t: Texts)
    requires Fits(t)
    ensures var prr := PrrOf(t);
      && Lookup(prr.fields, "retired").None? && Lookup(prr.fields, "following_information").None?
      && IndicatorStatement(prr, "moderate") == Str(t.prr)
      && NormalizeControlId("KSI-SVC-PRR", "KSI-") == "svc-prr"
      && TitleOf(v, prr, "svc-prr").Success? && ImpactOf(v, prr) == Success(PrrLevels(v))
  {
    DashExample("KSI-SVC-PRR", "KSI-", "SVC-PRR", "svc-prr");
    PrrModerateStatement(t);
    PrrFields(t);
    TitleOfTextName(v, PrrOf(t), "svc-prr");
    PrrImpact(v, t);
  }

  /** The level-dependent indicator becomes one control whose statement is
      the moderate level's, cleaned, with the impact of `PrrImpact`. */
  lemma PrrStep(v: Variant, t: Texts, groupTitle: Json, p: Parsed)
    requires Fits(t)
    ensures var r := IndicatorStep(v, "SVC", groupTitle, "KSI-SVC-PRR", PrrOf(t), p);
      && r.Success?
      && Extends(p, r.value, [("SVC", "svc-prr")], [PrrLevels(v)])
      && PartsAt(r.value, |p.controls|, PrrParts(v, t))
  {
    PrrFacts(v, t);
    StatementIndicator(v, "SVC", groupTitle, "KSI-SVC-PRR", PrrOf(t), p, "svc-prr", t.prr, PrrLevels(v));
  }

  lemma RntStep(v: Variant, t: Texts, groupTitle: Json, p: Parsed)
    requires t.rnt != ""
    ensures var r := IndicatorStep(v, "CNA", groupTitle, "KSI-CNA-RNT", RntOf(t), p);
      r.Success? && Extends(p, r.value, [("CNA", "cna-rnt")], [AllLevels(true)])
  {
    assert NormalizeControlId("KSI-CNA-RNT", "KSI-") == "cna-rnt" by { ExampleCnaRnt(); }
    RntFields(t);
    DirectIndicator(v, "CNA", groupTitle, "KSI-CNA-RNT", RntOf(t), p, "cna-rnt", t.rnt);
  }

  lemma MasStep(v: Variant, t: Texts, groupTitle: Json, p: Parsed)
    requires t.mas != ""
    ensures var r := IndicatorStep(v, "CNA", groupTitle, "KSI-CNA-MAS", MasOf(t), p);
      r.Success? && Extends(p, r.value, [("CNA", "cna-mas")], [AllLevels(true)])
  {
    assert NormalizeControlId("KSI-CNA-MAS", "KSI-") == "cna-mas" by {
      DashExample("KSI-CNA-MAS", "KSI-", "CNA-MAS", "cna-mas");
    }
    MasFields(t);
    DirectIndicator(v, "CNA", groupTitle, "KSI-CNA-MAS", MasOf(t), p, "cna-mas", t.mas);
  }

  lemma MitStep(v: Variant, t: Texts, groupTitle: Json, p: Parsed)
    requires t.mit != ""
    ensures var r := IndicatorStep(v, "SCR", groupTitle, "KSI-SCR-MIT", MitOf(t), p);
      r.Success? && Extends(p, r.value, [("SCR", "scr-mit")], [AllLevels(true)])
  {
    assert NormalizeControlId("KSI-SCR-MIT", "KSI-") == "scr-mit" by { ExampleScrMit(); }
    MitFields(t);
    DirectIndicator(v, "SCR", groupTitle, "KSI-SCR-MIT", MitOf(t), p, "scr-mit", t.mit);
  }

  // ---------------------------------------------------------------------
  // The sample's themes
  // ---------------------------------------------------------------------

  const CnaIds := [("CNA", "cna-rnt")] + [("CNA", "cna-mas")]
  const CnaImpacts := [AllLevels(true)] + [AllLevels(true)]
  const ScrIds := [("SCR", "scr-mit")]
  const SvcIds := [("SVC", "svc-prr")]

  lemma CnaIndicators(v: Variant, t: Texts, title: Json, p: Parsed)
    requires t.rnt != "" && t.mas != ""
    ensures var r := IndicatorsFold(v, "CNA", title, CnaInds(t), p);
      r.Success? && Extends(p, r.value, CnaIds, CnaImpacts)
  {
    RntStep(v, t, title, p);
    MasStep(v, t, title, IndicatorStep(v, "CNA", title, "KSI-CNA-RNT", RntOf(t), p).value);
    IndicatorsTwoExtend(v, "CNA", title, CnaInds(t), p, [("CNA", "cna-rnt")], [AllLevels(true)], [("CNA", "cna-mas")], [AllLevels(true)]);
  }

  lemma CnaStep(v: Variant, t: Texts, p: Parsed)
    requires t.rnt != "" && t.mas != ""
    ensures var r := ThemeStep(v, "CNA", CnaOf(t), p);
      r.Success? && Extends(p, r.value, CnaIds, CnaImpacts)
  {
    var cna := CnaOf(t);
    assert Lookup(cna.fields, "short_name") == Some(Str("CNA")) by { LookupAt(cna.fields, 2); }
    assert Lookup(cna.fields, "indicators") == Some(Obj(CnaInds(t))) by {
      assert "short_name"[0] != "indicators"[0];
      LookupAt(cna.fields, 3);
    }
    ThemeIndicators(v, "CNA", cna, p, "CNA", CnaInds(t));
    CnaIndicators(v, t, ThemeTitle(v, cna, "CNA"), p);
  }

  lemma ScrStep(v: Variant, t: Texts, p: Parsed)
    requires t.mit != ""
    ensures var r := ThemeStep(v, "SCR", ScrOf(t), p);
      r.Success? && Extends(p, r.value, ScrIds, [AllLevels(true)])
  {
    var scr, inds := ScrOf(t), [("KSI-SCR-MIT", MitOf(t))];
    assert Lookup(scr.fields, "short_name") == Some(Str("SCR")) by { LookupAt(scr.fields, 2); }
    assert Lookup(scr.fields, "indicators") == Some(Obj(inds)) by {
      assert "short_name"[0] != "indicators"[0];
      LookupAt(scr.fields, 3);
    }
    ThemeIndicators(v, "SCR", scr, p, "SCR", inds);
    var title := ThemeTitle(v, scr, "SCR");
    MitStep(v, t, title, p);
    IndicatorsOne(v, "SCR", title, inds, p);
  }

  lemma SvcStep(v: Variant, t: Texts, p: Parsed)
    requires Fits(t)
    ensures var r := ThemeStep(v, "SVC", SvcOf(t), p);
      r.Success? && Extends(p, r.value, SvcIds, [PrrLevels(v)]) && PartsAt(r.value, |p.controls|, PrrParts(v, t))
  {
    var svc, inds := SvcOf(t), [("KSI-SVC-PRR", PrrOf(t))];
    assert Lookup(svc.fields, "short_name") == Some(Str("SVC")) by { LookupAt(svc.fields, 2); }
    assert Lookup(svc.fields, "indicators") == Some(Obj(inds)) by {
      assert "short_name"[0] != "indicators"[0];
      LookupAt(svc.fields, 3);
    }
    ThemeIndicators(v, "SVC", svc, p, "SVC", inds);
    var title := ThemeTitle(v, svc, "SVC");
    PrrStep(v, t, title, p);
    IndicatorsOne(v, "SVC", title, inds, p);
  }

  /** What the three themes make of an earlier result `p`: the four
      controls appended in document order with their impacts, the level-
      dependent one last. */
  predicate SampleOutcome(v: Variant, r: Result<Parsed>, p: Parsed, parts: seq<Part>) {
    && r.Success?
    && Extends(p, r.value, CnaIds + ScrIds + SvcIds, CnaImpacts + [AllLevels(true)] + [PrrLevels(v)])
    && PartsAt(r.value, |p.controls| + 3, parts)
  }

  /** The three extensions compose. */
  lemma SampleChain(v: Variant, p: Parsed, q1: Parsed, q2: Parsed, q3: Parsed, parts: seq<Part>)
    requires Extends(p, q1, CnaIds, CnaImpacts)
    requires Extends(q1, q2, ScrIds, [AllLevels(true)])
    requires Extends(q2, q3, SvcIds, [PrrLevels(v)])
    requires PartsAt(q3, |q2.controls|, parts)
    ensures SampleOutcome(v, Success(q3), p, parts)
  {
    ExtendsTrans(p, q1, q2, CnaIds, CnaImpacts, ScrIds, [AllLevels(true)]);
    ExtendsTrans(p, q2, q3, CnaIds + ScrIds, CnaImpacts + [AllLevels(true)], SvcIds, [PrrLevels(v)]);
    assert |q2.controls| == |Ids(q2)| == |p.controls| + 3;
  }

  /** All three themes, over any earlier result. */
  lemma SampleFold(v: Variant, t: Texts, p: Parsed)
    requires Fits(t)
    ensures SampleOutcome(v, ThemesFold(v, ThemesOf(t), p), p, PrrParts(v, t))
  {
    CnaStep(v, t, p);
    var q1 := ThemeStep(v, "CNA", CnaOf(t), p).value;
    ScrStep(v, t, q1);
    var q2 := ThemeStep(v, "SCR", ScrOf(t), q1).value;
    SvcStep(v, t, q2);
    var q3 := ThemeStep(v, "SVC", SvcOf(t), q2).value;
    ThemesThree(v, ThemesOf(t), p, q1, q2, q3);
    SampleChain(v, p, q1, q2, q3, PrrParts(v, t));
  }

  // ---------------------------------------------------------------------
  // The whole document
  // ---------------------------------------------------------------------

  /** Cleaning never brings in an asterisk, so text without one comes out
      without the bold marker. */
  lemma NoMarkerAfterCleaning(v: Variant, s: string)
    requires '*' !in s
    ensures !Contains(CleanProse(v, s), "**Optional:**")
  {
    if Contains(CleanProse(v, s), "**Optional:**") {
      FirstOfContained(CleanProse(v, s), "**Optional:**");
      CleanProseKeepsCharacters(v, s, '*');
    }
  }

  lemma ConcatFour<T>(a: T, b: T, c: T, d: T)
    ensures [a] + [b] + [c] + [d] == [a, b, c, d]
  {
  }

  /** The impacts the sample records. */
  function SampleImpacts(v: Variant): map<string, Impact> {
    map["cna-rnt" := AllLevels(true), "cna-mas" := AllLevels(true), "scr-mit" := AllLevels(true), "svc-prr" := PrrLevels(v)]
  }

  /** `parse_ksi_consolidated` on the sample: the four controls in document
      order under their groups, the three direct indicators applying at
      every level and the level-dependent one as `PrrLevels` says, no
      following information, and the level-dependent control's statement
      its moderate statement cleaned, without the bold `Optional:` marker. */
  lemma SampleParse(v: Variant, t: Texts)
    requires Fits(t)
    ensures var r := Consolidated(v, DocOf(t));
      && r.Success?
      && Ids(r.value) == SampleIds
      && r.value.impacts == SampleImpacts(v)
      && r.value.followingInfo == map[]
      && PartsAt(r.value, 3, PrrParts(v, t))
      && var prose := r.value.controls[3].control.parts[0].prose;
         prose.Str? && !Contains(prose.s, "**Optional:**")
  {
    var doc := DocOf(t);
    var section := Obj([("data", Obj(ThemesOf(t)))]);
    assert Get(doc, "KSI", Obj([])) == section by { LookupTwo(doc.fields[0], doc.fields[1], "KSI"); }
    assert Themes(section) == ThemesOf(t) by { LookupOne(section.fields[0], "data"); }
    SampleFold(v, t, Empty);
    ConcatFour(("CNA", "cna-rnt"), ("CNA", "cna-mas"), ("SCR", "scr-mit"), ("SVC", "svc-prr"));
    ConcatFour(AllLevels(true), AllLevels(true), AllLevels(true), PrrLevels(v));
    UpdateFour(map[], SampleIds, [AllLevels(true), AllLevels(true), AllLevels(true), PrrLevels(v)]);
    NoMarkerAfterCleaning(v, t.prr);
  }

  /** The fourth check of the test file: `SAMPLE_DATA` parses to the four
      expected controls in the groups CNA, SCR and SVC; `svc-prr` applies
      at low (in the test copy only), at moderate and not at high; its
      statement does not carry the bold `Optional:` marker. */
  lemma SampleDataParsed(v: Variant)
    ensures var r := Consolidated(v, SampleData);
      && r.Success?
      && Ids(r.value) == SampleIds
      && r.value.impacts == SampleImpacts(v)
      && 3 < |r.value.controls| && |r.value.controls[3].control.parts| > 0
      && var prose := r.value.controls[3].control.parts[0].prose;
         prose.Str? && !Contains(prose.s, "**Optional:**")
  {
    TestTextsFit();
    SampleParse(v, TestTexts);
  }
}
