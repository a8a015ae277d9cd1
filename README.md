# FRMR to OSCAL, modelled in Dafny

`FR_docs_to_OSCAL/process_frmr_to_oscal.py` turns FedRAMP Machine Readable
(FRMR) documentation into OSCAL. It reads two input layouts:

- **Consolidated:** the single file `FRMR.documentation.json` used from
  v0.9.0-beta on.
- **Legacy:** the multi-file layout of v0.4.0-alpha.

From either layout it builds:

- the Key Security Indicator (KSI) controls;
- the FedRAMP Requirement (FRR) controls;
- one OSCAL catalog, grouped by theme or standard;
- one OSCAL profile per impact level (low, moderate, high);
- the rows of `Requirements_Paramified.csv`.

`FR_docs_to_OSCAL/test_parsing_logic.py` carries its own copies of several of
these helpers, plus a small `SAMPLE_DATA` document that it checks.

The model is written over a JSON datatype (`Json.Json`):

- Objects are ordered field lists, because the iteration order of a Python
  dict decides the order in which controls are emitted.
- Python truthiness is the predicate `Json.Truthy`.
- Every place where the Python code would raise is a `Failure(Raises(..))`
  result.

The module and its test file differ in a few helpers. Those helpers take a
`Prose.Variant`, either `Production` or `TestCopy`, so the two copies stay
distinct:

- **`clean_prose`:** the test copy runs only the first underscore pass.
- **`extract_impact_from_indicator`:** the test copy has no `Optional:` check.
- **Control titles:** the test copy stores `name` as it is.
- **Group-title table:** the test copy's table is shorter.

The form of the model follows the form of the code:

- **Parsers:** each one is a specification function, written as a left fold
  over the dict entries it walks. A `method` with the same loops is proved
  equal to that fold.
- **FRR parser:** its out-parameters (the controls list, the impact and
  following-information dicts, and `seen_req_ids`) are the fields of the
  class `Frr.Collector`. The collector's methods update those fields in place.
- **`main`:** the per-level loop is a method, `Selection.ImpactLists`.
- **Value-level code:** ID normalisers, `clean_prose` and the builders are
  functions.

The proved properties include:

- ID normalisation yields lower-case ids, follows its two cases, and is
  idempotent.
- `clean_prose` only deletes characters.
- The statement priority chain and the impact rule, in both copies.
- FRR de-duplication, and the "seen before the statement check" rule.
- The shape of every emitted control.
- Catalog grouping and sorting.
- Profile selection.
- Timestamp preservation and change detection.
- The CSV prose layout.
- The test file's assertions on `SAMPLE_DATA`.

## Model

| member | source | states |
|---|---|---|
| ControlIds.Remainder | FR_docs_to_OSCAL/process_frmr_to_oscal.py:145-148 | the prefix is removed exactly when the id starts with it; otherwise the id is kept whole |
| ControlIds.NormalizeControlId | FR_docs_to_OSCAL/process_frmr_to_oscal.py:136-156 | the control id holds no upper-case ASCII letter, and has the remainder's length |
| ControlIds.NormalizeControlIdCases | FR_docs_to_OSCAL/process_frmr_to_oscal.py:150-156 | a remainder holding `-` gives the lower-cased remainder; otherwise it gives the lower-cased remainder with `_` turned into `-` |
| ControlIds.NormalizeControlIdIdempotent | FR_docs_to_OSCAL/process_frmr_to_oscal.py:136-156 | normalising an already normalised id changes nothing, for `KSI-`, for the empty prefix, and for any prefix with a capital |
| ControlIds.NormalizeFrrControlId | FR_docs_to_OSCAL/process_frmr_to_oscal.py:159-176 | the FRR control id holds no upper-case ASCII letter |
| ControlIds.NormalizeFrrControlIdCases | FR_docs_to_OSCAL/process_frmr_to_oscal.py:167-176 | the fallback `standard-lastpiece` is taken exactly when the remainder after `FRR-` has no `-`; otherwise the result agrees with `normalize_control_id` |
| ControlIds.NormalizeKsiExamples | FR_docs_to_OSCAL/test_parsing_logic.py:243-253 | `KSI-CNA-RNT`, `KSI-SCR-MIT` and `KSI-CNA-01` normalise to `cna-rnt`, `scr-mit` and `cna-01` |
| ControlIds.NormalizeFrrExamples | FR_docs_to_OSCAL/process_frmr_to_oscal.py:160-166 | the docstring's examples `FRR-ADS-01` and `FRR-SCN-TR-01` give `ads-01` and `scn-tr-01`; the one-piece `FRR-PBI` of standard ADS falls back to `ads-pbi` |
| Prose.Inner | FR_docs_to_OSCAL/process_frmr_to_oscal.py:188 | `t[1:-1]` is `t` without its first and last characters, and is empty for a string shorter than two |
| Prose.Unquote | FR_docs_to_OSCAL/process_frmr_to_oscal.py:187-190 | the quote steps only delete characters |
| Prose.UnquoteDropsOnePair | FR_docs_to_OSCAL/process_frmr_to_oscal.py:187-190 | text wrapped in one matching pair of `"` or `'` loses exactly that pair, except double quotes around text that is itself wrapped in single quotes (the second step then strips those too) |
| Prose.BoldClose | FR_docs_to_OSCAL/process_frmr_to_oscal.py:193 | the lazy `(.+?)` closes at the first `**` after the opening that has no newline before it |
| Prose.StripBold | FR_docs_to_OSCAL/process_frmr_to_oscal.py:193 | the bold pass only deletes characters |
| Prose.StripBoldPair | FR_docs_to_OSCAL/process_frmr_to_oscal.py:193 | `**x**` becomes `x` when `x` is non-empty and holds no star or newline |
| Prose.BoldFromNoStar | FR_docs_to_OSCAL/process_frmr_to_oscal.py:193 | text without stars passes the bold step unchanged |
| Prose.RunEnd | FR_docs_to_OSCAL/process_frmr_to_oscal.py:196-198 | the end of the longest `[A-Za-z0-9\s]*` run: every character before it is in the class, and the one at it is not |
| Prose.PairAt | FR_docs_to_OSCAL/process_frmr_to_oscal.py:196 | a match of `_x_` opens and closes on `_` with at least two characters between |
| Prose.LastAlnumBeforeBoundary | FR_docs_to_OSCAL/process_frmr_to_oscal.py:197-198 | where a greedy run that must end in `[A-Za-z0-9]\b` backs off to: the last such position |
| Prose.LeadingAt | FR_docs_to_OSCAL/process_frmr_to_oscal.py:197 | a `\b_x\b` match starts on `_` and spans at least three characters |
| Prose.TrailingAt | FR_docs_to_OSCAL/process_frmr_to_oscal.py:198 | an `x_\b` match ends on `_` and spans at least three characters |
| Prose.UnderscorePairFrom | FR_docs_to_OSCAL/process_frmr_to_oscal.py:196 | the first underscore pass only deletes characters |
| Prose.LeadingUnderscoreFrom | FR_docs_to_OSCAL/process_frmr_to_oscal.py:197 | the second underscore pass only deletes characters |
| Prose.TrailingUnderscoreFrom | FR_docs_to_OSCAL/process_frmr_to_oscal.py:198 | the third underscore pass only deletes characters |
| Prose.UnderscorePairExample | FR_docs_to_OSCAL/process_frmr_to_oscal.py:196 | `_word_` loses both underscores |
| Prose.UnderscorePassesNoUnderscore | FR_docs_to_OSCAL/process_frmr_to_oscal.py:196-198 | text without underscores passes all three passes unchanged |
| Prose.CleanProse | FR_docs_to_OSCAL/process_frmr_to_oscal.py:179-200 | empty input is returned unchanged; the output is a sub-multiset of the input, and so never longer |
| Prose.CleanProseKeepsCharacters | FR_docs_to_OSCAL/process_frmr_to_oscal.py:179-200 | every character in the cleaned text was in the input |
| Prose.CleanProsePlainText | FR_docs_to_OSCAL/process_frmr_to_oscal.py:179-200 | stripped prose without quote, star or underscore characters is returned as it is |
| Prose.CleanProseVariantsAgree | FR_docs_to_OSCAL/test_parsing_logic.py:25-36 | the test copy, which stops after the first underscore pass, agrees with the module on text without underscores |
| Prose.GenerateTitle | FR_docs_to_OSCAL/process_frmr_to_oscal.py:203-209 | a blank name gives the upper-cased control id; a non-blank name whose cleaned, stripped form is non-empty gives that cleaned form; one that cleans to nothing gives the upper-cased id; the title is never empty for a non-empty id |
| Prose.GenerateTitlePlainName | FR_docs_to_OSCAL/process_frmr_to_oscal.py:203-209 | a plain non-blank name becomes the title without its surrounding whitespace |
| Indicators.FallbackStatement | FR_docs_to_OSCAL/process_frmr_to_oscal.py:238-248 | the moderate > low > high fallback returns a truthy statement or `""` |
| Indicators.FallbackFirst | FR_docs_to_OSCAL/process_frmr_to_oscal.py:238-248 | the fallback is the statement of the first level among moderate, low and high that is present and gives a truthy statement, every earlier level being absent or falsy; it is `""` when no level gives one |
| Indicators.IndicatorStatement | FR_docs_to_OSCAL/process_frmr_to_oscal.py:216-250 | a truthy `statement` field is returned verbatim |
| Indicators.GetIndicatorStatement | FR_docs_to_OSCAL/process_frmr_to_oscal.py:216-250 | the loop over the fallback levels computes `IndicatorStatement` |
| Indicators.IndicatorStatementOrigin | FR_docs_to_OSCAL/process_frmr_to_oscal.py:216-250 | a truthy result is the `statement` field, or the statement of one of the listed levels |
| Indicators.FallbackOrigin | FR_docs_to_OSCAL/process_frmr_to_oscal.py:238-248 | a truthy fallback statement comes from a listed level, among moderate, low and high |
| Indicators.IndicatorStatementRequestedText | FR_docs_to_OSCAL/process_frmr_to_oscal.py:235-236 | a requested level that holds text gives that text, empty or not |
| Indicators.IndicatorStatementRequestedDict | FR_docs_to_OSCAL/process_frmr_to_oscal.py:233-234 | a requested level that holds a dict gives that dict's `statement`, `""` when it has none, empty or not |
| Indicators.IndicatorStatementFallback | FR_docs_to_OSCAL/process_frmr_to_oscal.py:229-250 | with a falsy `statement`, a `varies_by_level` dict and the requested level absent or neither dict nor text, the result is the statement of the first of moderate, low, high that gives one, every earlier one giving none; `""` when none does |
| Indicators.IndicatorStatementAbsentLevel | FR_docs_to_OSCAL/process_frmr_to_oscal.py:231-248 | when the requested level is absent, the result does not depend on which level was requested |
| Indicators.IndicatorStatementExamples | FR_docs_to_OSCAL/test_parsing_logic.py:280-294 | `{"statement": "Direct"}` gives `Direct`; a moderate-only `varies_by_level` gives `Moderate statement` |
| Indicators.FrrStatement | FR_docs_to_OSCAL/process_frmr_to_oscal.py:583-595 | the FRR requirement statement is its truthy `statement` field when there is one |
| Indicators.GetFrrStatement | FR_docs_to_OSCAL/process_frmr_to_oscal.py:583-595 | the moderate, low, high loop with its `break` computes `FrrStatement` |
| Indicators.FrrLevelsFallback | FR_docs_to_OSCAL/process_frmr_to_oscal.py:587-595 | starting from a falsy statement, the FRR loop finds a truthy statement exactly when the fallback chain does, and then the same one |
| Indicators.FrrStatementAgrees | FR_docs_to_OSCAL/process_frmr_to_oscal.py:583-595 | whenever `get_indicator_statement` at moderate finds a statement, the FRR loop finds the same one |
| Indicators.FrrStatementFindsMore | FR_docs_to_OSCAL/process_frmr_to_oscal.py:583-595 | an empty moderate statement beside a low text: the FRR loop takes the low text, while `get_indicator_statement` returns `""` |
| Indicators.OptionalMarkedText | FR_docs_to_OSCAL/process_frmr_to_oscal.py:279 | on text, the `**Optional:**` test is subsumed by the plain `Optional:` test |
| Indicators.AllLevels | FR_docs_to_OSCAL/process_frmr_to_oscal.py:262 | the impact map has all three levels |
| Indicators.VariesImpact | FR_docs_to_OSCAL/process_frmr_to_oscal.py:267-283 | the level loop keeps all three keys |
| Indicators.LegacyImpact | FR_docs_to_OSCAL/process_frmr_to_oscal.py:293-297 | the legacy `impact` dict gives all three levels |
| Indicators.LegacyImpactFlags | FR_docs_to_OSCAL/process_frmr_to_oscal.py:293-297 | each level is the truth of that level in the `impact` dict, false when the key is missing or `impact` is not a dict |
| Indicators.ImpactOfLegacy | FR_docs_to_OSCAL/process_frmr_to_oscal.py:285-299 | without `varies_by_level` and without a truthy `statement`, the impact is the legacy `impact` dict's flags |
| Indicators.ImpactOf | FR_docs_to_OSCAL/process_frmr_to_oscal.py:253-299 | a successful result always has exactly the keys low, moderate and high |
| Indicators.ExtractImpact | FR_docs_to_OSCAL/process_frmr_to_oscal.py:253-299 | the level loop computes `ImpactOf` |
| Indicators.VariesImpactMeaning | FR_docs_to_OSCAL/process_frmr_to_oscal.py:267-283 | a visited level is true exactly when it is present and applies; every other level keeps its starting value |
| Indicators.LevelAppliesMeaning | FR_docs_to_OSCAL/process_frmr_to_oscal.py:278-282 | a present level applies always in the test copy, and in the module exactly when its statement has no `Optional:` marker |
| Indicators.ImpactOfVaries | FR_docs_to_OSCAL/process_frmr_to_oscal.py:264-283 | with `varies_by_level`, a level is true exactly when it is listed and (in the module) not marked `Optional:`; absent levels are false |
| Indicators.ImpactOfTestCopySucceeds | FR_docs_to_OSCAL/test_parsing_logic.py:66-85 | the test copy never raises |
| Indicators.ImpactOfProductionWithinTestCopy | FR_docs_to_OSCAL/test_parsing_logic.py:70-74 | the `Optional:` check only removes levels: a level the module counts, the test copy counts too |
| Indicators.ImpactOfDirectStatement | FR_docs_to_OSCAL/process_frmr_to_oscal.py:285-290 | without `varies_by_level`, a truthy statement gives true at all three levels |
| Indicators.ImpactOfFailure | FR_docs_to_OSCAL/process_frmr_to_oscal.py:271-279 | the module raises only when a listed level's statement is a truthy number or boolean |
| Indicators.ImpactExampleDirect | FR_docs_to_OSCAL/test_parsing_logic.py:258-263 | a lone direct statement applies at every level, in both copies |
| Indicators.ImpactExampleVaries | FR_docs_to_OSCAL/test_parsing_logic.py:265-275 | low and moderate in `varies_by_level` give low and moderate true and high false, in both copies |
| Indicators.VariesLowModerate | FR_docs_to_OSCAL/process_frmr_to_oscal.py:266-283 | a `varies_by_level` listing only low and moderate gives those levels what their statements decide, and high false |
| Indicators.UnmarkedText | FR_docs_to_OSCAL/process_frmr_to_oscal.py:279 | text shorter than `Optional:` never carries the marker |
| Controls.CleanValue | FR_docs_to_OSCAL/process_frmr_to_oscal.py:179-184 | a falsy value is returned unchanged, text is cleaned, and any other value raises at `strip` |
| Controls.BuildItemParts | FR_docs_to_OSCAL/process_frmr_to_oscal.py:397-405 | the `enumerate(following_info, 1)` loop computes the item parts |
| Controls.BuildInfoParts | FR_docs_to_OSCAL/process_frmr_to_oscal.py:397-405 | a falsy `following_information` gives no item parts; otherwise the parts come from the enumeration loop |
| Controls.ItemFailureStays | FR_docs_to_OSCAL/process_frmr_to_oscal.py:398-405 | once an item fails to clean, the whole part list fails with that error |
| Controls.ItemPartsUpToSucceeds | FR_docs_to_OSCAL/process_frmr_to_oscal.py:398-405 | the part list succeeds exactly when every item cleans |
| Controls.ItemPartsUpToShape | FR_docs_to_OSCAL/process_frmr_to_oscal.py:398-405 | item `k` from 1 has id `<id>_smt.item.<k>`, name `item`, and the item's cleaned text as prose |
| Controls.ControlPartsWellShaped | FR_docs_to_OSCAL/process_frmr_to_oscal.py:389-405 | the parts are the `<id>_smt` statement followed by the numbered items, `1 + len(following_information)` in all |
| Controls.PartIdsDistinct | FR_docs_to_OSCAL/process_frmr_to_oscal.py:389-405 | no two parts of a control share an id |
| Controls.TitleOf | FR_docs_to_OSCAL/process_frmr_to_oscal.py:377 | the module's title is text; the test copy stores `name`, or the upper-cased id when there is no name (test_parsing_logic.py:132) |
| Controls.TitleOfTextName | FR_docs_to_OSCAL/process_frmr_to_oscal.py:377 | a text name, or no name, always gives a title |
| Controls.GroupTitlesAgree | FR_docs_to_OSCAL/test_parsing_logic.py:88-93 | the test file's group-title table agrees with the module's wherever it has an entry |
| Controls.Record | FR_docs_to_OSCAL/process_frmr_to_oscal.py:381-386 | recording appends the control, sets its impact, and records truthy following information, and nothing else |
| Controls.EmitControl | FR_docs_to_OSCAL/process_frmr_to_oscal.py:376-419 | the shared emitting code computes `Emit` |
| Controls.EmptyConsistent | FR_docs_to_OSCAL/process_frmr_to_oscal.py:326-328 | the empty result is consistent |
| Controls.RecordConsistent | FR_docs_to_OSCAL/process_frmr_to_oscal.py:381-419 | recording a well-shaped control with a complete impact keeps the result consistent |
| Controls.ControlPartsFor | FR_docs_to_OSCAL/process_frmr_to_oscal.py:389-405 | the built parts are the cleaned statement as `<id>_smt`, then one `<id>_smt.item.<i>` per following-information value, numbered from 1 and holding that value cleaned, `1 + len(following_information)` in all; only the statement when that value is falsy |
| Controls.EmitShape | FR_docs_to_OSCAL/process_frmr_to_oscal.py:376-419 | a successful emit appends exactly one control, in the given group, with the given id and title and the parts above; it records the impact under the id, and the following information when truthy; nothing else changes |
| Controls.EmitConsistent | FR_docs_to_OSCAL/process_frmr_to_oscal.py:376-419 | an emit appends the control `EmitShape` describes, and the result stays consistent |
| Controls.EmitLower | FR_docs_to_OSCAL/process_frmr_to_oscal.py:369-419 | emitting a lower-case id keeps every emitted id lower case |
| Controls.EmitAppends | FR_docs_to_OSCAL/process_frmr_to_oscal.py:413-419 | emitting appends exactly one control, under the given id, and keeps the earlier ones |
| Ksi.ProcessIndicator | FR_docs_to_OSCAL/process_frmr_to_oscal.py:360-419 | the body of the indicator loop computes `IndicatorStep` |
| Ksi.ProcessTheme | FR_docs_to_OSCAL/process_frmr_to_oscal.py:342-358 | the body of the theme loop computes `ThemeStep` |
| Ksi.ProcessIndicators | FR_docs_to_OSCAL/process_frmr_to_oscal.py:360-419 | the indicator loop computes the fold over the theme's indicators |
| Ksi.ParseKsiConsolidated | FR_docs_to_OSCAL/process_frmr_to_oscal.py:302-421 | the nested loops compute `Ksi.Consolidated` |
| Ksi.RetiredOrSilentSkipped | FR_docs_to_OSCAL/process_frmr_to_oscal.py:364-374 | a retired indicator, or one with an empty moderate statement, emits nothing |
| Ksi.IndicatorStepEmits | FR_docs_to_OSCAL/process_frmr_to_oscal.py:360-419 | a dict indicator, not retired, with a truthy moderate statement appends its control, with the normalised id, the group and group title, the indicator's title, the cleaned statement and following-information items as parts, and its impact; any other indicator changes nothing; the result stays consistent and lower case |
| Ksi.ConsolidatedConsistent | FR_docs_to_OSCAL/process_frmr_to_oscal.py:302-421 | every emitted control is well shaped, has a lower-case id and a complete impact entry; following information is recorded only for emitted controls |
| Ksi.ConsolidatedVariantsSameIds | FR_docs_to_OSCAL/test_parsing_logic.py:96-167 | when both succeed, the module and the test copy emit the same control ids, under the same groups, in the same order |
| Ksi.ProcessLegacyIndicator | FR_docs_to_OSCAL/process_frmr_to_oscal.py:679-730 | the body of the legacy indicator loop computes `LegacyIndicatorStep` |
| Ksi.ProcessLegacyKsiSection | FR_docs_to_OSCAL/process_frmr_to_oscal.py:666-677 | the body of the legacy section loop computes `LegacySectionStep` |
| Ksi.ProcessLegacyIndicators | FR_docs_to_OSCAL/process_frmr_to_oscal.py:679-730 | the legacy indicator loop computes its fold |
| Ksi.ParseKsiIndicatorsLegacy | FR_docs_to_OSCAL/process_frmr_to_oscal.py:655-732 | the nested loops compute `Ksi.Legacy` |
| Ksi.LegacyIndicatorStepEmits | FR_docs_to_OSCAL/process_frmr_to_oscal.py:683-730 | a dict indicator with a text `KSI-` id, not retired, with a truthy `statement` appends its control, with id `normalize_control_id(id, "KSI-")`, its title, the cleaned statement and following-information items as parts, and the legacy impact flags; any other indicator that does not raise changes nothing |
| Ksi.LegacyForeignIdSkipped | FR_docs_to_OSCAL/process_frmr_to_oscal.py:683-685 | a legacy indicator whose id does not start with `KSI-` emits nothing |
| Ksi.LegacyConsistent | FR_docs_to_OSCAL/process_frmr_to_oscal.py:655-732 | the legacy KSI result is consistent and lower case, and every impact entry covers all three levels |
| Frr.FrrControlId | FR_docs_to_OSCAL/process_frmr_to_oscal.py:600-603 | an `FRR-` id goes through `normalize_frr_control_id`; any other id goes through `normalize_control_id` with no prefix; the result is lower case |
| Frr.KeyedRequirement | FR_docs_to_OSCAL/process_frmr_to_oscal.py:545-547 | `dict(inner)` with `id` set to the entry's key only when the entry has no id; every other field is kept |
| Frr.ScanForRequirements | FR_docs_to_OSCAL/process_frmr_to_oscal.py:526-530 | the pre-scan finds an entry that looks like a requirement exactly when there is one |
| Frr.Collector.constructor | FR_docs_to_OSCAL/process_frmr_to_oscal.py:435-438 | the collector starts with no controls and no seen ids |
| Frr.Collector.ProcessRequirement | FR_docs_to_OSCAL/process_frmr_to_oscal.py:554-648 | the collector's new state, or the error, is `RequirementStep` applied to its old state |
| Frr.Collector.EmitRequirementInto | FR_docs_to_OSCAL/process_frmr_to_oscal.py:600-648 | the collector's new state, or the error, is `EmitRequirement` applied to its old state |
| Frr.Collector.ProcessRequirements | FR_docs_to_OSCAL/process_frmr_to_oscal.py:497-503 | the requirement loop folds `RequirementStep` over the list |
| Frr.Collector.ProcessSubsection | FR_docs_to_OSCAL/process_frmr_to_oscal.py:510-551 | one sub-section computes `SubsectionStep` |
| Frr.Collector.ProcessInners | FR_docs_to_OSCAL/process_frmr_to_oscal.py:534-551 | the nested-entry loop computes `InnersFold` |
| Frr.Collector.ProcessSection | FR_docs_to_OSCAL/process_frmr_to_oscal.py:484-551 | `_process_frr_section` computes `Section` |
| Frr.Collector.ProcessSubsections | FR_docs_to_OSCAL/process_frmr_to_oscal.py:506-551 | the sub-section loop computes `SubsectionsFold` |
| Frr.ParseFrrConsolidated | FR_docs_to_OSCAL/process_frmr_to_oscal.py:424-481 | the top-level loop, driving one collector, computes `Frr.Consolidated` |
| Frr.RequirementStepEmits | FR_docs_to_OSCAL/process_frmr_to_oscal.py:578-648 | a requirement with an unseen text id marks it seen; with a falsy statement it emits nothing; otherwise it appends exactly one control, with group id the standard, the group title, id `FrrControlId`, the requirement's title, the cleaned statement and following-information items as parts, and records the requirement's impact under that id |
| Frr.RequirementStepInv | FR_docs_to_OSCAL/process_frmr_to_oscal.py:565-648 | a requirement step keeps the invariant, only appends controls and adds ids, marks a truthy text id as seen, and emits at most one control |
| Frr.SeenRequirementSkipped | FR_docs_to_OSCAL/process_frmr_to_oscal.py:578-579 | a requirement whose id was already seen changes nothing |
| Frr.FirstOccurrenceWins | FR_docs_to_OSCAL/process_frmr_to_oscal.py:578-597 | of two requirements with the same id, the second changes nothing, even when the first had no statement and emitted nothing |
| Frr.RequirementsFoldDuplicate | FR_docs_to_OSCAL/process_frmr_to_oscal.py:578-580 | in a list of requirements, one whose id equals that of an earlier one changes nothing: the walk gives the same result with it removed, wherever it occurs |
| Frr.RequirementsFoldAllSeen | FR_docs_to_OSCAL/process_frmr_to_oscal.py:578-579 | a list of requirements all of whose ids were already seen changes nothing |
| Frr.SectionInv | FR_docs_to_OSCAL/process_frmr_to_oscal.py:484-551 | a section keeps the invariant, and there are never more controls than seen ids |
| Frr.ConsolidatedConsistent | FR_docs_to_OSCAL/process_frmr_to_oscal.py:424-481 | the FRR result is consistent and lower case |
| Frr.PrescanRedundant | FR_docs_to_OSCAL/process_frmr_to_oscal.py:526-551 | without an entry that looks like a requirement, walking the nested entries would emit nothing anyway |
| Frr.PrefixedAndBareIdsCollide | FR_docs_to_OSCAL/process_frmr_to_oscal.py:572-603 | duplicates are found by raw id: `FRR-x` and `x` are two different seen ids but give one control id |
| Frr.DistinctIdsCollide | FR_docs_to_OSCAL/process_frmr_to_oscal.py:572-603 | `FRR-ADS-01` and `ADS-01` both become `ads-01` |
| FrrLegacy.FindFrom | FR_docs_to_OSCAL/process_frmr_to_oscal.py:744 | the leftmost index, from `k` on, where `FRMR\.([A-Z]{3})\.` matches |
| FrrLegacy.FindStandard | FR_docs_to_OSCAL/process_frmr_to_oscal.py:744-748 | the standard is three capitals from a real occurrence of `FRMR.XYZ.`, and there is none exactly when the pattern never matches |
| FrrLegacy.OccurrenceMatches | FR_docs_to_OSCAL/process_frmr_to_oscal.py:744 | every occurrence of `FRMR.` followed by three capitals and `.` is a match |
| FrrLegacy.ProcessLegacyRequirement | FR_docs_to_OSCAL/process_frmr_to_oscal.py:766-818 | the body of the legacy requirement loop computes `LegacyRequirementStep` |
| FrrLegacy.ParseFrrRequirementsLegacy | FR_docs_to_OSCAL/process_frmr_to_oscal.py:735-820 | the nested loops compute `FrrLegacy.Legacy` |
| FrrLegacy.ProcessLegacySection | FR_docs_to_OSCAL/process_frmr_to_oscal.py:760-764 | one legacy section computes `LegacySectionStep` |
| FrrLegacy.ProcessLegacyRequirements | FR_docs_to_OSCAL/process_frmr_to_oscal.py:766-818 | the legacy requirement loop computes its fold |
| FrrLegacy.LegacyRequirementStepInv | FR_docs_to_OSCAL/process_frmr_to_oscal.py:770-818 | a legacy step keeps the invariant and marks a truthy `FRR-` id as seen |
| FrrLegacy.LegacyRequirementStepEmits | FR_docs_to_OSCAL/process_frmr_to_oscal.py:770-818 | an unseen `FRR-` id is marked seen; a falsy statement emits nothing; otherwise exactly one control is appended, with id `normalize_frr_control_id`, the requirement's title, the cleaned `statement` and following-information items as parts, and the legacy impact recorded under that id |
| FrrLegacy.LegacyRequirementsFoldDuplicate | FR_docs_to_OSCAL/process_frmr_to_oscal.py:774-776 | in a legacy requirement list, an `FRR-` requirement whose id equals that of an earlier one changes nothing, wherever it occurs |
| FrrLegacy.LegacyConsistent | FR_docs_to_OSCAL/process_frmr_to_oscal.py:735-820 | the legacy FRR result is consistent and lower case |
| FrrLegacy.NoStandardNothingParsed | FR_docs_to_OSCAL/process_frmr_to_oscal.py:744-746 | a file name without the standard pattern yields no controls |
| FrrLegacy.LegacyForeignIdSkipped | FR_docs_to_OSCAL/process_frmr_to_oscal.py:771-772 | an id without `FRR-` is skipped and, unlike in the consolidated parser, is not marked as seen |
| Format.In | FR_docs_to_OSCAL/process_frmr_to_oscal.py:50 | `key in info`: a key test on a dict, a substring test on text; it raises exactly on values that are not containers |
| Format.DetectFormatDict | FR_docs_to_OSCAL/process_frmr_to_oscal.py:43-60 | a text `version` means consolidated, else a list `releases` means legacy, else a top-level FRD or KSI key means consolidated, else legacy |
| Format.DetectFormatRaises | FR_docs_to_OSCAL/process_frmr_to_oscal.py:48-50 | an `info` that is a number, boolean or null makes the detection raise |
| Format.MaxIndex | FR_docs_to_OSCAL/process_frmr_to_oscal.py:129 | the index `max` picks: its date is not less than any other, and it is the first such |
| Format.Published | FR_docs_to_OSCAL/process_frmr_to_oscal.py:127 | the kept releases have truthy dates, are drawn from the input, and the filter raises exactly when a release is not a dict |
| Format.PublishedKeeps | FR_docs_to_OSCAL/process_frmr_to_oscal.py:127 | every release with a truthy `published_date` is kept |
| Format.PublishedOrder | FR_docs_to_OSCAL/process_frmr_to_oscal.py:127 | two kept releases keep their relative order |
| Format.Dates | FR_docs_to_OSCAL/process_frmr_to_oscal.py:129 | when all published dates are text, each date is that release's `published_date` |
| Format.VersionFromInfo | FR_docs_to_OSCAL/process_frmr_to_oscal.py:120-121 | a text `info.version` is the version |
| Format.NoInfoNoVersion | FR_docs_to_OSCAL/process_frmr_to_oscal.py:114-115 | without `info`, or for a non-dict document, there is no version |
| Format.VersionFromReleases | FR_docs_to_OSCAL/process_frmr_to_oscal.py:124-131 | failing a text version, `releases` decides the version |
| Format.LatestReleaseChosen | FR_docs_to_OSCAL/process_frmr_to_oscal.py:127-130 | the version is the id of a published release whose date no other exceeds, and which comes first among those with that date |
| Format.FirstReleaseWithoutDates | FR_docs_to_OSCAL/process_frmr_to_oscal.py:131 | with no release published, the first release's id is the version |
| Catalog.BuildGroups | FR_docs_to_OSCAL/process_frmr_to_oscal.py:895-901 | the grouping loop computes `groups_dict` and its insertion order |
| Catalog.ControlsIn | FR_docs_to_OSCAL/process_frmr_to_oscal.py:897-901 | a group's controls sublist is never longer than the input |
| Catalog.GroupsOfContents | FR_docs_to_OSCAL/process_frmr_to_oscal.py:895-901 | there is a group exactly for each group id of the input; it carries that id and exactly the controls with that id, in input order |
| Catalog.GroupTitleIsLast | FR_docs_to_OSCAL/process_frmr_to_oscal.py:900 | a group's title is the `group_title` of the last entry with its id |
| Catalog.GroupOrderKeys | FR_docs_to_OSCAL/process_frmr_to_oscal.py:895-903 | the dict's keys are distinct and are exactly its groups |
| Order.Sort | FR_docs_to_OSCAL/process_frmr_to_oscal.py:903 | Python's `sorted` on strings: the result is in ascending code-point order, a permutation of the input, of the same length |
| Order.SortDistinct | FR_docs_to_OSCAL/process_frmr_to_oscal.py:969 | sorting a list without repetitions gives a list without repetitions |
| Catalog.SortedKeys | FR_docs_to_OSCAL/process_frmr_to_oscal.py:903 | every sorted key names a group |
| Catalog.SortedGroupsFacts | FR_docs_to_OSCAL/process_frmr_to_oscal.py:903 | the catalog's groups come in strictly ascending id order, with no id twice; each holds its own controls; every input group id has a group |
| Catalog.SortedKeysCover | FR_docs_to_OSCAL/process_frmr_to_oscal.py:903 | the sorted keys are distinct and cover every input group id |
| Catalog.ControlCountPreserved | FR_docs_to_OSCAL/process_frmr_to_oscal.py:895-903 | the catalog holds exactly as many controls as the parsers produced |
| Catalog.PublishedStamp | FR_docs_to_OSCAL/process_frmr_to_oscal.py:907-910 | an existing `published` stamp is kept; otherwise the clock reading is used |
| Catalog.LastModifiedStamp | FR_docs_to_OSCAL/process_frmr_to_oscal.py:912-915 | a changed document, or one without stamps, takes the clock; otherwise the existing `last-modified` is kept, falling back to `published` |
| Catalog.TimestampsPreserved | FR_docs_to_OSCAL/process_frmr_to_oscal.py:946-954 | both builders' metadata carry the stamps that rule gives |
| Catalog.BuildOscalCatalog | FR_docs_to_OSCAL/process_frmr_to_oscal.py:888-931 | `build_oscal_catalog` returns the catalog document, and the uuid derived from `fedramp-20x-catalog-<version>` |
| Catalog.CatalogMetadata | FR_docs_to_OSCAL/process_frmr_to_oscal.py:917-926 | the catalog's metadata holds its versioned title and the shared stamps |
| Catalog.ProfileSelection | FR_docs_to_OSCAL/process_frmr_to_oscal.py:966-971 | the profile imports `#<catalog uuid>`; its `with-ids` are the given ids in ascending order, each kept as often as given |
| Catalog.StripUnder | FR_docs_to_OSCAL/process_frmr_to_oscal.py:879-883 | popping the stamps succeeds exactly when `doc[outer]["metadata"]` is a dict |
| Catalog.ContentChanged | FR_docs_to_OSCAL/process_frmr_to_oscal.py:872-885 | missing or empty existing content always counts as changed |
| Catalog.CatalogStrips | FR_docs_to_OSCAL/process_frmr_to_oscal.py:877-880 | a built catalog stripped of its stamps depends only on the controls and the version |
| Catalog.ProfileStrips | FR_docs_to_OSCAL/process_frmr_to_oscal.py:881-883 | a built profile has no `catalog` key, and stripped of its stamps it depends only on level, ids, catalog uuid and version |
| Catalog.CatalogUnchangedByTimestamps | FR_docs_to_OSCAL/process_frmr_to_oscal.py:872-885 | a catalog is unchanged against a stored one that differs only in its stamps and in the order of its top-level keys |
| Catalog.UnchangedAgainstOwnStrip | FR_docs_to_OSCAL/process_frmr_to_oscal.py:872-885 | a document is unchanged against its own stripped form |
| Catalog.ProfileUnchangedByTimestamps | FR_docs_to_OSCAL/process_frmr_to_oscal.py:872-885 | a profile is unchanged against a stripped profile of the same level and ids, whatever the stamps |
| Catalog.OtherVersionChanged | FR_docs_to_OSCAL/process_frmr_to_oscal.py:872-885 | a catalog of another version always counts as changed |
| Csv.FalsyText | FR_docs_to_OSCAL/process_frmr_to_oscal.py:1006 | the printed form of a falsy item holds no newline |
| Csv.Bullet | FR_docs_to_OSCAL/process_frmr_to_oscal.py:1006 | a bullet starts with `• `; it fails exactly for a truthy item that is not text |
| Csv.BulletsFromValue | FR_docs_to_OSCAL/process_frmr_to_oscal.py:1006 | the comprehension gives one bullet per item, in order |
| Csv.BulletsFromSucceeds | FR_docs_to_OSCAL/process_frmr_to_oscal.py:1006 | the comprehension succeeds exactly when every item can be cleaned |
| Csv.LeadCases | FR_docs_to_OSCAL/process_frmr_to_oscal.py:1002-1005 | a non-empty statement gains a newline, after losing trailing blanks if it then ends in `:`; the `"\n"` alternative never fires |
| Csv.BuildRow | FR_docs_to_OSCAL/process_frmr_to_oscal.py:986-1009 | the loop body computes the row for one control |
| Csv.RowColumns | FR_docs_to_OSCAL/process_frmr_to_oscal.py:990-1007 | the row is `(ID.upper(), <id>_smt, prose)`; it fails exactly when the following information holds a truthy item that is not text |
| Csv.RowWithoutInfo | FR_docs_to_OSCAL/process_frmr_to_oscal.py:993-999 | without following information, the prose is the statement's prose |
| Csv.LeadLines | FR_docs_to_OSCAL/process_frmr_to_oscal.py:1002-1007 | the assembled prose splits into the statement's line and then the bullets |
| Csv.RowLines | FR_docs_to_OSCAL/process_frmr_to_oscal.py:999-1007 | with following information, the prose lines are the statement line, then one `• <cleaned item>` line per item |
| Csv.RowBullets | FR_docs_to_OSCAL/process_frmr_to_oscal.py:1001-1007 | with truthy following information, the prose is the lead and then the bullets, one per item, joined by newlines |
| Csv.GenerateRows | FR_docs_to_OSCAL/process_frmr_to_oscal.py:986-1009 | the loop computes the rows, without the header and the file |
| Csv.RowsShape | FR_docs_to_OSCAL/process_frmr_to_oscal.py:986-1009 | one row per control, in parser order |
| Selection.LevelIds | FR_docs_to_OSCAL/process_frmr_to_oscal.py:1138-1145 | a level's list is no longer than the controls list |
| Selection.ImpactLists | FR_docs_to_OSCAL/process_frmr_to_oscal.py:1138-1145 | the loop's per-level lists are `LevelIds` for every level |
| Selection.AddToLevels | FR_docs_to_OSCAL/process_frmr_to_oscal.py:1143-1145 | a control is appended to exactly the levels its impact marks true |
| Selection.LevelIdsMembers | FR_docs_to_OSCAL/process_frmr_to_oscal.py:1138-1145 | an id is in a level's list exactly when some control has it and its recorded impact marks that level |
| Selection.LevelIdsDistinct | FR_docs_to_OSCAL/process_frmr_to_oscal.py:1138-1145 | distinct control ids give lists without repetitions |
| Selection.ConsistentLevels | FR_docs_to_OSCAL/process_frmr_to_oscal.py:1138-1145 | for parser output, a control is listed at a level exactly when its impact marks that level |
| Selection.ProfileForLevel | FR_docs_to_OSCAL/process_frmr_to_oscal.py:1148-1158 | a level's profile selects, in ascending order, exactly the controls whose impact marks that level |
| Sample.SampleParse | FR_docs_to_OSCAL/test_parsing_logic.py:299-335 | for any texts of the sample's form, the parse succeeds, with exactly the four controls and groups in order, the impacts, no following information, and the `svc-prr` statement without the bold marker |
| Sample.SampleDataParsed | FR_docs_to_OSCAL/test_parsing_logic.py:299-335 | `SAMPLE_DATA` parses to `cna-rnt`, `cna-mas`, `scr-mit` and `svc-prr` in groups CNA, CNA, SCR and SVC; `svc-prr` is low (in the test copy only), moderate and not high; its prose has no `**Optional:**` |
| Sample.PrrImpact | FR_docs_to_OSCAL/process_frmr_to_oscal.py:279-280 | the `svc-prr` impact is moderate true and high false, with low true in the test copy and false in the module, whose `Optional:` check drops it |
| Sample.PrrModerateStatement | FR_docs_to_OSCAL/test_parsing_logic.py:127 | the statement chosen for `svc-prr` is its moderate text |
| SampleTexts.TestTextsFit | FR_docs_to_OSCAL/test_parsing_logic.py:171-229 | the sample's statements are non-empty; the low `svc-prr` text carries `Optional:`; the moderate one has neither `O` nor `*` |

## Left out

- Network fetching is not modelled. `fetch_frmr_file_list` and `fetch_frmr_file` (lines 63-109) call GitHub through `requests`.
- File I/O is not modelled:
  - `get_existing_file_data` (lines 827-869);
  - the `csv.writer` with its quoting, and the header row;
  - `json.dump`, `os.makedirs` and every `print`.

  The existing stamps and content reach the builders as parameters (`stamps`, `existing`).
- `main` is modelled only for its per-level impact lists (lines 1138-1145) and the profile built for each level. Not modelled:
  - the loop over files that merges parser output with `extend` and `update`;
  - the choice of `max(versions)` or today's date;
  - the group counts it prints.
- The clock (`datetime.now()`) and `uuid.uuid5` are parameters, not computed: `now`, `later` and `uuidOf`.
- Catalog.ContentChanged compares canonical forms, the key-sorted trees that `json.dumps(..., sort_keys=True)` serialises, rather than the strings. Text escaping and number formatting are left out.
- Numbers are integers only. The documents hold no floats, and no float is modelled.
- Letter and word classes are ASCII only:
  - `str.lower`, `str.upper` and `str.capitalize` map A-Z and a-z only;
  - `\w` and `\b` use `[A-Za-z0-9_]`.

  Unicode letters and digits, which Python's `re` also treats as word characters, are not modelled. Whitespace is not restricted: `Text.IsSpace`, used by `strip()` and by `\s`, is the full set of characters for which Python's `str.isspace()` holds.
- The three underscore passes of `clean_prose` are written as hand-made scanners for their patterns. A `\b` next to a non-ASCII letter is not modelled.
- Ksi.ThemeGroupId and Frr.StandardOf: a truthy `short_name` that is not text is `OffSchema`. The model does not follow the group ids such a value would give in Python.
- Frr.ConsolidatedConsistent: states only that the whole FRR result is consistent and lower case. What each requirement emits is stated per step (Frr.RequirementStepEmits), and first-occurrence de-duplication per list (Frr.RequirementsFoldDuplicate, Frr.RequirementsFoldAllSeen). No lemma traces each final control back to its requirement across sections and sub-sections.
- Ksi.LegacyConsistent: states only that the whole legacy KSI result is consistent and lower case, with complete impacts. What each indicator emits is stated per step (Ksi.LegacyIndicatorStepEmits). No lemma traces each final control back to its indicator across sections.
- FrrLegacy.LegacyConsistent: states only that the whole legacy result is consistent and lower case. What each requirement emits is stated per step (FrrLegacy.LegacyRequirementStepEmits), and de-duplication per list (FrrLegacy.LegacyRequirementsFoldDuplicate). No lemma traces each final control back to its requirement across sections.
- Format.FromReleases: any published date that is not text is `OffSchema`. That includes the cases Python handles without error: all published dates integers, or a single published release whose date is not text. In those cases Python's `max` returns an id.
- Csv.BuildRow: a statement prose that is not text is `OffSchema`. The parsers here always store text there.
- Indicators.LegacyImpact and the legacy parsers keep impact flags as their truthiness, rather than the raw values Python stores. `main` only ever tests those values for truth.
- Frr.Collector.EmitRequirementInto and the other emitting members leave the results unchanged when building the control raises. The source has already stored the impact and following information by then, and loses them when the exception propagates. After an error the model keeps no partial state.
- Json.Lookup returns the first field with a key. Decoded JSON never holds a key twice, so this agrees with Python's dicts.
- Sample.SampleParse is proved for every `Texts` value satisfying `SampleTexts.Fits`. `SampleTexts.TestTextsFit` shows that the sample's actual texts do. The texts are stored in pieces so the character facts can be proved.
- `test_all`'s error list, its printing and its exit code are not modelled. Its assertions are the lemmas in `Sample`, `Indicators` and `ControlIds`.
