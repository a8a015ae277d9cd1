/** The KSI parsers: `parse_ksi_consolidated` (in the module and in its test
    file) and `parse_ksi_indicators_legacy`. Each is a left fold of one step
    per theme and per indicator; the methods run the loops and are proved to
    compute the fold. */
module Ksi {
  import opened Json
  import opened Text
  import opened Prose
  import opened ControlIds
  import opened Indicators
  import opened Controls

  // ---------------------------------------------------------------------
  // parse_ksi_consolidated
  // ---------------------------------------------------------------------

  /** One indicator of a theme: skipped when not a dict, retired or without
      a statement; otherwise emitted under its normalised id. */
  function IndicatorStep(v: Variant, groupId: string, groupTitle: Json, key: string, ind: Json, p: Parsed): Result<Parsed> {
    if !ind.Obj? || Truthy(Get(ind, "retired", Bool(false))) then Success(p)
    else
      var controlId := NormalizeControlId(key, "KSI-");
      var statement := IndicatorStatement(ind, "moderate");
      if !Truthy(statement) then Success(p)
      else Emit(v, p, groupId, groupTitle, controlId, statement, TitleOf(v, ind, controlId),
                ImpactOf(v, ind), Get(ind, "following_information", Arr([])))
  }

  function IndicatorsFold(v: Variant, groupId: string, groupTitle: Json, inds: seq<(string, Json)>, p: Parsed): Result<Parsed> {
    if inds == [] then Success(p)
    else
      match IndicatorStep(v, groupId, groupTitle, inds[0].0, inds[0].1, p)
      case Failure(e) => Failure(e)
      case Success(q) => IndicatorsFold(v, groupId, groupTitle, inds[1..], q)
  }

  /** `theme_data.get("short_name") or theme_key`; a truthy short name that is
      not text is outside the model. */
  function ThemeGroupId(theme: Json, key: string): Result<string>
    requires theme.Obj?
  {
    var shortName := Get0(theme, "short_name");
    if !Truthy(shortName) then Success(key)
    else if shortName.Str? then Success(shortName.s)
    else Failure(OffSchema("short_name that is not text"))
  }

  /** `name or theme or KSI_GROUP_TITLES.get(group_id, group_id)`. */
  function ThemeTitle(v: Variant, theme: Json, groupId: string): Json
    requires theme.Obj?
  {
    Or(Or(Get0(theme, "name"), Get0(theme, "theme")), Str(GroupTitle(v, groupId)))
  }

  function ThemeStep(v: Variant, key: string, theme: Json, p: Parsed): Result<Parsed> {
    if key == "info" || key == "data" || !theme.Obj? then Success(p)
    else
      match ThemeGroupId(theme, key)
      case Failure(e) => Failure(e)
      case Success(groupId) =>
        var inds := Get(theme, "indicators", Obj([]));
        if !inds.Obj? then Success(p)
        else IndicatorsFold(v, groupId, ThemeTitle(v, theme, groupId), inds.fields, p)
  }

  function ThemesFold(v: Variant, themes: seq<(string, Json)>, p: Parsed): Result<Parsed> {
    if themes == [] then Success(p)
    else
      match ThemeStep(v, themes[0].0, themes[0].1, p)
      case Failure(e) => Failure(e)
      case Success(q) => ThemesFold(v, themes[1..], q)
  }

  /** The themes: `KSI.data` when present, else the `KSI` dict itself; none
      when that is not a dict. */
  function Themes(section: Json): seq<(string, Json)>
    requires section.Obj?
  {
    var ksiData := Get(section, "data", section);
    if ksiData.Obj? then ksiData.fields else []
  }

  /** `parse_ksi_consolidated`. */
  function Consolidated(v: Variant, data: Json): Result<Parsed>
    requires data.Obj?
  {
    var section := Get(data, "KSI", Obj([]));
    if !section.Obj? then Failure(Raises(".get on a KSI value that is not a dict"))
    else ThemesFold(v, Themes(section), Empty)
  }

  /** The body of the indicator loop. */
  method ProcessIndicator(v: Variant, groupId: string, groupTitle: Json, key: string, ind: Json, p: Parsed)
    returns (r: Result<Parsed>)
    ensures r == IndicatorStep(v, groupId, groupTitle, key, ind, p)
  {
    if !ind.Obj? || Truthy(Get(ind, "retired", Bool(false))) {
      return Success(p);
    }
    var controlId := NormalizeControlId(key, "KSI-");
    var statement := GetIndicatorStatement(ind, "moderate");
    if !Truthy(statement) {
      return Success(p);
    }
    var title := TitleOf(v, ind, controlId);
    var impact := ExtractImpact(v, ind);
    var info := Get(ind, "following_information", Arr([]));
    r := EmitControl(v, p, groupId, groupTitle, controlId, statement, title, impact, info);
  }

  /** The body of the theme loop. */
  method ProcessTheme(v: Variant, key: string, theme: Json, p: Parsed) returns (r: Result<Parsed>)
    ensures r == ThemeStep(v, key, theme, p)
  {
    if key == "info" || key == "data" || !theme.Obj? {
      return Success(p);
    }
    var groupId := ThemeGroupId(theme, key);
    if groupId.Failure? {
      return Failure(groupId.error);
    }
    var groupTitle := ThemeTitle(v, theme, groupId.value);
    var inds := Get(theme, "indicators", Obj([]));
    if !inds.Obj? {
      return Success(p);
    }
    r := ProcessIndicators(v, groupId.value, groupTitle, inds.fields, p);
  }

  /** The indicator loop of one theme. */
  method ProcessIndicators(v: Variant, groupId: string, groupTitle: Json, inds: seq<(string, Json)>, p: Parsed)
    returns (r: Result<Parsed>)
    ensures r == IndicatorsFold(v, groupId, groupTitle, inds, p)
  {
    var q := p;
    var j := 0;
    while j < |inds|
      invariant 0 <= j <= |inds|
      invariant IndicatorsFold(v, groupId, groupTitle, inds[j..], q) == IndicatorsFold(v, groupId, groupTitle, inds, p)
    {
      var step := ProcessIndicator(v, groupId, groupTitle, inds[j].0, inds[j].1, q);
      if step.Failure? {
        return Failure(step.error);
      }
      q := step.value;
      j := j + 1;
    }
    return Success(q);
  }

  method ParseKsiConsolidated(v: Variant, data: Json) returns (r: Result<Parsed>)
    requires data.Obj?
    ensures r == Consolidated(v, data)
  {
    var section := Get(data, "KSI", Obj([]));
    if !section.Obj? {
      return Failure(Raises(".get on a KSI value that is not a dict"));
    }
    var themes := Themes(section);
    var p := Empty;
    var i := 0;
    while i < |themes|
      invariant 0 <= i <= |themes|
      invariant ThemesFold(v, themes[i..], p) == Consolidated(v, data)
    {
      var step := ProcessTheme(v, themes[i].0, themes[i].1, p);
      if step.Failure? {
        return Failure(step.error);
      }
      p := step.value;
      i := i + 1;
    }
    return Success(p);
  }

  // ---------------------------------------------------------------------
  // Properties of parse_ksi_consolidated
  // ---------------------------------------------------------------------

  /** A retired indicator, or one without a statement, emits nothing. */
  lemma RetiredOrSilentSkipped(v: Variant, groupId: string, groupTitle: Json, key: string, ind: Json, p: Parsed)
    requires ind.Obj?
    requires Truthy(Get(ind, "retired", Bool(false))) || !Truthy(IndicatorStatement(ind, "moderate"))
    ensures IndicatorStep(v, groupId, groupTitle, key, ind, p) == Success(p)
  {
  }

  /** `ind` is an indicator the step emits: a dict, not retired, with a
      truthy moderate statement. */
  predicate Emits(ind: Json) {
    ind.Obj? && !Truthy(Get(ind, "retired", Bool(false))) && Truthy(IndicatorStatement(ind, "moderate"))
  }

  /** `q` is `p` with the control for the indicator `ind` appended: under
      the normalised id, with the indicator's title, its cleaned moderate
      statement and following information as parts, and its impact. */
  predicate EmittedOne(v: Variant, groupId: string, groupTitle: Json, key: string, ind: Json, p: Parsed, q: Parsed) {
    && ind.Obj?
    && var controlId := NormalizeControlId(key, "KSI-");
    && var statement := IndicatorStatement(ind, "moderate");
    && statement.Str?
    && TitleOf(v, ind, controlId).Success? && ImpactOf(v, ind).Success?
    && EmittedControl(v, p, q, groupId, groupTitle, controlId, statement.s, TitleOf(v, ind, controlId).value,
                      ImpactOf(v, ind).value, Get(ind, "following_information", Arr([])))
  }

  /** An indicator that is a dict, not retired and has a truthy moderate
      statement appends its control; any other indicator changes nothing;
      either way the results stay consistent and lower case. */
  lemma IndicatorStepEmits(v: Variant, groupId: string, groupTitle: Json, key: string, ind: Json, p: Parsed)
    requires Consistent(p) && LowerIds(p)
    requires IndicatorStep(v, groupId, groupTitle, key, ind, p).Success?
    ensures var q := IndicatorStep(v, groupId, groupTitle, key, ind, p).value;
      && Consistent(q) && LowerIds(q)
      && (Emits(ind) ==> EmittedOne(v, groupId, groupTitle, key, ind, p, q))
      && (!Emits(ind) ==> q == p)
  {
    if Emits(ind) {
      var controlId := NormalizeControlId(key, "KSI-");
      var statement := IndicatorStatement(ind, "moderate");
      var title := TitleOf(v, ind, controlId);
      var impact := ImpactOf(v, ind);
      var info := Get(ind, "following_information", Arr([]));
      assert IndicatorStep(v, groupId, groupTitle, key, ind, p)
          == Emit(v, p, groupId, groupTitle, controlId, statement, title, impact, info);
      EmitConsistent(v, p, groupId, groupTitle, controlId, statement, title, impact, info);
      EmitLower(v, p, groupId, groupTitle, controlId, statement, title, impact, info);
    }
  }

  lemma {:induction false} IndicatorsFoldConsistent(v: Variant, groupId: string, groupTitle: Json,
                                                    inds: seq<(string, Json)>, p: Parsed)
    requires Consistent(p) && LowerIds(p)
    requires IndicatorsFold(v, groupId, groupTitle, inds, p).Success?
    ensures Consistent(IndicatorsFold(v, groupId, groupTitle, inds, p).value)
    ensures LowerIds(IndicatorsFold(v, groupId, groupTitle, inds, p).value)
  {
    if inds != [] {
      IndicatorStepEmits(v, groupId, groupTitle, inds[0].0, inds[0].1, p);
      IndicatorsFoldConsistent(v, groupId, groupTitle, inds[1..],
                               IndicatorStep(v, groupId, groupTitle, inds[0].0, inds[0].1, p).value);
    }
  }

  lemma {:induction false} ThemesFoldConsistent(v: Variant, themes: seq<(string, Json)>, p: Parsed)
    requires Consistent(p) && LowerIds(p)
    requires ThemesFold(v, themes, p).Success?
    ensures Consistent(ThemesFold(v, themes, p).value) && LowerIds(ThemesFold(v, themes, p).value)
  {
    if themes != [] {
      var (key, theme) := themes[0];
      var q := ThemeStep(v, key, theme, p).value;
      if !(key == "info" || key == "data" || !theme.Obj?) {
        var groupId := ThemeGroupId(theme, key).value;
        var inds := Get(theme, "indicators", Obj([]));
        if inds.Obj? {
          IndicatorsFoldConsistent(v, groupId, ThemeTitle(v, theme, groupId), inds.fields, p);
        }
      }
      ThemesFoldConsistent(v, themes[1..], q);
    }
  }

  /** Whatever `parse_ksi_consolidated` returns is consistent: every control
      is well shaped, lower case, and has a complete impact entry, and
      following information is recorded only for emitted controls. */
  lemma ConsolidatedConsistent(v: Variant, data: Json)
    requires data.Obj? && Consolidated(v, data).Success?
    ensures Consistent(Consolidated(v, data).value)
    ensures LowerIds(Consolidated(v, data).value)
  {
    ThemesFoldConsistent(v, Themes(Get(data, "KSI", Obj([]))), Empty);
  }

  /** The ids and group ids of the emitted controls, in order. */
  function Ids(p: Parsed): seq<(string, string)> {
    seq(|p.controls|, i requires 0 <= i < |p.controls| => (p.controls[i].groupId, p.controls[i].control.id))
  }

  lemma IdsAppend(p: Parsed, q: Parsed, e: Entry)
    requires q.controls == p.controls + [e]
    ensures Ids(q) == Ids(p) + [(e.groupId, e.control.id)]
  {
  }

  lemma IndicatorStepVariants(groupId: string, t1: Json, t2: Json, key: string, ind: Json, p1: Parsed, p2: Parsed)
    requires Ids(p1) == Ids(p2)
    requires IndicatorStep(Production, groupId, t1, key, ind, p1).Success?
    requires IndicatorStep(TestCopy, groupId, t2, key, ind, p2).Success?
    ensures Ids(IndicatorStep(Production, groupId, t1, key, ind, p1).value)
         == Ids(IndicatorStep(TestCopy, groupId, t2, key, ind, p2).value)
  {
    if ind.Obj? && !Truthy(Get(ind, "retired", Bool(false))) {
      var controlId := NormalizeControlId(key, "KSI-");
      var statement := IndicatorStatement(ind, "moderate");
      if Truthy(statement) {
        var info := Get(ind, "following_information", Arr([]));
        var e1 := Entry(groupId, t1, Control(controlId, TitleOf(Production, ind, controlId).value,
          ControlParts(controlId, CleanProse(Production, statement.s), ItemParts(Production, controlId, info).value)));
        var e2 := Entry(groupId, t2, Control(controlId, TitleOf(TestCopy, ind, controlId).value,
          ControlParts(controlId, CleanProse(TestCopy, statement.s), ItemParts(TestCopy, controlId, info).value)));
        IdsAppend(p1, IndicatorStep(Production, groupId, t1, key, ind, p1).value, e1);
        IdsAppend(p2, IndicatorStep(TestCopy, groupId, t2, key, ind, p2).value, e2);
      }
    }
  }

  lemma {:induction false} IndicatorsFoldVariants(groupId: string, t1: Json, t2: Json,
                                                  inds: seq<(string, Json)>, p1: Parsed, p2: Parsed)
    requires Ids(p1) == Ids(p2)
    requires IndicatorsFold(Production, groupId, t1, inds, p1).Success?
    requires IndicatorsFold(TestCopy, groupId, t2, inds, p2).Success?
    ensures Ids(IndicatorsFold(Production, groupId, t1, inds, p1).value)
         == Ids(IndicatorsFold(TestCopy, groupId, t2, inds, p2).value)
  {
    if inds != [] {
      IndicatorStepVariants(groupId, t1, t2, inds[0].0, inds[0].1, p1, p2);
      IndicatorsFoldVariants(groupId, t1, t2, inds[1..],
        IndicatorStep(Production, groupId, t1, inds[0].0, inds[0].1, p1).value,
        IndicatorStep(TestCopy, groupId, t2, inds[0].0, inds[0].1, p2).value);
    }
  }

  lemma {:induction false} ThemesFoldVariants(themes: seq<(string, Json)>, p1: Parsed, p2: Parsed)
    requires Ids(p1) == Ids(p2)
    requires ThemesFold(Production, themes, p1).Success? && ThemesFold(TestCopy, themes, p2).Success?
    ensures Ids(ThemesFold(Production, themes, p1).value) == Ids(ThemesFold(TestCopy, themes, p2).value)
  {
    if themes != [] {
      var (key, theme) := themes[0];
      if !(key == "info" || key == "data" || !theme.Obj?) {
        var groupId := ThemeGroupId(theme, key).value;
        var inds := Get(theme, "indicators", Obj([]));
        if inds.Obj? {
          IndicatorsFoldVariants(groupId, ThemeTitle(Production, theme, groupId), ThemeTitle(TestCopy, theme, groupId),
                                 inds.fields, p1, p2);
        }
      }
      ThemesFoldVariants(themes[1..], ThemeStep(Production, key, theme, p1).value,
                         ThemeStep(TestCopy, key, theme, p2).value);
    }
  }

  /** When both succeed, the module's parser and the test file's copy emit
      the same controls, under the same groups, in the same order; they
      differ only in titles, prose and impacts. */
  lemma ConsolidatedVariantsSameIds(data: Json)
    requires data.Obj?
    requires Consolidated(Production, data).Success? && Consolidated(TestCopy, data).Success?
    ensures Ids(Consolidated(Production, data).value) == Ids(Consolidated(TestCopy, data).value)
  {
    ThemesFoldVariants(Themes(Get(data, "KSI", Obj([]))), Empty, Empty);
  }

  // ---------------------------------------------------------------------
  // parse_ksi_indicators_legacy
  // ---------------------------------------------------------------------

  /** One legacy indicator: skipped unless it is a dict whose `id` starts
      with `KSI-`, is not retired and has a truthy `statement`. */
  function LegacyIndicatorStep(groupId: string, groupTitle: Json, ind: Json, p: Parsed): Result<Parsed> {
    if !ind.Obj? then Success(p)
    else
      var id := Get(ind, "id", Str(""));
      if !Truthy(id) then Success(p)
      else if !id.Str? then Failure(Raises("startswith on an id that is not text"))
      else if !StartsWith(id.s, "KSI-") || Truthy(Get(ind, "retired", Bool(false))) then Success(p)
      else
        var controlId := NormalizeControlId(id.s, "KSI-");
        var statement := Get(ind, "statement", Str(""));
        if !Truthy(statement) then Success(p)
        else Emit(Production, p, groupId, groupTitle, controlId, statement, TitleOf(Production, ind, controlId),
                  Success(LegacyImpact(ind)), Get(ind, "following_information", Arr([])))
  }

  function LegacyIndicatorsFold(groupId: string, groupTitle: Json, inds: seq<Json>, p: Parsed): Result<Parsed> {
    if inds == [] then Success(p)
    else
      match LegacyIndicatorStep(groupId, groupTitle, inds[0], p)
      case Failure(e) => Failure(e)
      case Success(q) => LegacyIndicatorsFold(groupId, groupTitle, inds[1..], q)
  }

  /** One section of the legacy `KSI` dict: its key is the group id. */
  function LegacySectionStep(key: string, section: Json, p: Parsed): Result<Parsed> {
    if !section.Obj? || !Has(section, "indicators") then Success(p)
    else
      var groupTitle := ThemeTitle(Production, section, key);
      match Iterate(Get(section, "indicators", Arr([])))
      case None => Failure(Raises("iteration over indicators that are not iterable"))
      case Some(inds) => LegacyIndicatorsFold(key, groupTitle, inds, p)
  }

  function LegacySectionsFold(sections: seq<(string, Json)>, p: Parsed): Result<Parsed> {
    if sections == [] then Success(p)
    else
      match LegacySectionStep(sections[0].0, sections[0].1, p)
      case Failure(e) => Failure(e)
      case Success(q) => LegacySectionsFold(sections[1..], q)
  }

  /** `parse_ksi_indicators_legacy`. */
  function Legacy(data: Json): Result<Parsed>
    requires data.Obj?
  {
    match Lookup(data.fields, "KSI")
    case None => Success(Empty)
    case Some(ksi) =>
      if ksi.Obj? then LegacySectionsFold(ksi.fields, Empty)
      else Failure(Raises(".items() on a KSI value that is not a dict"))
  }

  method ProcessLegacyIndicator(groupId: string, groupTitle: Json, ind: Json, p: Parsed) returns (r: Result<Parsed>)
    ensures r == LegacyIndicatorStep(groupId, groupTitle, ind, p)
  {
    if !ind.Obj? {
      return Success(p);
    }
    var id := Get(ind, "id", Str(""));
    if !Truthy(id) {
      return Success(p);
    }
    if !id.Str? {
      return Failure(Raises("startswith on an id that is not text"));
    }
    if !StartsWith(id.s, "KSI-") {
      return Success(p);
    }
    if Truthy(Get(ind, "retired", Bool(false))) {
      return Success(p);
    }
    var controlId := NormalizeControlId(id.s, "KSI-");
    var statement := Get(ind, "statement", Str(""));
    if !Truthy(statement) {
      return Success(p);
    }
    var title := TitleOf(Production, ind, controlId);
    var info := Get(ind, "following_information", Arr([]));
    r := EmitControl(Production, p, groupId, groupTitle, controlId, statement, title, Success(LegacyImpact(ind)), info);
  }

  /** The body of the section loop. */
  method ProcessLegacyKsiSection(key: string, section: Json, p: Parsed) returns (r: Result<Parsed>)
    ensures r == LegacySectionStep(key, section, p)
  {
    if !section.Obj? || !Has(section, "indicators") {
      return Success(p);
    }
    var groupTitle := ThemeTitle(Production, section, key);
    var inds := Iterate(Get(section, "indicators", Arr([])));
    if inds.None? {
      return Failure(Raises("iteration over indicators that are not iterable"));
    }
    r := ProcessLegacyIndicators(key, groupTitle, inds.value, p);
  }

  /** The indicator loop of one legacy section. */
  method ProcessLegacyIndicators(groupId: string, groupTitle: Json, inds: seq<Json>, p: Parsed) returns (r: Result<Parsed>)
    ensures r == LegacyIndicatorsFold(groupId, groupTitle, inds, p)
  {
    var q := p;
    var j := 0;
    while j < |inds|
      invariant 0 <= j <= |inds|
      invariant LegacyIndicatorsFold(groupId, groupTitle, inds[j..], q) == LegacyIndicatorsFold(groupId, groupTitle, inds, p)
    {
      var step := ProcessLegacyIndicator(groupId, groupTitle, inds[j], q);
      assert inds[j..][0] == inds[j] && inds[j..][1..] == inds[j + 1..];
      if step.Failure? {
        return Failure(step.error);
      }
      q := step.value;
      j := j + 1;
    }
    return Success(q);
  }

  method ParseKsiIndicatorsLegacy(data: Json) returns (r: Result<Parsed>)
    requires data.Obj?
    ensures r == Legacy(data)
  {
    var ksi := Lookup(data.fields, "KSI");
    if ksi.None? {
      return Success(Empty);
    }
    if !ksi.value.Obj? {
      return Failure(Raises(".items() on a KSI value that is not a dict"));
    }
    var sections := ksi.value.fields;
    var p := Empty;
    var i := 0;
    while i < |sections|
      invariant 0 <= i <= |sections|
      invariant LegacySectionsFold(sections[i..], p) == Legacy(data)
    {
      var step := ProcessLegacyKsiSection(sections[i].0, sections[i].1, p);
      if step.Failure? {
        return Failure(step.error);
      }
      p := step.value;
      i := i + 1;
    }
    return Success(p);
  }

  /** A legacy indicator whose id does not start with `KSI-` emits nothing. */
  lemma LegacyForeignIdSkipped(groupId: string, groupTitle: Json, ind: Json, p: Parsed)
    requires ind.Obj? && Get(ind, "id", Str("")).Str? && !StartsWith(Get(ind, "id", Str("")).s, "KSI-")
    ensures LegacyIndicatorStep(groupId, groupTitle, ind, p) == Success(p)
  {
  }

  /** `ind` is an indicator the legacy loop emits: a dict with a text `KSI-`
      id, not retired, with a truthy `statement`. */
  predicate LegacyEmits(ind: Json) {
    && ind.Obj?
    && Get(ind, "id", Str("")).Str? && StartsWith(Get(ind, "id", Str("")).s, "KSI-")
    && !Truthy(Get(ind, "retired", Bool(false)))
    && Truthy(Get(ind, "statement", Str("")))
  }

  /** An indicator the legacy loop emits appends its control: under the
      normalised id, with its title, its cleaned `statement` and following
      information as parts, and the flags of its `impact` dict; any other
      indicator that does not raise changes nothing. */
  lemma LegacyIndicatorStepEmits(groupId: string, groupTitle: Json, ind: Json, p: Parsed)
    requires LegacyIndicatorStep(groupId, groupTitle, ind, p).Success?
    ensures var q := LegacyIndicatorStep(groupId, groupTitle, ind, p).value;
      && (LegacyEmits(ind) ==>
            var controlId := NormalizeControlId(Get(ind, "id", Str("")).s, "KSI-");
            var statement := Get(ind, "statement", Str(""));
            && statement.Str? && TitleOf(Production, ind, controlId).Success?
            && EmittedControl(Production, p, q, groupId, groupTitle, controlId, statement.s,
                              TitleOf(Production, ind, controlId).value, LegacyImpact(ind),
                              Get(ind, "following_information", Arr([]))))
      && (!LegacyEmits(ind) ==> q == p)
  {
    if LegacyEmits(ind) {
      var id := Get(ind, "id", Str(""));
      assert |id.s| >= 4;
      assert Truthy(id);
      var controlId := NormalizeControlId(id.s, "KSI-");
      var statement := Get(ind, "statement", Str(""));
      var title := TitleOf(Production, ind, controlId);
      var info := Get(ind, "following_information", Arr([]));
      assert LegacyIndicatorStep(groupId, groupTitle, ind, p)
          == Emit(Production, p, groupId, groupTitle, controlId, statement, title, Success(LegacyImpact(ind)), info);
      EmitShape(Production, p, groupId, groupTitle, controlId, statement, title, Success(LegacyImpact(ind)), info);
    }
  }

  lemma LegacyIndicatorStepConsistent(groupId: string, groupTitle: Json, ind: Json, p: Parsed)
    requires Consistent(p) && LowerIds(p)
    requires LegacyIndicatorStep(groupId, groupTitle, ind, p).Success?
    ensures var q := LegacyIndicatorStep(groupId, groupTitle, ind, p).value;
      Consistent(q) && LowerIds(q)
  {
    if ind.Obj? {
      var id := Get(ind, "id", Str(""));
      if Truthy(id) && id.Str? && StartsWith(id.s, "KSI-") && !Truthy(Get(ind, "retired", Bool(false))) {
        var controlId := NormalizeControlId(id.s, "KSI-");
        var statement := Get(ind, "statement", Str(""));
        if Truthy(statement) {
          var title := TitleOf(Production, ind, controlId);
          var impact := Success(LegacyImpact(ind));
          var info := Get(ind, "following_information", Arr([]));
          EmitConsistent(Production, p, groupId, groupTitle, controlId, statement, title, impact, info);
          EmitLower(Production, p, groupId, groupTitle, controlId, statement, title, impact, info);
        }
      }
    }
  }

  lemma {:induction false} LegacyIndicatorsFoldConsistent(groupId: string, groupTitle: Json, inds: seq<Json>, p: Parsed)
    requires Consistent(p) && LowerIds(p)
    requires LegacyIndicatorsFold(groupId, groupTitle, inds, p).Success?
    ensures Consistent(LegacyIndicatorsFold(groupId, groupTitle, inds, p).value)
    ensures LowerIds(LegacyIndicatorsFold(groupId, groupTitle, inds, p).value)
  {
    if inds != [] {
      LegacyIndicatorStepConsistent(groupId, groupTitle, inds[0], p);
      LegacyIndicatorsFoldConsistent(groupId, groupTitle, inds[1..], LegacyIndicatorStep(groupId, groupTitle, inds[0], p).value);
    }
  }

  lemma {:induction false} LegacySectionsFoldConsistent(sections: seq<(string, Json)>, p: Parsed)
    requires Consistent(p) && LowerIds(p)
    requires LegacySectionsFold(sections, p).Success?
    ensures Consistent(LegacySectionsFold(sections, p).value) && LowerIds(LegacySectionsFold(sections, p).value)
  {
    if sections != [] {
      var (key, section) := sections[0];
      if section.Obj? && Has(section, "indicators") {
        LegacyIndicatorsFoldConsistent(key, ThemeTitle(Production, section, key),
                                       Iterate(Get(section, "indicators", Arr([]))).value, p);
      }
      LegacySectionsFoldConsistent(sections[1..], LegacySectionStep(key, section, p).value);
    }
  }

  /** Whatever `parse_ksi_indicators_legacy` returns is consistent and lower
      case. */
  lemma LegacyConsistent(data: Json)
    requires data.Obj? && Legacy(data).Success?
    ensures Consistent(Legacy(data).value) && LowerIds(Legacy(data).value)
  {
    if Lookup(data.fields, "KSI").Some? {
      LegacySectionsFoldConsistent(Lookup(data.fields, "KSI").value.fields, Empty);
    }
  }
}
