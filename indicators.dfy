/** What one KSI indicator or FRR requirement says: its statement text and the
    impact levels it applies to. */
module Indicators {
  import opened Json
  import opened Text
  import opened Prose

  datatype Level = Low | Moderate | High

  function LevelName(l: Level): string {
    match l
    case Low => "low"
    case Moderate => "moderate"
    case High => "high"
  }

  lemma EveryLevel(l: Level)
    ensures l == Low || l == Moderate || l == High
  {
    match l
    case Low =>
    case Moderate =>
    case High =>
  }

  /** The levels in the order `extract_impact_from_indicator` visits them. */
  const Levels: seq<Level> := [Low, Moderate, High]

  /** The order in which a statement is looked for when the requested level
      gives none. */
  const FallbackOrder: seq<string> := ["moderate", "low", "high"]

  /** Which impact levels a control belongs to. */
  type Impact = map<Level, bool>

  predicate Complete(i: Impact) {
    forall l: Level :: l in i
  }

  /** The value stored under a level name in a `varies_by_level` dict. */
  function LevelData(varies: Json, name: string): Option<Json>
    requires varies.Obj?
  {
    Lookup(varies.fields, name)
  }

  /** The statement a level's data holds: its `statement` field for a dict,
      the text itself for a string, the empty string otherwise. */
  function LevelStatement(levelData: Json): Json {
    if levelData.Obj? then Get(levelData, "statement", Str(""))
    else if levelData.Str? then levelData
    else Str("")
  }

  /** `varies_by_level` when it is a non-empty dict. */
  predicate HasVaries(indicator: Json)
    requires indicator.Obj?
  {
    var varies := Get0(indicator, "varies_by_level");
    Truthy(varies) && varies.Obj?
  }

  // ---------------------------------------------------------------------
  // get_indicator_statement
  // ---------------------------------------------------------------------

  /** The level `name` is present and its statement is truthy. */
  predicate GivesStatement(varies: Json, name: string)
    requires varies.Obj?
  {
    LevelData(varies, name).Some? && Truthy(LevelStatement(LevelData(varies, name).value))
  }

  /** The first present level among `levels` whose statement is truthy. */
  function FallbackStatement(varies: Json, levels: seq<string>): (r: Json)
    requires varies.Obj?
    ensures Truthy(r) || r == Str("")
  {
    if levels == [] then Str("")
    else if GivesStatement(varies, levels[0]) then LevelStatement(LevelData(varies, levels[0]).value)
    else FallbackStatement(varies, levels[1..])
  }

  /** The fallback is the statement of the first level in `levels` that
      gives one, every earlier level being absent or without a truthy
      statement; when no level gives one it is the empty string. */
  lemma {:induction false} FallbackFirst(varies: Json, levels: seq<string>) returns (k: nat)
    requires varies.Obj?
    ensures k <= |levels|
    ensures forall j :: 0 <= j < k ==> !GivesStatement(varies, levels[j])
    ensures k < |levels| ==>
      GivesStatement(varies, levels[k]) && FallbackStatement(varies, levels) == LevelStatement(LevelData(varies, levels[k]).value)
    ensures k == |levels| ==> FallbackStatement(varies, levels) == Str("")
  {
    if levels == [] {
      k := 0;
    } else if GivesStatement(varies, levels[0]) {
      k := 0;
    } else {
      var k1 := FallbackFirst(varies, levels[1..]);
      k := k1 + 1;
      forall j | 0 <= j < k ensures !GivesStatement(varies, levels[j]) {
        if j > 0 {
          assert levels[j] == levels[1..][j - 1];
        }
      }
      if k1 < |levels[1..]| {
        assert levels[k] == levels[1..][k1];
      }
    }
  }

  /** `get_indicator_statement`: the `statement` field when truthy; else,
      when the indicator varies by level, the requested level's statement if
      that level holds a dict or string (even an empty one), otherwise the
      first truthy statement of moderate, low, high; else the empty string. */
  function IndicatorStatement(indicator: Json, level: string): (r: Json)
    requires indicator.Obj?
    ensures Truthy(Get(indicator, "statement", Str(""))) ==> r == Get(indicator, "statement", Str(""))
  {
    var statement := Get(indicator, "statement", Str(""));
    if Truthy(statement) then statement
    else if HasVaries(indicator) then
      var varies := Get0(indicator, "varies_by_level");
      var data := LevelData(varies, level);
      if data.Some? && (data.value.Obj? || data.value.Str?) then LevelStatement(data.value)
      else FallbackStatement(varies, FallbackOrder)
    else Str("")
  }

  method GetIndicatorStatement(indicator: Json, level: string) returns (r: Json)
    requires indicator.Obj?
    ensures r == IndicatorStatement(indicator, level)
  {
    var statement := Get(indicator, "statement", Str(""));
    if Truthy(statement) {
      return statement;
    }
    var varies := Get0(indicator, "varies_by_level");
    if Truthy(varies) && varies.Obj? {
      var data := LevelData(varies, level);
      if data.Some? {
        if data.value.Obj? {
          return Get(data.value, "statement", Str(""));
        } else if data.value.Str? {
          return data.value;
        }
      }
      var i := 0;
      while i < |FallbackOrder|
        invariant 0 <= i <= |FallbackOrder|
        invariant FallbackStatement(varies, FallbackOrder[i..]) == FallbackStatement(varies, FallbackOrder)
      {
        var fallback := FallbackOrder[i];
        var levelData := LevelData(varies, fallback);
        if levelData.Some? {
          var stmt: Json;
          if levelData.value.Obj? {
            stmt := Get(levelData.value, "statement", Str(""));
          } else if levelData.value.Str? {
            stmt := levelData.value;
          } else {
            stmt := Str("");
          }
          if Truthy(stmt) {
            return stmt;
          }
        }
        i := i + 1;
      }
    }
    return Str("");
  }

  /** A truthy statement always comes from the indicator: its own `statement`
      field or the statement of one of its levels. */
  lemma IndicatorStatementOrigin(indicator: Json, level: string)
    requires indicator.Obj?
    requires Truthy(IndicatorStatement(indicator, level))
    ensures var r := IndicatorStatement(indicator, level);
      r == Get(indicator, "statement", Str(""))
      || (HasVaries(indicator) &&
          exists name :: LevelData(Get0(indicator, "varies_by_level"), name).Some? &&
            r == LevelStatement(LevelData(Get0(indicator, "varies_by_level"), name).value))
  {
    var r := IndicatorStatement(indicator, level);
    if r != Get(indicator, "statement", Str("")) {
      var varies := Get0(indicator, "varies_by_level");
      var data := LevelData(varies, level);
      if !(data.Some? && (data.value.Obj? || data.value.Str?)) {
        var name := FallbackOrigin(varies, FallbackOrder);
      }
    }
  }

  lemma {:induction false} FallbackOrigin(varies: Json, levels: seq<string>) returns (name: string)
    requires varies.Obj? && Truthy(FallbackStatement(varies, levels))
    ensures name in levels && LevelData(varies, name).Some?
    ensures FallbackStatement(varies, levels) == LevelStatement(LevelData(varies, name).value)
  {
    if LevelData(varies, levels[0]).Some? && Truthy(LevelStatement(LevelData(varies, levels[0]).value)) {
      name := levels[0];
    } else {
      name := FallbackOrigin(varies, levels[1..]);
    }
  }

  /** A level that is listed with plain text gives that text when the
      indicator has no truthy `statement` field. */
  lemma IndicatorStatementRequestedText(indicator: Json, level: string, text: string)
    requires indicator.Obj? && !Truthy(Get(indicator, "statement", Str("")))
    requires HasVaries(indicator)
    requires LevelData(Get0(indicator, "varies_by_level"), level) == Some(Str(text))
    ensures IndicatorStatement(indicator, level) == Str(text)
  {
  }

  /** A requested level holding a dict gives that dict's `statement`, even an
      empty one, when the indicator has no truthy `statement` field; the
      fallback levels are then not consulted. */
  lemma IndicatorStatementRequestedDict(indicator: Json, level: string, data: Json)
    requires indicator.Obj? && !Truthy(Get(indicator, "statement", Str("")))
    requires HasVaries(indicator)
    requires LevelData(Get0(indicator, "varies_by_level"), level) == Some(data) && data.Obj?
    ensures IndicatorStatement(indicator, level) == Get(data, "statement", Str(""))
  {
  }

  /** Otherwise, when the requested level is absent or holds neither a dict
      nor text, the statement is the first truthy one of moderate, low and
      high, or the empty string when none of them has one. */
  lemma IndicatorStatementFallback(indicator: Json, level: string) returns (k: nat)
    requires indicator.Obj? && !Truthy(Get(indicator, "statement", Str("")))
    requires HasVaries(indicator)
    requires var data := LevelData(Get0(indicator, "varies_by_level"), level);
      data.None? || !(data.value.Obj? || data.value.Str?)
    ensures var varies := Get0(indicator, "varies_by_level");
      && k <= 3
      && (forall j :: 0 <= j < k ==> !GivesStatement(varies, FallbackOrder[j]))
      && (k < 3 ==>
            GivesStatement(varies, FallbackOrder[k])
            && IndicatorStatement(indicator, level) == LevelStatement(LevelData(varies, FallbackOrder[k]).value))
      && (k == 3 ==> IndicatorStatement(indicator, level) == Str(""))
  {
    k := FallbackFirst(Get0(indicator, "varies_by_level"), FallbackOrder);
  }

  /** When the requested level is absent, the statement does not depend on
      which level was requested. */
  lemma IndicatorStatementAbsentLevel(indicator: Json, level1: string, level2: string)
    requires indicator.Obj? && HasVaries(indicator)
    requires LevelData(Get0(indicator, "varies_by_level"), level1).None?
    requires LevelData(Get0(indicator, "varies_by_level"), level2).None?
    ensures IndicatorStatement(indicator, level1) == IndicatorStatement(indicator, level2)
  {
  }

  /** The examples the test file checks for `get_indicator_statement`. */
  lemma IndicatorStatementExamples()
    ensures IndicatorStatement(Obj([("statement", Str("Direct"))]), "moderate") == Str("Direct")
    ensures IndicatorStatement(
      Obj([("varies_by_level", Obj([("moderate", Obj([("statement", Str("Moderate statement"))]))]))]),
      "moderate") == Str("Moderate statement")
  {
    var ind := Obj([("varies_by_level", Obj([("moderate", Obj([("statement", Str("Moderate statement"))]))]))]);
    assert Get(ind, "statement", Str("")) == Str("");
    assert HasVaries(ind);
  }

  // ---------------------------------------------------------------------
  // The statement loop of _process_single_frr_requirement
  // ---------------------------------------------------------------------

  /** One step of the FRR statement loop: a present level replaces the
      statement with its dict's `statement` field or its text; data of any
      other type leaves the statement as it was. */
  function FrrCandidate(varies: Json, name: string, current: Json): Json
    requires varies.Obj?
  {
    match LevelData(varies, name)
    case None => current
    case Some(data) =>
      if data.Obj? then Get(data, "statement", Str(""))
      else if data.Str? then data
      else current
  }

  function FrrLevels(varies: Json, levels: seq<string>, current: Json): Json
    requires varies.Obj?
  {
    if levels == [] then current
    else
      var next := FrrCandidate(varies, levels[0], current);
      if Truthy(next) then next else FrrLevels(varies, levels[1..], next)
  }

  /** The statement `_process_single_frr_requirement` uses: the `statement`
      field when truthy, else the first truthy level statement in the order
      moderate, low, high. */
  function FrrStatement(req: Json): (r: Json)
    requires req.Obj?
    ensures Truthy(Get(req, "statement", Str(""))) ==> r == Get(req, "statement", Str(""))
  {
    var statement := Get(req, "statement", Str(""));
    if Truthy(statement) then statement
    else if HasVaries(req) then FrrLevels(Get0(req, "varies_by_level"), FallbackOrder, statement)
    else statement
  }

  /** The statement lookup of `_process_single_frr_requirement`, as the loop
      over moderate, low, high that it is. */
  method GetFrrStatement(req: Json) returns (r: Json)
    requires req.Obj?
    ensures r == FrrStatement(req)
  {
    var statement := Get(req, "statement", Str(""));
    if Truthy(statement) {
      return statement;
    }
    var varies := Get0(req, "varies_by_level");
    if Truthy(varies) && varies.Obj? {
      ghost var initial := statement;
      var i := 0;
      while i < |FallbackOrder|
        invariant 0 <= i <= |FallbackOrder|
        invariant !Truthy(statement)
        invariant FrrLevels(varies, FallbackOrder[i..], statement) == FrrLevels(varies, FallbackOrder, initial)
      {
        var levelData := LevelData(varies, FallbackOrder[i]);
        if levelData.Some? {
          if levelData.value.Obj? {
            statement := Get(levelData.value, "statement", Str(""));
          } else if levelData.value.Str? {
            statement := levelData.value;
          }
          if Truthy(statement) {
            return statement;
          }
        }
        i := i + 1;
      }
    }
    return statement;
  }

  lemma {:induction false} FrrLevelsFallback(varies: Json, levels: seq<string>, current: Json)
    requires varies.Obj? && !Truthy(current)
    ensures Truthy(FrrLevels(varies, levels, current)) <==> Truthy(FallbackStatement(varies, levels))
    ensures Truthy(FallbackStatement(varies, levels)) ==>
      FrrLevels(varies, levels, current) == FallbackStatement(varies, levels)
  {
    if levels != [] {
      var next := FrrCandidate(varies, levels[0], current);
      if !Truthy(next) {
        FrrLevelsFallback(varies, levels[1..], next);
      }
    }
  }

  /** The FRR statement loop and `get_indicator_statement` at moderate agree
      whenever the latter finds a statement; the loop also finds one in some
      cases where it does not (see `FrrStatementFindsMore`). */
  lemma FrrStatementAgrees(req: Json)
    requires req.Obj? && Truthy(IndicatorStatement(req, "moderate"))
    ensures FrrStatement(req) == IndicatorStatement(req, "moderate")
  {
    var statement := Get(req, "statement", Str(""));
    if !Truthy(statement) {
      var varies := Get0(req, "varies_by_level");
      FrrLevelsFallback(varies, FallbackOrder, statement);
    }
  }

  /** A requirement whose moderate level holds an empty statement and whose
      low level holds text: the FRR loop takes the low text, while
      `get_indicator_statement` stops at the empty moderate statement. */
  lemma FrrStatementFindsMore()
    ensures var req := Obj([("varies_by_level", Obj([
                          ("moderate", Obj([("statement", Str(""))])),
                          ("low", Str("Low text"))]))]);
      FrrStatement(req) == Str("Low text") && IndicatorStatement(req, "moderate") == Str("")
  {
    var varies := Obj([("moderate", Obj([("statement", Str(""))])), ("low", Str("Low text"))]);
    var req := Obj([("varies_by_level", varies)]);
    assert Get(req, "statement", Str("")) == Str("");
    assert HasVaries(req);
    assert LevelData(varies, "moderate") == Some(Obj([("statement", Str(""))]));
    assert LevelData(varies, "low") == Some(Str("Low text"));
    assert FrrCandidate(varies, "moderate", Str("")) == Str("");
    assert FrrLevels(varies, ["low", "high"], Str("")) == Str("Low text");
  }

  // ---------------------------------------------------------------------
  // extract_impact_from_indicator
  // ---------------------------------------------------------------------

  /** `stmt and ("**Optional:**" in stmt or "Optional:" in stmt)`: a
      substring test on text, a membership test on a list, a key test on a
      dict; Python raises on a truthy number or boolean. */
  function OptionalMarked(stmt: Json): Result<bool> {
    if !Truthy(stmt) then Success(false)
    else
      match stmt
      case Str(s) => Success(Contains(s, "**Optional:**") || Contains(s, "Optional:"))
      case Arr(items) => Success(Str("**Optional:**") in items || Str("Optional:") in items)
      case Obj(fields) => Success(Has(stmt, "**Optional:**") || Has(stmt, "Optional:"))
      case _ => Failure(Raises("'in' on a non-container statement"))
  }

  /** On text the bold marker test is subsumed by the plain one. */
  lemma OptionalMarkedText(s: string)
    ensures OptionalMarked(Str(s)) == Success(Contains(s, "Optional:"))
  {
    if Contains(s, "**Optional:**") {
      ContainsWitness(s, "**Optional:**");
      var k: nat :| OccursAt(s, "**Optional:**", k);
      assert OccursAt("**Optional:**", "Optional:", 2);
      OccursWithin(s, "**Optional:**", "Optional:", k, 2);
      ContainsAt(s, "Optional:", k + 2);
    }
  }

  /** Whether a level present in `varies_by_level` applies. The test copy
      counts every present level; the module drops a level whose statement
      carries an `Optional:` marker. */
  function LevelApplies(v: Variant, levelData: Json): Result<bool> {
    if v == TestCopy then Success(true)
    else
      match OptionalMarked(LevelStatement(levelData))
      case Success(marked) => Success(!marked)
      case Failure(e) => Failure(e)
  }

  function AllLevels(b: bool): (r: Impact)
    ensures Complete(r)
  {
    var r := map[Low := b, Moderate := b, High := b];
    assert Complete(r) by {
      forall l: Level ensures l in r { EveryLevel(l); }
    }
    r
  }

  /** The impacts of the levels `levels`, visited in order, over `acc`. */
  function VariesImpact(v: Variant, varies: Json, levels: seq<Level>, acc: Impact): (r: Result<Impact>)
    requires varies.Obj?
    ensures Complete(acc) && r.Success? ==> Complete(r.value)
  {
    if levels == [] then Success(acc)
    else
      match LevelData(varies, LevelName(levels[0]))
      case None => VariesImpact(v, varies, levels[1..], acc)
      case Some(data) =>
        match LevelApplies(v, data)
        case Failure(e) => Failure(e)
        case Success(b) => VariesImpact(v, varies, levels[1..], acc[levels[0] := b])
  }

  /** The legacy `impact` dict, read by truthiness. */
  function LegacyImpact(indicator: Json): (r: Impact)
    requires indicator.Obj?
    ensures Complete(r)
  {
    var r := map[Low := LegacyFlag(indicator, Low), Moderate := LegacyFlag(indicator, Moderate),
                 High := LegacyFlag(indicator, High)];
    assert Complete(r) by {
      forall l: Level ensures l in r { EveryLevel(l); }
    }
    r
  }

  /** Each level of the legacy impact is that level's flag in the
      indicator's `impact` dict, false when the dict lacks it or is not a
      dict. */
  lemma LegacyImpactFlags(indicator: Json)
    requires indicator.Obj?
    ensures forall l: Level :: LegacyImpact(indicator)[l] == LegacyFlag(indicator, l)
  {
    forall l: Level ensures LegacyImpact(indicator)[l] == LegacyFlag(indicator, l) { EveryLevel(l); }
  }

  /** A level's flag in the legacy `impact` dict: `old_impact.get(level,
      False)` taken for its truth, and false when `impact` is not a dict. */
  function LegacyFlag(indicator: Json, l: Level): bool
    requires indicator.Obj?
  {
    var given := Get(indicator, "impact", Obj([]));
    given.Obj? && Truthy(Get(given, LevelName(l), Bool(false)))
  }

  /** Without `varies_by_level` and without a truthy `statement`, the impact
      is read from the legacy `impact` dict. */
  lemma ImpactOfLegacy(v: Variant, indicator: Json)
    requires indicator.Obj? && !HasVaries(indicator) && !Truthy(Get0(indicator, "statement"))
    ensures ImpactOf(v, indicator) == Success(LegacyImpact(indicator))
    ensures forall l: Level :: ImpactOf(v, indicator).value[l] == LegacyFlag(indicator, l)
  {
    LegacyImpactFlags(indicator);
  }

  /** `extract_impact_from_indicator`. */
  function ImpactOf(v: Variant, indicator: Json): (r: Result<Impact>)
    requires indicator.Obj?
    ensures r.Success? ==> Complete(r.value)
  {
    if HasVaries(indicator) then VariesImpact(v, Get0(indicator, "varies_by_level"), Levels, AllLevels(false))
    else if Truthy(Get0(indicator, "statement")) then Success(AllLevels(true))
    else Success(LegacyImpact(indicator))
  }

  method ExtractImpact(v: Variant, indicator: Json) returns (r: Result<Impact>)
    requires indicator.Obj?
    ensures r == ImpactOf(v, indicator)
  {
    var impact := AllLevels(false);
    var varies := Get0(indicator, "varies_by_level");
    if Truthy(varies) && varies.Obj? {
      var i := 0;
      while i < |Levels|
        invariant 0 <= i <= |Levels|
        invariant VariesImpact(v, varies, Levels[i..], impact) == ImpactOf(v, indicator)
      {
        var level := Levels[i];
        var data := LevelData(varies, LevelName(level));
        if data.Some? {
          var applies := LevelApplies(v, data.value);
          if applies.Failure? {
            return Failure(applies.error);
          }
          impact := impact[level := applies.value];
        }
        i := i + 1;
      }
      return Success(impact);
    }
    if Truthy(Get0(indicator, "statement")) {
      return Success(AllLevels(true));
    }
    return Success(LegacyImpact(indicator));
  }

  lemma {:induction false} VariesImpactMeaning(v: Variant, varies: Json, levels: seq<Level>, acc: Impact)
    requires varies.Obj? && Complete(acc)
    requires VariesImpact(v, varies, levels, acc).Success?
    ensures var r := VariesImpact(v, varies, levels, acc).value;
      forall l :: r[l] == if l in levels && LevelData(varies, LevelName(l)).Some?
                          then LevelApplies(v, LevelData(varies, LevelName(l)).value) == Success(true)
                          else acc[l]
  {
    if levels != [] {
      match LevelData(varies, LevelName(levels[0]))
      case None =>
        VariesImpactMeaning(v, varies, levels[1..], acc);
      case Some(data) =>
        var b := LevelApplies(v, data).value;
        VariesImpactMeaning(v, varies, levels[1..], acc[levels[0] := b]);
    }
  }

  lemma LevelsComplete(l: Level)
    ensures l in Levels
  {
  }

  /** Whether a listed level applies: always in the test copy; in the module
      exactly when its statement carries no `Optional:` marker. */
  lemma LevelAppliesMeaning(v: Variant, data: Json)
    ensures LevelApplies(v, data) == Success(true) <==>
      (v == Production ==> OptionalMarked(LevelStatement(data)) == Success(false))
  {
  }

  /** With `varies_by_level`, a level applies exactly when it is listed there
      and, in the module, its statement carries no `Optional:` marker. */
  lemma ImpactOfVaries(v: Variant, indicator: Json, l: Level)
    requires indicator.Obj? && HasVaries(indicator)
    requires ImpactOf(v, indicator).Success?
    ensures var varies := Get0(indicator, "varies_by_level");
      ImpactOf(v, indicator).value[l] <==>
        (LevelData(varies, LevelName(l)).Some? &&
         (v == Production ==> OptionalMarked(LevelStatement(LevelData(varies, LevelName(l)).value)) == Success(false)))
  {
    var varies := Get0(indicator, "varies_by_level");
    VariesImpactMeaning(v, varies, Levels, AllLevels(false));
    LevelsComplete(l);
    if LevelData(varies, LevelName(l)).Some? {
      LevelAppliesMeaning(v, LevelData(varies, LevelName(l)).value);
    }
  }

  /** The test copy never raises: every present level simply applies. */
  lemma ImpactOfTestCopySucceeds(indicator: Json)
    requires indicator.Obj?
    ensures ImpactOf(TestCopy, indicator).Success?
  {
    if HasVaries(indicator) {
      VariesNeverFails(Get0(indicator, "varies_by_level"), Levels, AllLevels(false));
    }
  }

  lemma {:induction false} VariesNeverFails(varies: Json, levels: seq<Level>, acc: Impact)
    requires varies.Obj?
    ensures VariesImpact(TestCopy, varies, levels, acc).Success?
  {
    if levels != [] {
      match LevelData(varies, LevelName(levels[0]))
      case None =>
        VariesNeverFails(varies, levels[1..], acc);
      case Some(data) =>
        VariesNeverFails(varies, levels[1..], acc[levels[0] := true]);
    }
  }

  /** The `Optional:` check only removes levels: whatever the module counts,
      the test copy counts too, and both agree when no level is marked. */
  lemma ImpactOfProductionWithinTestCopy(indicator: Json, l: Level)
    requires indicator.Obj? && ImpactOf(Production, indicator).Success?
    requires ImpactOf(Production, indicator).value[l]
    ensures ImpactOf(TestCopy, indicator).Success? && ImpactOf(TestCopy, indicator).value[l]
  {
    ImpactOfTestCopySucceeds(indicator);
    if HasVaries(indicator) {
      ImpactOfVaries(Production, indicator, l);
      ImpactOfVaries(TestCopy, indicator, l);
    }
  }

  /** Without `varies_by_level`, a truthy statement puts the control in every
      level. */
  lemma ImpactOfDirectStatement(v: Variant, indicator: Json)
    requires indicator.Obj? && !HasVaries(indicator) && Truthy(Get0(indicator, "statement"))
    ensures ImpactOf(v, indicator) == Success(AllLevels(true))
  {
  }

  /** The module raises only when a listed level's statement is a truthy
      number or boolean. */
  lemma ImpactOfFailure(indicator: Json)
    requires indicator.Obj? && ImpactOf(Production, indicator).Failure?
    ensures HasVaries(indicator)
    ensures exists name ::
      && LevelData(Get0(indicator, "varies_by_level"), name).Some?
      && var stmt := LevelStatement(LevelData(Get0(indicator, "varies_by_level"), name).value);
         Truthy(stmt) && (stmt.Num? || stmt.Bool?)
  {
    var name := VariesFailureOrigin(Get0(indicator, "varies_by_level"), Levels, AllLevels(false));
  }

  lemma {:induction false} VariesFailureOrigin(varies: Json, levels: seq<Level>, acc: Impact) returns (name: string)
    requires varies.Obj? && VariesImpact(Production, varies, levels, acc).Failure?
    ensures LevelData(varies, name).Some?
    ensures var stmt := LevelStatement(LevelData(varies, name).value);
      Truthy(stmt) && (stmt.Num? || stmt.Bool?)
  {
    match LevelData(varies, LevelName(levels[0]))
    case None =>
      name := VariesFailureOrigin(varies, levels[1..], acc);
    case Some(data) =>
      if LevelApplies(Production, data).Failure? {
        name := LevelName(levels[0]);
      } else {
        name := VariesFailureOrigin(varies, levels[1..], acc[levels[0] := LevelApplies(Production, data).value]);
      }
  }

  /** The examples the test file checks for `extract_impact_from_indicator`:
      a direct statement applies everywhere ... */
  lemma ImpactExampleDirect(v: Variant)
    ensures ImpactOf(v, Obj([("statement", Str("Some statement"))])) == Success(AllLevels(true))
  {
    var ind := Obj([("statement", Str("Some statement"))]);
    assert Get0(ind, "varies_by_level") == Null;
  }

  /** ... and levels listed without a marker apply, the others do not. */
  lemma ImpactExampleVaries(v: Variant)
    ensures ImpactOf(v, Obj([("varies_by_level", Obj([
              ("low", Obj([("statement", Str("Low"))])),
              ("moderate", Obj([("statement", Str("Moderate"))]))]))]))
            == Success(map[Low := true, Moderate := true, High := false])
  {
    var low := Obj([("statement", Str("Low"))]);
    var moderate := Obj([("statement", Str("Moderate"))]);
    VariesExample(v, Obj([("low", low), ("moderate", moderate)]), low, moderate);
  }

  lemma VariesExample(v: Variant, varies: Json, low: Json, moderate: Json)
    requires low == Obj([("statement", Str("Low"))])
    requires moderate == Obj([("statement", Str("Moderate"))])
    requires varies == Obj([("low", low), ("moderate", moderate)])
    ensures ImpactOf(v, Obj([("varies_by_level", varies)]))
            == Success(map[Low := true, Moderate := true, High := false])
  {
    var ind := Obj([("varies_by_level", varies)]);
    assert Get0(ind, "varies_by_level") == varies;
    assert varies.fields != [];
    assert HasVaries(ind);
    UnmarkedText("Low");
    UnmarkedText("Moderate");
    assert LevelStatement(low) == Str("Low");
    assert LevelStatement(moderate) == Str("Moderate");
    LookupPair("low", low, "moderate", moderate, "high");
    VariesLowModerate(v, varies, low, moderate, true, true);
  }

  lemma LookupPair(k1: string, v1: Json, k2: string, v2: Json, other: string)
    requires |k1| != |k2| && |other| != |k1| && |other| != |k2|
    ensures Lookup([(k1, v1), (k2, v2)], k1) == Some(v1)
    ensures Lookup([(k1, v1), (k2, v2)], k2) == Some(v2)
    ensures Lookup([(k1, v1), (k2, v2)], other) == None
  {
    var f := [(k1, v1), (k2, v2)];
    assert f[1..] == [(k2, v2)];
  }

  /** A `varies_by_level` listing low and moderate only gives low and
      moderate whatever their statements decide, and high false. */
  lemma VariesLowModerate(v: Variant, varies: Json, low: Json, moderate: Json, a: bool, b: bool)
    requires varies.Obj?
    requires LevelData(varies, "low") == Some(low) && LevelData(varies, "moderate") == Some(moderate)
    requires LevelData(varies, "high") == None
    requires LevelApplies(v, low) == Success(a) && LevelApplies(v, moderate) == Success(b)
    ensures VariesImpact(v, varies, Levels, AllLevels(false))
            == Success(map[Low := a, Moderate := b, High := false])
  {
    var m0 := AllLevels(false);
    var m1 := m0[Low := a];
    var m2 := m1[Moderate := b];
    VariesStepSome(v, varies, Levels, m0, low, a);
    assert Levels[1..] == [Moderate, High];
    VariesStepSome(v, varies, [Moderate, High], m1, moderate, b);
    assert [Moderate, High][1..] == [High];
    VariesStepNone(v, varies, [High], m2);
    assert [High][1..] == [];
    assert VariesImpact(v, varies, [], m2) == Success(m2);
    SetLowModerate(false, a, b);
  }

  lemma SetLowModerate(x: bool, a: bool, b: bool)
    ensures map[Low := x, Moderate := x, High := x][Low := a][Moderate := b] == map[Low := a, Moderate := b, High := x]
  {
  }

  /** A level with data sets its entry and moves on. */
  lemma VariesStepSome(v: Variant, varies: Json, levels: seq<Level>, acc: Impact, data: Json, b: bool)
    requires varies.Obj? && levels != []
    requires LevelData(varies, LevelName(levels[0])) == Some(data) && LevelApplies(v, data) == Success(b)
    ensures VariesImpact(v, varies, levels, acc) == VariesImpact(v, varies, levels[1..], acc[levels[0] := b])
  {
  }

  /** A level without data is skipped. */
  lemma VariesStepNone(v: Variant, varies: Json, levels: seq<Level>, acc: Impact)
    requires varies.Obj? && levels != []
    requires LevelData(varies, LevelName(levels[0])) == None
    ensures VariesImpact(v, varies, levels, acc) == VariesImpact(v, varies, levels[1..], acc)
  {
  }

  /** Text shorter than the marker cannot carry it. */
  lemma UnmarkedText(s: string)
    requires |s| < 9
    ensures OptionalMarked(Str(s)) == Success(false)
  {
    OptionalMarkedText(s);
    if Contains(s, "Optional:") {
      ContainsWitness(s, "Optional:");
    }
  }
}
