/** How the consolidated KSI fold grows: each step appends controls and
    records their impacts, and the steps compose. These lemmas let a
    concrete document be evaluated one indicator at a time. */
module KsiGrowth {
  import opened Json
  import opened Prose
  import opened ControlIds
  import opened Indicators
  import opened Controls
  import opened Ksi

  // ---------------------------------------------------------------------
  // How a parse grows
  // ---------------------------------------------------------------------

  /** `impacts` after recording `imps[k]` for the control of `ids[k]`, in
      order. */
  function Update(m: map<string, Impact>, ids: seq<(string, string)>, imps: seq<Impact>): map<string, Impact>
    requires |ids| == |imps|
    decreases |ids|
  {
    if ids == [] then m else Update(m[ids[0].1 := imps[0]], ids[1..], imps[1..])
  }

  lemma {:induction false} UpdateAppend(m: map<string, Impact>, ids1: seq<(string, string)>, imps1: seq<Impact>,
                                        ids2: seq<(string, string)>, imps2: seq<Impact>)
    requires |ids1| == |imps1| && |ids2| == |imps2|
    ensures Update(m, ids1 + ids2, imps1 + imps2) == Update(Update(m, ids1, imps1), ids2, imps2)
    decreases |ids1|
  {
    if ids1 != [] {
      assert (ids1 + ids2)[1..] == ids1[1..] + ids2 && (imps1 + imps2)[1..] == imps1[1..] + imps2;
      UpdateAppend(m[ids1[0].1 := imps1[0]], ids1[1..], imps1[1..], ids2, imps2);
    } else {
      assert ids1 + ids2 == ids2 && imps1 + imps2 == imps2;
    }
  }

  /** Recording four impacts in turn. */
  lemma UpdateFour(m: map<string, Impact>, ids: seq<(string, string)>, imps: seq<Impact>)
    requires |ids| == 4 && |imps| == 4
    ensures Update(m, ids, imps) == m[ids[0].1 := imps[0]][ids[1].1 := imps[1]][ids[2].1 := imps[2]][ids[3].1 := imps[3]]
  {
    var m1 := m[ids[0].1 := imps[0]];
    var m2 := m1[ids[1].1 := imps[1]];
    var m3 := m2[ids[2].1 := imps[2]];
    var m4 := m3[ids[3].1 := imps[3]];
    assert Update(m3, ids[3..], imps[3..]) == m4 by {
      assert ids[3..][1..] == [] && imps[3..][1..] == [];
    }
    assert Update(m2, ids[2..], imps[2..]) == m4 by {
      assert ids[2..][1..] == ids[3..] && imps[2..][1..] == imps[3..];
    }
    assert Update(m1, ids[1..], imps[1..]) == m4 by {
      assert ids[1..][1..] == ids[2..] && imps[1..][1..] == imps[2..];
    }
  }

  /** `q` is `p` with the controls `ids` appended and their impacts `imps`
      recorded, and no following information added. */
  predicate Extends(p: Parsed, q: Parsed, ids: seq<(string, string)>, imps: seq<Impact>) {
    && |ids| == |imps|
    && Ids(q) == Ids(p) + ids
    && q.impacts == Update(p.impacts, ids, imps)
    && q.followingInfo == p.followingInfo
  }

  lemma ExtendsTrans(p: Parsed, q: Parsed, r: Parsed, ids1: seq<(string, string)>, imps1: seq<Impact>,
                     ids2: seq<(string, string)>, imps2: seq<Impact>)
    requires Extends(p, q, ids1, imps1) && Extends(q, r, ids2, imps2)
    ensures Extends(p, r, ids1 + ids2, imps1 + imps2)
  {
    UpdateAppend(p.impacts, ids1, imps1, ids2, imps2);
  }

  // ---------------------------------------------------------------------
  // One indicator, one theme
  // ---------------------------------------------------------------------

  /** The control is `parts` at index `i`. */
  predicate PartsAt(q: Parsed, i: nat, parts: seq<Part>) {
    i < |q.controls| && q.controls[i].control.parts == parts
  }

  /** Emitting a text statement without following information appends one
      control whose only part is that statement, cleaned. */
  lemma EmitStatement(v: Variant, p: Parsed, groupId: string, groupTitle: Json, controlId: string,
                      statement: string, title: Result<Json>, impact: Impact)
    requires title.Success?
    ensures var r := Emit(v, p, groupId, groupTitle, controlId, Str(statement), title, Success(impact), Arr([]));
      && r.Success?
      && Extends(p, r.value, [(groupId, controlId)], [impact])
      && PartsAt(r.value, |p.controls|, ControlParts(controlId, CleanProse(v, statement), []))
  {
    assert ItemParts(v, controlId, Arr([])) == Success([]);
    var c := Control(controlId, title.value, ControlParts(controlId, CleanProse(v, statement), []));
    var q := Record(p, groupId, groupTitle, c, impact, Arr([]));
    IdsAppend(p, q, Entry(groupId, groupTitle, c));
    assert Update(p.impacts, [(groupId, controlId)], [impact]) == Update(p.impacts[controlId := impact], [], []);
  }

  /** An indicator that is neither retired nor followed by information and
      whose statement for the moderate level is non-empty text becomes one
      control whose only part is that statement, cleaned. */
  lemma StatementIndicator(v: Variant, groupId: string, groupTitle: Json, key: string, ind: Json, p: Parsed,
                           controlId: string, statement: string, impact: Impact)
    requires ind.Obj?
    requires Lookup(ind.fields, "retired").None? && Lookup(ind.fields, "following_information").None?
    requires IndicatorStatement(ind, "moderate") == Str(statement) && statement != ""
    requires NormalizeControlId(key, "KSI-") == controlId
    requires TitleOf(v, ind, controlId).Success? && ImpactOf(v, ind) == Success(impact)
    ensures var r := IndicatorStep(v, groupId, groupTitle, key, ind, p);
      && r.Success?
      && Extends(p, r.value, [(groupId, controlId)], [impact])
      && PartsAt(r.value, |p.controls|, ControlParts(controlId, CleanProse(v, statement), []))
  {
    assert IndicatorStep(v, groupId, groupTitle, key, ind, p)
        == Emit(v, p, groupId, groupTitle, controlId, Str(statement), TitleOf(v, ind, controlId), Success(impact), Arr([])) by {
      assert Get(ind, "retired", Bool(false)) == Bool(false);
      assert Get(ind, "following_information", Arr([])) == Arr([]);
    }
    EmitStatement(v, p, groupId, groupTitle, controlId, statement, TitleOf(v, ind, controlId), impact);
  }

  /** With a text statement and no levels, the control applies at every
      level. */
  lemma DirectIndicator(v: Variant, groupId: string, groupTitle: Json, key: string, ind: Json, p: Parsed,
                        controlId: string, statement: string)
    requires ind.Obj?
    requires Lookup(ind.fields, "retired").None? && Lookup(ind.fields, "varies_by_level").None?
    requires Lookup(ind.fields, "following_information").None?
    requires Lookup(ind.fields, "statement") == Some(Str(statement)) && statement != ""
    requires Lookup(ind.fields, "name").Some? && Lookup(ind.fields, "name").value.Str?
    requires NormalizeControlId(key, "KSI-") == controlId
    ensures var r := IndicatorStep(v, groupId, groupTitle, key, ind, p);
      r.Success? && Extends(p, r.value, [(groupId, controlId)], [AllLevels(true)])
  {
    assert Get(ind, "statement", Str("")) == Str(statement);
    assert IndicatorStatement(ind, "moderate") == Str(statement);
    assert !HasVaries(ind);
    ImpactOfDirectStatement(v, ind);
    StatementIndicator(v, groupId, groupTitle, key, ind, p, controlId, statement, AllLevels(true));
  }

  lemma IndicatorsOne(v: Variant, groupId: string, groupTitle: Json, inds: seq<(string, Json)>, p: Parsed)
    requires |inds| == 1
    ensures IndicatorsFold(v, groupId, groupTitle, inds, p) == IndicatorStep(v, groupId, groupTitle, inds[0].0, inds[0].1, p)
  {
  }

  lemma IndicatorsTwo(v: Variant, groupId: string, groupTitle: Json, inds: seq<(string, Json)>, p: Parsed)
    requires |inds| == 2 && IndicatorStep(v, groupId, groupTitle, inds[0].0, inds[0].1, p).Success?
    ensures IndicatorsFold(v, groupId, groupTitle, inds, p) ==
      IndicatorStep(v, groupId, groupTitle, inds[1].0, inds[1].1, IndicatorStep(v, groupId, groupTitle, inds[0].0, inds[0].1, p).value)
  {
    IndicatorsOne(v, groupId, groupTitle, inds[1..], IndicatorStep(v, groupId, groupTitle, inds[0].0, inds[0].1, p).value);
  }

  /** A theme with a text short name and a dict of indicators folds its
      indicators under that name. */
  lemma ThemeIndicators(v: Variant, key: string, theme: Json, p: Parsed, groupId: string, inds: seq<(string, Json)>)
    requires theme.Obj? && key != "info" && key != "data"
    requires Lookup(theme.fields, "short_name") == Some(Str(groupId)) && groupId != ""
    requires Lookup(theme.fields, "indicators") == Some(Obj(inds))
    ensures ThemeStep(v, key, theme, p) == IndicatorsFold(v, groupId, ThemeTitle(v, theme, groupId), inds, p)
  {
  }

  lemma FirstTheme(v: Variant, themes: seq<(string, Json)>, p: Parsed)
    requires themes != [] && ThemeStep(v, themes[0].0, themes[0].1, p).Success?
    ensures ThemesFold(v, themes, p) == ThemesFold(v, themes[1..], ThemeStep(v, themes[0].0, themes[0].1, p).value)
  {
  }

  lemma LastTheme(v: Variant, themes: seq<(string, Json)>, p: Parsed)
    requires |themes| == 1 && ThemeStep(v, themes[0].0, themes[0].1, p).Success?
    ensures ThemesFold(v, themes, p) == ThemeStep(v, themes[0].0, themes[0].1, p)
  {
    assert themes[1..] == [];
  }

  /** Two indicators, each extending what came before, extend it together. */
  lemma IndicatorsTwoExtend(v: Variant, groupId: string, groupTitle: Json, inds: seq<(string, Json)>, p: Parsed,
                            ids1: seq<(string, string)>, imps1: seq<Impact>, ids2: seq<(string, string)>, imps2: seq<Impact>)
    requires |inds| == 2
    requires var q := IndicatorStep(v, groupId, groupTitle, inds[0].0, inds[0].1, p);
      && q.Success? && Extends(p, q.value, ids1, imps1)
      && var r := IndicatorStep(v, groupId, groupTitle, inds[1].0, inds[1].1, q.value);
      r.Success? && Extends(q.value, r.value, ids2, imps2)
    ensures var r := IndicatorsFold(v, groupId, groupTitle, inds, p);
      r.Success? && Extends(p, r.value, ids1 + ids2, imps1 + imps2)
  {
    var q := IndicatorStep(v, groupId, groupTitle, inds[0].0, inds[0].1, p).value;
    IndicatorsTwo(v, groupId, groupTitle, inds, p);
    var r := IndicatorStep(v, groupId, groupTitle, inds[1].0, inds[1].1, q).value;
    ExtendsTrans(p, q, r, ids1, imps1, ids2, imps2);
  }

  /** Three theme steps in turn give the fold over the three themes. */
  lemma ThemesThree(v: Variant, themes: seq<(string, Json)>, p: Parsed, q1: Parsed, q2: Parsed, q3: Parsed)
    requires |themes| == 3
    requires ThemeStep(v, themes[0].0, themes[0].1, p).Success? && ThemeStep(v, themes[0].0, themes[0].1, p).value == q1
    requires ThemeStep(v, themes[1].0, themes[1].1, q1).Success? && ThemeStep(v, themes[1].0, themes[1].1, q1).value == q2
    requires ThemeStep(v, themes[2].0, themes[2].1, q2).Success? && ThemeStep(v, themes[2].0, themes[2].1, q2).value == q3
    ensures ThemesFold(v, themes, p) == Success(q3)
  {
    assert ThemesFold(v, themes[2..], q2) == Success(q3) by { LastTheme(v, themes[2..], q2); }
    assert ThemesFold(v, themes[1..], q1) == Success(q3) by {
      FirstTheme(v, themes[1..], q1);
      assert themes[1..][1..] == themes[2..];
    }
    FirstTheme(v, themes, p);
  }
}
