/** `parse_frr_requirements_legacy`: the FRR parser of the legacy multi-file
    format, where the standard comes from the file name and the requirement
    ids seen are local to one file. */
module FrrLegacy {
  import opened Json
  import opened Text
  import opened Prose
  import opened ControlIds
  import opened Indicators
  import opened Controls
  import opened Frr

  // ---------------------------------------------------------------------
  // re.search(r'FRMR\.([A-Z]{3})\.', filename)
  // ---------------------------------------------------------------------

  /** The pattern matches at index `k`. */
  predicate MatchesAt(name: string, k: nat) {
    && k + 9 <= |name|
    && name[k..k + 5] == "FRMR."
    && IsUpper(name[k + 5]) && IsUpper(name[k + 6]) && IsUpper(name[k + 7])
    && name[k + 8] == '.'
  }

  /** The leftmost index from `k` on where the pattern matches. */
  function FindFrom(name: string, k: nat): (r: Option<nat>)
    decreases |name| - k
    ensures r.Some? ==> k <= r.value && MatchesAt(name, r.value)
    ensures r.Some? ==> forall j :: k <= j < r.value ==> !MatchesAt(name, j)
    ensures r.None? ==> forall j :: k <= j ==> !MatchesAt(name, j)
  {
    if k + 9 > |name| then None
    else if MatchesAt(name, k) then Some(k)
    else FindFrom(name, k + 1)
  }

  /** The standard's three capitals from the leftmost match, if any. */
  function FindStandard(name: string): (r: Option<string>)
    ensures r.Some? ==> |r.value| == 3 && forall i :: 0 <= i < 3 ==> IsUpper(r.value[i])
    ensures r.Some? ==> exists k: nat :: OccursAt(name, "FRMR." + r.value + ".", k)
    ensures r.None? <==> forall k: nat :: !MatchesAt(name, k)
  {
    match FindFrom(name, 0)
    case None => None
    case Some(k) =>
      var std := name[k + 5..k + 8];
      assert name[k..k + 9] == "FRMR." + std + ".";
      assert OccursAt(name, "FRMR." + std + ".", k);
      Some(std)
  }

  /** Every occurrence of `FRMR.` + three capitals + `.` is a match. */
  lemma OccurrenceMatches(name: string, std: string, k: nat)
    requires |std| == 3 && (forall i :: 0 <= i < 3 ==> IsUpper(std[i]))
    requires OccursAt(name, "FRMR." + std + ".", k)
    ensures MatchesAt(name, k)
    ensures FindStandard(name).Some?
  {
    var pattern := "FRMR." + std + ".";
    assert name[k..k + 9] == pattern;
    assert name[k..k + 5] == pattern[..5];
    assert name[k + 5] == pattern[5] == std[0];
    assert name[k + 6] == pattern[6] == std[1];
    assert name[k + 7] == pattern[7] == std[2];
    assert name[k + 8] == pattern[8];
    assert MatchesAt(name, k);
    if FindStandard(name).None? {
      assert false;
    }
  }

  // ---------------------------------------------------------------------
  // The parser
  // ---------------------------------------------------------------------

  /** One legacy requirement: skipped unless it is a dict whose id starts
      with `FRR-` and has not been seen; a seen id is marked before the
      statement is looked at. */
  function LegacyRequirementStep(standard: string, groupTitle: Json, req: Json, s: FrrState): Result<FrrState> {
    if !req.Obj? then Success(s)
    else
      var id := Get(req, "id", Str(""));
      if !Truthy(id) then Success(s)
      else if !id.Str? then Failure(Raises("startswith on an id that is not text"))
      else if !StartsWith(id.s, "FRR-") || id.s in s.seen then Success(s)
      else
        var seen := s.seen + {id.s};
        var statement := Get(req, "statement", Str(""));
        if !Truthy(statement) then Success(FrrState(s.parsed, seen))
        else
          var controlId := NormalizeFrrControlId(id.s, standard);
          match Emit(Production, s.parsed, standard, groupTitle, controlId, statement,
                     TitleOf(Production, req, controlId), Success(LegacyImpact(req)),
                     Get(req, "following_information", Arr([])))
          case Failure(e) => Failure(e)
          case Success(p) => Success(FrrState(p, seen))
  }

  function LegacyRequirementsFold(standard: string, groupTitle: Json, reqs: seq<Json>, s: FrrState): Result<FrrState> {
    if reqs == [] then Success(s)
    else
      match LegacyRequirementStep(standard, groupTitle, reqs[0], s)
      case Failure(e) => Failure(e)
      case Success(t) => LegacyRequirementsFold(standard, groupTitle, reqs[1..], t)
  }

  /** One section of the standard: a dict holding `requirements`, whose value
      is iterated as Python iterates it. */
  function LegacySectionStep(standard: string, groupTitle: Json, section: Json, s: FrrState): Result<FrrState> {
    if !section.Obj? || !Has(section, "requirements") then Success(s)
    else
      match Iterate(Get(section, "requirements", Arr([])))
      case None => Failure(Raises("iteration over requirements that are not iterable"))
      case Some(reqs) => LegacyRequirementsFold(standard, groupTitle, reqs, s)
  }

  function LegacySectionsFold(standard: string, groupTitle: Json, sections: seq<(string, Json)>, s: FrrState): Result<FrrState> {
    if sections == [] then Success(s)
    else
      match LegacySectionStep(standard, groupTitle, sections[0].1, s)
      case Failure(e) => Failure(e)
      case Success(t) => LegacySectionsFold(standard, groupTitle, sections[1..], t)
  }

  /** `parse_frr_requirements_legacy`. Nothing is parsed without an `FRR`
      key, without a standard in the file name, or without a non-empty dict
      for that standard; the group title is the `info` name, which may be of
      any type, defaulting to the standard. */
  function Legacy(data: Json, filename: string): Result<Parsed>
    requires data.Obj?
  {
    if !Has(data, "FRR") then Success(Empty)
    else
      match FindStandard(filename)
      case None => Success(Empty)
      case Some(standard) =>
        var info := Get(data, "info", Obj([]));
        if !info.Obj? then Failure(Raises(".get on info that is not a dict"))
        else
          var groupTitle := Get(info, "name", Str(standard));
          var frrData := Get0(data, "FRR");
          if !frrData.Obj? then Failure(Raises(".get on an FRR value that is not a dict"))
          else
            var standardFrr := Get0(frrData, standard);
            if !Truthy(standardFrr) || !standardFrr.Obj? then Success(Empty)
            else
              match LegacySectionsFold(standard, groupTitle, standardFrr.fields, Initial)
              case Failure(e) => Failure(e)
              case Success(s) => Success(s.parsed)
  }

  /** The body of the requirement loop. */
  method ProcessLegacyRequirement(standard: string, groupTitle: Json, req: Json, s: FrrState) returns (r: Result<FrrState>)
    ensures r == LegacyRequirementStep(standard, groupTitle, req, s)
  {
    if !req.Obj? {
      return Success(s);
    }
    var id := Get(req, "id", Str(""));
    if !Truthy(id) {
      return Success(s);
    }
    if !id.Str? {
      return Failure(Raises("startswith on an id that is not text"));
    }
    if !StartsWith(id.s, "FRR-") || id.s in s.seen {
      return Success(s);
    }
    var seen := s.seen + {id.s};
    var statement := Get(req, "statement", Str(""));
    if !Truthy(statement) {
      return Success(FrrState(s.parsed, seen));
    }
    var controlId := NormalizeFrrControlId(id.s, standard);
    var title := TitleOf(Production, req, controlId);
    var info := Get(req, "following_information", Arr([]));
    var p := EmitControl(Production, s.parsed, standard, groupTitle, controlId, statement, title,
                         Success(LegacyImpact(req)), info);
    if p.Failure? {
      return Failure(p.error);
    }
    return Success(FrrState(p.value, seen));
  }

  method ParseFrrRequirementsLegacy(data: Json, filename: string) returns (r: Result<Parsed>)
    requires data.Obj?
    ensures r == Legacy(data, filename)
  {
    if !Has(data, "FRR") {
      return Success(Empty);
    }
    var standardMatch := FindStandard(filename);
    if standardMatch.None? {
      return Success(Empty);
    }
    var standard := standardMatch.value;
    var info := Get(data, "info", Obj([]));
    if !info.Obj? {
      return Failure(Raises(".get on info that is not a dict"));
    }
    var groupTitle := Get(info, "name", Str(standard));
    var frrData := Get0(data, "FRR");
    if !frrData.Obj? {
      return Failure(Raises(".get on an FRR value that is not a dict"));
    }
    var standardFrr := Get0(frrData, standard);
    if !Truthy(standardFrr) || !standardFrr.Obj? {
      return Success(Empty);
    }
    var sections := standardFrr.fields;
    var s := Initial;
    var i := 0;
    while i < |sections|
      invariant 0 <= i <= |sections|
      invariant LegacySectionsFold(standard, groupTitle, sections[i..], s)
                == LegacySectionsFold(standard, groupTitle, sections, Initial)
    {
      var step := ProcessLegacySection(standard, groupTitle, sections[i].1, s);
      if step.Failure? {
        return Failure(step.error);
      }
      s := step.value;
      i := i + 1;
    }
    return Success(s.parsed);
  }

  /** The body of the section loop. */
  method ProcessLegacySection(standard: string, groupTitle: Json, section: Json, s: FrrState) returns (r: Result<FrrState>)
    ensures r == LegacySectionStep(standard, groupTitle, section, s)
  {
    if !section.Obj? || !Has(section, "requirements") {
      return Success(s);
    }
    var reqs := Iterate(Get(section, "requirements", Arr([])));
    if reqs.None? {
      return Failure(Raises("iteration over requirements that are not iterable"));
    }
    r := ProcessLegacyRequirements(standard, groupTitle, reqs.value, s);
  }

  /** The requirement loop of one section. */
  method ProcessLegacyRequirements(standard: string, groupTitle: Json, reqs: seq<Json>, s: FrrState)
    returns (r: Result<FrrState>)
    ensures r == LegacyRequirementsFold(standard, groupTitle, reqs, s)
  {
    var t := s;
    var j := 0;
    while j < |reqs|
      invariant 0 <= j <= |reqs|
      invariant LegacyRequirementsFold(standard, groupTitle, reqs[j..], t)
                == LegacyRequirementsFold(standard, groupTitle, reqs, s)
    {
      var step := ProcessLegacyRequirement(standard, groupTitle, reqs[j], t);
      LegacyRequirementsFoldStep(standard, groupTitle, reqs, t, j);
      if step.Failure? {
        return Failure(step.error);
      }
      t := step.value;
      j := j + 1;
    }
    return Success(t);
  }

  /** One step of the requirement loop, at requirement `j`. */
  lemma LegacyRequirementsFoldStep(standard: string, groupTitle: Json, reqs: seq<Json>, t: FrrState, j: nat)
    requires j < |reqs|
    ensures var step := LegacyRequirementStep(standard, groupTitle, reqs[j], t);
      step.Failure? ==> LegacyRequirementsFold(standard, groupTitle, reqs[j..], t) == Failure(step.error)
    ensures var step := LegacyRequirementStep(standard, groupTitle, reqs[j], t);
      step.Success? ==> LegacyRequirementsFold(standard, groupTitle, reqs[j..], t)
                        == LegacyRequirementsFold(standard, groupTitle, reqs[j + 1..], step.value)
  {
    assert reqs[j..][1..] == reqs[j + 1..];
  }

  // ---------------------------------------------------------------------
  // Properties
  // ---------------------------------------------------------------------

  lemma LegacyRequirementStepInv(standard: string, groupTitle: Json, req: Json, s: FrrState)
    requires Inv(s)
    requires LegacyRequirementStep(standard, groupTitle, req, s).Success?
    ensures var t := LegacyRequirementStep(standard, groupTitle, req, s).value;
      && Inv(t) && Grows(s, t)
      && (TextId(req).Some? && StartsWith(TextId(req).value, "FRR-") ==> TextId(req).value in t.seen)
  {
    var t := LegacyRequirementStep(standard, groupTitle, req, s).value;
    if req.Obj? {
      var id := Get(req, "id", Str(""));
      if Truthy(id) && id.Str? && StartsWith(id.s, "FRR-") && id.s !in s.seen {
        var seen := s.seen + {id.s};
        var statement := Get(req, "statement", Str(""));
        if Truthy(statement) {
          var controlId := NormalizeFrrControlId(id.s, standard);
          var title := TitleOf(Production, req, controlId);
          var info := Get(req, "following_information", Arr([]));
          var e := Emit(Production, s.parsed, standard, groupTitle, controlId, statement, title,
                        Success(LegacyImpact(req)), info);
          EmitKeeps(Production, s.parsed, standard, groupTitle, controlId, statement, title,
                    Success(LegacyImpact(req)), info);
          assert t == FrrState(e.value, seen);
          EmittedInv(s, id.s, e.value);
        } else {
          assert |seen| == |s.seen| + 1;
        }
      }
    }
  }

  /** A dict requirement with a new truthy `FRR-` id is marked seen; it
      emits nothing when its `statement` is falsy, and otherwise exactly one
      control under its normalised id, with the impact read from its legacy
      `impact` dict. */
  lemma LegacyRequirementStepEmits(standard: string, groupTitle: Json, req: Json, s: FrrState)
    requires Inv(s)
    requires TextId(req).Some? && StartsWith(TextId(req).value, "FRR-") && TextId(req).value !in s.seen
    requires LegacyRequirementStep(standard, groupTitle, req, s).Success?
    ensures var t := LegacyRequirementStep(standard, groupTitle, req, s).value;
      var id := TextId(req).value;
      var statement := Get(req, "statement", Str(""));
      && t.seen == s.seen + {id}
      && (!Truthy(statement) ==> t.parsed == s.parsed)
      && (Truthy(statement) ==>
            EmittedRequirement(standard, groupTitle, NormalizeFrrControlId(id, standard), statement,
                               Success(LegacyImpact(req)), req, s.parsed, t.parsed))
  {
    var id := TextId(req).value;
    var statement := Get(req, "statement", Str(""));
    if Truthy(statement) {
      var controlId := NormalizeFrrControlId(id, standard);
      var title := TitleOf(Production, req, controlId);
      var info := Get(req, "following_information", Arr([]));
      EmitShape(Production, s.parsed, standard, groupTitle, controlId, statement, title,
                Success(LegacyImpact(req)), info);
    }
  }

  lemma {:induction false} LegacyRequirementsFoldInv(standard: string, groupTitle: Json, reqs: seq<Json>, s: FrrState)
    requires Inv(s)
    requires LegacyRequirementsFold(standard, groupTitle, reqs, s).Success?
    ensures var t := LegacyRequirementsFold(standard, groupTitle, reqs, s).value;
      Inv(t) && Grows(s, t)
  {
    if reqs != [] {
      LegacyRequirementStepInv(standard, groupTitle, reqs[0], s);
      var t := LegacyRequirementStep(standard, groupTitle, reqs[0], s).value;
      LegacyRequirementsFoldInv(standard, groupTitle, reqs[1..], t);
      GrowsTransitive(s, t, LegacyRequirementsFold(standard, groupTitle, reqs[1..], t).value);
    }
  }

  lemma {:induction false} LegacyRequirementsFoldAppend(standard: string, groupTitle: Json, a: seq<Json>, b: seq<Json>,
                                                        s: FrrState)
    ensures var r := LegacyRequirementsFold(standard, groupTitle, a, s);
      LegacyRequirementsFold(standard, groupTitle, a + b, s) ==
        if r.Success? then LegacyRequirementsFold(standard, groupTitle, b, r.value) else r
    decreases |a|
  {
    if a == [] {
      assert a + b == b;
    } else {
      assert (a + b)[0] == a[0] && (a + b)[1..] == a[1..] + b;
      match LegacyRequirementStep(standard, groupTitle, a[0], s)
      case Failure(e) =>
      case Success(t) => LegacyRequirementsFoldAppend(standard, groupTitle, a[1..], b, t);
    }
  }

  /** After a walk, every requirement it met with an `FRR-` id is marked
      seen. */
  lemma {:induction false} LegacyRequirementsFoldSeen(standard: string, groupTitle: Json, reqs: seq<Json>, s: FrrState,
                                                      k: nat)
    requires Inv(s) && k < |reqs| && TextId(reqs[k]).Some? && StartsWith(TextId(reqs[k]).value, "FRR-")
    requires LegacyRequirementsFold(standard, groupTitle, reqs, s).Success?
    ensures TextId(reqs[k]).value in LegacyRequirementsFold(standard, groupTitle, reqs, s).value.seen
    decreases k
  {
    LegacyRequirementStepInv(standard, groupTitle, reqs[0], s);
    var t := LegacyRequirementStep(standard, groupTitle, reqs[0], s).value;
    if k == 0 {
      LegacyRequirementsFoldInv(standard, groupTitle, reqs[1..], t);
    } else {
      assert reqs[1..][k - 1] == reqs[k];
      LegacyRequirementsFoldSeen(standard, groupTitle, reqs[1..], t, k - 1);
    }
  }

  /** Of two requirements with the same `FRR-` id in one list, the second
      changes nothing, wherever it comes. */
  lemma LegacyRequirementsFoldDuplicate(standard: string, groupTitle: Json, reqs: seq<Json>, s: FrrState, i: nat, j: nat)
    requires Inv(s) && i < j < |reqs|
    requires TextId(reqs[i]).Some? && StartsWith(TextId(reqs[i]).value, "FRR-") && TextId(reqs[i]) == TextId(reqs[j])
    ensures LegacyRequirementsFold(standard, groupTitle, reqs, s)
            == LegacyRequirementsFold(standard, groupTitle, reqs[..j] + reqs[j + 1..], s)
  {
    var before, rest := reqs[..j], reqs[j + 1..];
    assert reqs == before + ([reqs[j]] + rest);
    LegacyRequirementsFoldAppend(standard, groupTitle, before, [reqs[j]] + rest, s);
    LegacyRequirementsFoldAppend(standard, groupTitle, before, rest, s);
    var r := LegacyRequirementsFold(standard, groupTitle, before, s);
    if r.Success? {
      assert before[i] == reqs[i];
      LegacyRequirementsFoldSeen(standard, groupTitle, before, s, i);
      assert LegacyRequirementStep(standard, groupTitle, reqs[j], r.value) == Success(r.value);
      assert ([reqs[j]] + rest)[0] == reqs[j] && ([reqs[j]] + rest)[1..] == rest;
    }
  }

  lemma {:induction false} LegacySectionsFoldInv(standard: string, groupTitle: Json, sections: seq<(string, Json)>, s: FrrState)
    requires Inv(s)
    requires LegacySectionsFold(standard, groupTitle, sections, s).Success?
    ensures var t := LegacySectionsFold(standard, groupTitle, sections, s).value;
      Inv(t) && Grows(s, t)
  {
    if sections != [] {
      var section := sections[0].1;
      if section.Obj? && Has(section, "requirements") {
        LegacyRequirementsFoldInv(standard, groupTitle, Iterate(Get(section, "requirements", Arr([]))).value, s);
      }
      var t := LegacySectionStep(standard, groupTitle, section, s).value;
      LegacySectionsFoldInv(standard, groupTitle, sections[1..], t);
      GrowsTransitive(s, t, LegacySectionsFold(standard, groupTitle, sections[1..], t).value);
    }
  }

  /** Whatever `parse_frr_requirements_legacy` returns is consistent and
      lower case. */
  lemma LegacyConsistent(data: Json, filename: string)
    requires data.Obj? && Legacy(data, filename).Success?
    ensures Consistent(Legacy(data, filename).value) && LowerIds(Legacy(data, filename).value)
  {
    EmptyConsistent();
    if Has(data, "FRR") && FindStandard(filename).Some? {
      var standard := FindStandard(filename).value;
      var frrData := Get0(data, "FRR");
      var standardFrr := Get0(frrData, standard);
      if Truthy(standardFrr) && standardFrr.Obj? {
        LegacySectionsFoldInv(standard, Get(Get(data, "info", Obj([])), "name", Str(standard)), standardFrr.fields, Initial);
      }
    }
  }

  /** A file name without the standard pattern yields nothing. */
  lemma NoStandardNothingParsed(data: Json, filename: string)
    requires data.Obj? && forall k: nat :: !MatchesAt(filename, k)
    ensures Legacy(data, filename) == Success(Empty)
  {
  }

  /** A requirement whose id lacks the `FRR-` prefix is skipped, and unlike
      in the consolidated parser it is not marked as seen. */
  lemma LegacyForeignIdSkipped(standard: string, groupTitle: Json, req: Json, s: FrrState)
    requires TextId(req).Some? && !StartsWith(TextId(req).value, "FRR-")
    ensures LegacyRequirementStep(standard, groupTitle, req, s) == Success(s)
  {
  }
}
