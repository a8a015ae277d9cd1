/** The FRR parser of the consolidated format: `parse_frr_consolidated`,
    `_process_frr_section` and `_process_single_frr_requirement`. The Python
    functions thread four mutable accumulators (the control list, the impact
    and following-information dicts, and the set of requirement ids already
    seen) through their calls; here they are the fields of a `Collector`,
    whose methods are proved to compute the fold functions below. */
module Frr {
  import opened Json
  import opened Text
  import opened Prose
  import opened ControlIds
  import opened Indicators
  import opened Controls

  /** What the FRR parsers accumulate: the parsed controls and the raw
      requirement ids already processed. */
  datatype FrrState = FrrState(parsed: Parsed, seen: set<string>)

  const Initial := FrrState(Empty, {})

  /** The control id of a requirement: `normalize_frr_control_id` for ids
      starting with `FRR-`, `normalize_control_id` with no prefix otherwise.
      Either way the result is lower case. */
  function FrrControlId(reqId: string, standard: string): (r: string)
    ensures NoUpper(r)
    ensures StartsWith(reqId, "FRR-") ==> r == NormalizeFrrControlId(reqId, standard)
    ensures !StartsWith(reqId, "FRR-") ==> r == NormalizeControlId(reqId, "")
  {
    if StartsWith(reqId, "FRR-") then NormalizeFrrControlId(reqId, standard) else NormalizeControlId(reqId, "")
  }

  // ---------------------------------------------------------------------
  // _process_single_frr_requirement
  // ---------------------------------------------------------------------

  /** One requirement. A dict with a truthy text id that has not been seen is
      marked seen, and emitted when it has a statement. */
  function RequirementStep(standard: string, groupTitle: Json, req: Json, s: FrrState): Result<FrrState> {
    if !req.Obj? then Success(s)
    else
      var id := Get(req, "id", Str(""));
      if !Truthy(id) then Success(s)
      else if !id.Str? then Failure(Raises("startswith on an id that is not text"))
      else if id.s in s.seen then Success(s)
      else
        var seen := s.seen + {id.s};
        var statement := FrrStatement(req);
        if !Truthy(statement) then Success(FrrState(s.parsed, seen))
        else EmitRequirement(standard, groupTitle, FrrControlId(id.s, standard), statement, req, FrrState(s.parsed, seen))
  }

  /** The emitting half of `_process_single_frr_requirement`. */
  function EmitRequirement(standard: string, groupTitle: Json, controlId: string, statement: Json, req: Json,
                           s: FrrState): Result<FrrState>
    requires req.Obj?
  {
    match Emit(Production, s.parsed, standard, groupTitle, controlId, statement,
               TitleOf(Production, req, controlId), ImpactOf(Production, req),
               Get(req, "following_information", Arr([])))
    case Failure(e) => Failure(e)
    case Success(p) => Success(FrrState(p, s.seen))
  }

  function RequirementsFold(standard: string, groupTitle: Json, reqs: seq<Json>, s: FrrState): Result<FrrState> {
    if reqs == [] then Success(s)
    else
      match RequirementStep(standard, groupTitle, reqs[0], s)
      case Failure(e) => Failure(e)
      case Success(t) => RequirementsFold(standard, groupTitle, reqs[1..], t)
  }

  // ---------------------------------------------------------------------
  // _process_frr_section
  // ---------------------------------------------------------------------

  /** The items of a dict's `requirements` entry when that is a list. */
  function RequirementsList(j: Json): Option<seq<Json>>
    requires j.Obj?
  {
    match Lookup(j.fields, "requirements")
    case Some(Arr(items)) => Some(items)
    case _ => None
  }

  /** `dict(inner)` with `id` set to the entry's key when it has none. */
  function KeyedRequirement(key: string, inner: Json): (r: Json)
    requires inner.Obj?
    ensures r.Obj?
    ensures Get(r, "id", Str("")) == Get(inner, "id", Str(key))
    ensures forall k :: k != "id" ==> Lookup(r.fields, k) == Lookup(inner.fields, k)
  {
    if Has(inner, "id") then inner else Obj(Append(inner.fields, "id", Str(key)))
  }

  /** What the pre-scan of a nested sub-section looks for. */
  predicate LooksLikeRequirement(j: Json) {
    j.Obj? && (Has(j, "statement") || Has(j, "requirements"))
  }

  predicate HasNestedReqs(entries: seq<(string, Json)>) {
    exists i :: 0 <= i < |entries| && LooksLikeRequirement(entries[i].1)
  }

  /** One entry of a nested sub-section: a requirements list, or a
      requirement keyed by its id. */
  function InnerStep(standard: string, groupTitle: Json, key: string, inner: Json, s: FrrState): Result<FrrState> {
    if !inner.Obj? then Success(s)
    else
      match RequirementsList(inner)
      case Some(reqs) => RequirementsFold(standard, groupTitle, reqs, s)
      case None =>
        if Has(inner, "statement") then RequirementStep(standard, groupTitle, KeyedRequirement(key, inner), s)
        else Success(s)
  }

  function InnersFold(standard: string, groupTitle: Json, entries: seq<(string, Json)>, s: FrrState): Result<FrrState> {
    if entries == [] then Success(s)
    else
      match InnerStep(standard, groupTitle, entries[0].0, entries[0].1, s)
      case Failure(e) => Failure(e)
      case Success(t) => InnersFold(standard, groupTitle, entries[1..], t)
  }

  /** One sub-section of an FRR section. */
  function SubsectionStep(standard: string, groupTitle: Json, key: string, value: Json, s: FrrState): Result<FrrState> {
    if key == "info" || key == "data" || key == "front_matter" || !value.Obj? then Success(s)
    else
      match RequirementsList(value)
      case Some(reqs) => RequirementsFold(standard, groupTitle, reqs, s)
      case None =>
        if HasNestedReqs(value.fields) then InnersFold(standard, groupTitle, value.fields, s)
        else Success(s)
  }

  function SubsectionsFold(standard: string, groupTitle: Json, entries: seq<(string, Json)>, s: FrrState): Result<FrrState> {
    if entries == [] then Success(s)
    else
      match SubsectionStep(standard, groupTitle, entries[0].0, entries[0].1, s)
      case Failure(e) => Failure(e)
      case Success(t) => SubsectionsFold(standard, groupTitle, entries[1..], t)
  }

  /** `_process_frr_section`: a top-level requirements list, else the
      sub-sections of `data` (or of the section itself). */
  function Section(standard: string, groupTitle: Json, frrData: Json, s: FrrState): Result<FrrState>
    requires frrData.Obj?
  {
    match RequirementsList(frrData)
    case Some(reqs) => RequirementsFold(standard, groupTitle, reqs, s)
    case None =>
      var dataSection := Get(frrData, "data", frrData);
      if dataSection.Obj? then SubsectionsFold(standard, groupTitle, dataSection.fields, s)
      else Success(s)
  }

  // ---------------------------------------------------------------------
  // parse_frr_consolidated
  // ---------------------------------------------------------------------

  /** Where a top-level entry keeps its FRR data and its section info: the
      entry itself under the key `FRR`, its `FRR` child, or the `FRR` child of
      its `data` dict. */
  function FrrSource(data: Json, key: string, value: Json): Option<(Json, Json)>
    requires data.Obj? && value.Obj?
  {
    if key == "FRR" then Some((value, Get(data, "info", Obj([]))))
    else if Has(value, "FRR") then Some((Get0(value, "FRR"), Get(value, "info", Obj([]))))
    else if Has(value, "data") then
      var inner := Get0(value, "data");
      if inner.Obj? && Has(inner, "FRR") then Some((Get0(inner, "FRR"), Get(value, "info", Obj([]))))
      else None
    else None
  }

  /** `section_info.get("short_name") or top_key`; a truthy short name that
      is not text is outside the model. */
  function StandardOf(info: Json, key: string): Result<string>
    requires info.Obj?
  {
    var shortName := Get0(info, "short_name");
    if !Truthy(shortName) then Success(key)
    else if shortName.Str? then Success(shortName.s)
    else Failure(OffSchema("short_name that is not text"))
  }

  /** `section_info.get("name") or KSI_GROUP_TITLES.get(standard, standard)`. */
  function StandardTitle(info: Json, standard: string): Json
    requires info.Obj?
  {
    Or(Get0(info, "name"), Str(GroupTitle(Production, standard)))
  }

  function TopStep(data: Json, key: string, value: Json, s: FrrState): Result<FrrState>
    requires data.Obj?
  {
    if !value.Obj? || key == "info" || key == "FRD" || key == "KSI" then Success(s)
    else
      match FrrSource(data, key, value)
      case None => Success(s)
      case Some(source) =>
        var (frrData, info) := source;
        if !Truthy(frrData) || !frrData.Obj? then Success(s)
        else if !info.Obj? then Failure(Raises(".get on section info that is not a dict"))
        else
          match StandardOf(info, key)
          case Failure(e) => Failure(e)
          case Success(standard) => Section(standard, StandardTitle(info, standard), frrData, s)
  }

  function TopFold(data: Json, entries: seq<(string, Json)>, s: FrrState): Result<FrrState>
    requires data.Obj?
  {
    if entries == [] then Success(s)
    else
      match TopStep(data, entries[0].0, entries[0].1, s)
      case Failure(e) => Failure(e)
      case Success(t) => TopFold(data, entries[1..], t)
  }

  /** `parse_frr_consolidated`: one set of seen ids across all standards. */
  function Consolidated(data: Json): Result<Parsed>
    requires data.Obj?
  {
    match TopFold(data, data.fields, Initial)
    case Failure(e) => Failure(e)
    case Success(s) => Success(s.parsed)
  }

  // ---------------------------------------------------------------------
  // The accumulators
  // ---------------------------------------------------------------------

  /** The pre-scan of a sub-section's entries for one that looks like a
      requirement; it stops at the first. */
  method ScanForRequirements(entries: seq<(string, Json)>) returns (found: bool)
    ensures found == HasNestedReqs(entries)
  {
    found := false;
    var k := 0;
    while k < |entries| && !found
      invariant 0 <= k <= |entries|
      invariant found ==> HasNestedReqs(entries)
      invariant !found ==> forall j :: 0 <= j < k ==> !LooksLikeRequirement(entries[j].1)
    {
      if LooksLikeRequirement(entries[k].1) {
        found := true;
      }
      k := k + 1;
    }
  }

  /** The outcome a method reports: its error, or the state it left. */
  function Outcome(err: Option<Error>, s: FrrState): Result<FrrState> {
    if err.Some? then Failure(err.value) else Success(s)
  }

  /** `controls`, `control_impacts`, `control_following_info` and
      `seen_req_ids`, shared by the calls of one parse. */
  class Collector {
    var controls: seq<Entry>
    var impacts: map<string, Impact>
    var followingInfo: map<string, Json>
    var seen: set<string>

    constructor ()
      ensures State() == Initial
    {
      controls := [];
      impacts := map[];
      followingInfo := map[];
      seen := {};
    }

    function State(): FrrState
      reads this
    {
      FrrState(Parsed(controls, impacts, followingInfo), seen)
    }

    /** `_process_single_frr_requirement`. */
    method ProcessRequirement(standard: string, groupTitle: Json, req: Json) returns (err: Option<Error>)
      modifies this
      ensures Outcome(err, State()) == RequirementStep(standard, groupTitle, req, old(State()))
    {
      if !req.Obj? {
        return None;
      }
      var id := Get(req, "id", Str(""));
      if !Truthy(id) {
        return None;
      }
      if !id.Str? {
        return Some(Raises("startswith on an id that is not text"));
      }
      if id.s in seen {
        return None;
      }
      seen := seen + {id.s};
      var statement := GetFrrStatement(req);
      if !Truthy(statement) {
        return None;
      }
      var controlId := FrrControlId(id.s, standard);
      err := EmitRequirementInto(standard, groupTitle, controlId, statement, req);
    }

    /** The emitting half of `_process_single_frr_requirement`: the new
        control, its impact and its following information are stored once
        the control has been built. */
    method EmitRequirementInto(standard: string, groupTitle: Json, controlId: string, statement: Json, req: Json)
      returns (err: Option<Error>)
      requires req.Obj?
      modifies this
      ensures Outcome(err, State()) == EmitRequirement(standard, groupTitle, controlId, statement, req, old(State()))
    {
      var title := TitleOf(Production, req, controlId);
      var impact := ExtractImpact(Production, req);
      var info := Get(req, "following_information", Arr([]));
      var r := EmitControl(Production, Parsed(controls, impacts, followingInfo), standard, groupTitle,
                           controlId, statement, title, impact, info);
      if r.Failure? {
        return Some(r.error);
      }
      controls, impacts, followingInfo := r.value.controls, r.value.impacts, r.value.followingInfo;
      return None;
    }

    /** `for req in ...["requirements"]: _process_single_frr_requirement(...)`. */
    method ProcessRequirements(standard: string, groupTitle: Json, reqs: seq<Json>) returns (err: Option<Error>)
      modifies this
      ensures Outcome(err, State()) == RequirementsFold(standard, groupTitle, reqs, old(State()))
    {
      var i := 0;
      while i < |reqs|
        invariant 0 <= i <= |reqs|
        invariant RequirementsFold(standard, groupTitle, reqs[i..], State())
                  == RequirementsFold(standard, groupTitle, reqs, old(State()))
      {
        err := ProcessRequirement(standard, groupTitle, reqs[i]);
        if err.Some? {
          return;
        }
        i := i + 1;
      }
      return None;
    }

    /** One sub-section: its requirements list, or, after the pre-scan finds
        an entry that looks like a requirement, its nested entries. */
    method ProcessSubsection(standard: string, groupTitle: Json, key: string, value: Json) returns (err: Option<Error>)
      modifies this
      ensures Outcome(err, State()) == SubsectionStep(standard, groupTitle, key, value, old(State()))
    {
      if key == "info" || key == "data" || key == "front_matter" || !value.Obj? {
        return None;
      }
      var reqs := RequirementsList(value);
      if reqs.Some? {
        err := ProcessRequirements(standard, groupTitle, reqs.value);
        return;
      }
      var hasNestedReqs := ScanForRequirements(value.fields);
      if !hasNestedReqs {
        return None;
      }
      err := ProcessInners(standard, groupTitle, value.fields);
    }

    /** The loop over the nested entries of a sub-section. */
    method ProcessInners(standard: string, groupTitle: Json, entries: seq<(string, Json)>) returns (err: Option<Error>)
      modifies this
      ensures Outcome(err, State()) == InnersFold(standard, groupTitle, entries, old(State()))
    {
      var i := 0;
      while i < |entries|
        invariant 0 <= i <= |entries|
        invariant InnersFold(standard, groupTitle, entries[i..], State())
                  == InnersFold(standard, groupTitle, entries, old(State()))
      {
        var (innerKey, inner) := entries[i];
        if inner.Obj? {
          var innerReqs := RequirementsList(inner);
          if innerReqs.Some? {
            err := ProcessRequirements(standard, groupTitle, innerReqs.value);
          } else if Has(inner, "statement") {
            err := ProcessRequirement(standard, groupTitle, KeyedRequirement(innerKey, inner));
          } else {
            err := None;
          }
          if err.Some? {
            return;
          }
        }
        i := i + 1;
      }
      return None;
    }

    /** `_process_frr_section`. */
    method ProcessSection(standard: string, groupTitle: Json, frrData: Json) returns (err: Option<Error>)
      requires frrData.Obj?
      modifies this
      ensures Outcome(err, State()) == Section(standard, groupTitle, frrData, old(State()))
    {
      var reqs := RequirementsList(frrData);
      if reqs.Some? {
        err := ProcessRequirements(standard, groupTitle, reqs.value);
        return;
      }
      var dataSection := Get(frrData, "data", frrData);
      if !dataSection.Obj? {
        return None;
      }
      err := ProcessSubsections(standard, groupTitle, dataSection.fields);
    }

    /** The loop over the sub-sections of a section. */
    method ProcessSubsections(standard: string, groupTitle: Json, entries: seq<(string, Json)>)
      returns (err: Option<Error>)
      modifies this
      ensures Outcome(err, State()) == SubsectionsFold(standard, groupTitle, entries, old(State()))
    {
      var i := 0;
      while i < |entries|
        invariant 0 <= i <= |entries|
        invariant SubsectionsFold(standard, groupTitle, entries[i..], State())
                  == SubsectionsFold(standard, groupTitle, entries, old(State()))
      {
        err := ProcessSubsection(standard, groupTitle, entries[i].0, entries[i].1);
        if err.Some? {
          return;
        }
        i := i + 1;
      }
      return None;
    }
  }

  /** `parse_frr_consolidated`. */
  method ParseFrrConsolidated(data: Json) returns (r: Result<Parsed>)
    requires data.Obj?
    ensures r == Consolidated(data)
  {
    var collector := new Collector();
    var entries := data.fields;
    var i := 0;
    while i < |entries|
      invariant 0 <= i <= |entries|
      invariant TopFold(data, entries[i..], collector.State()) == TopFold(data, entries, Initial)
    {
      var (key, value) := entries[i];
      if value.Obj? && key != "info" && key != "FRD" && key != "KSI" {
        var source := FrrSource(data, key, value);
        if source.Some? {
          var (frrData, info) := source.value;
          if Truthy(frrData) && frrData.Obj? {
            if !info.Obj? {
              return Failure(Raises(".get on section info that is not a dict"));
            }
            var standard := StandardOf(info, key);
            if standard.Failure? {
              return Failure(standard.error);
            }
            var err := collector.ProcessSection(standard.value, StandardTitle(info, standard.value), frrData);
            if err.Some? {
              return Failure(err.value);
            }
          }
        }
      }
      i := i + 1;
    }
    return Success(collector.State().parsed);
  }

  // ---------------------------------------------------------------------
  // Properties
  // ---------------------------------------------------------------------

  /** What every FRR parse keeps true: the parsed controls are consistent and
      lower case, and there are no more controls than requirement ids seen. */
  predicate Inv(s: FrrState) {
    && Consistent(s.parsed) && LowerIds(s.parsed)
    && |s.parsed.controls| <= |s.seen|
  }

  /** `t` extends `s`: controls are only appended and ids only added. */
  predicate Grows(s: FrrState, t: FrrState) {
    && s.seen <= t.seen
    && |s.parsed.controls| <= |t.parsed.controls|
    && t.parsed.controls[..|s.parsed.controls|] == s.parsed.controls
  }

  lemma GrowsTransitive(s: FrrState, t: FrrState, u: FrrState)
    requires Grows(s, t) && Grows(t, u)
    ensures Grows(s, u)
  {
    assert u.parsed.controls[..|s.parsed.controls|] == u.parsed.controls[..|t.parsed.controls|][..|s.parsed.controls|];
  }

  /** The text id of a requirement, when it has a truthy one. */
  function TextId(req: Json): Option<string> {
    if req.Obj? && Get(req, "id", Str("")).Str? && Get(req, "id", Str("")).s != "" then
      Some(Get(req, "id", Str("")).s)
    else None
  }

  /** A newly seen id with one appended control keeps the invariant. */
  lemma EmittedInv(s: FrrState, id: string, q: Parsed)
    requires Inv(s) && id !in s.seen
    requires Consistent(q) && LowerIds(q)
    requires |q.controls| == |s.parsed.controls| + 1 && q.controls[..|s.parsed.controls|] == s.parsed.controls
    ensures var t := FrrState(q, s.seen + {id});
      Inv(t) && Grows(s, t) && id in t.seen
  {
    assert |s.seen + {id}| == |s.seen| + 1;
  }

  /** One requirement keeps the invariant, only extends the state, records
      its id as seen (whether or not it has a statement), and adds at most
      one control. */
  lemma RequirementStepInv(standard: string, groupTitle: Json, req: Json, s: FrrState)
    requires Inv(s)
    requires RequirementStep(standard, groupTitle, req, s).Success?
    ensures var t := RequirementStep(standard, groupTitle, req, s).value;
      && Inv(t) && Grows(s, t)
      && (TextId(req).Some? ==> TextId(req).value in t.seen)
      && |t.parsed.controls| <= |s.parsed.controls| + 1
  {
    var t := RequirementStep(standard, groupTitle, req, s).value;
    if req.Obj? {
      var id := Get(req, "id", Str(""));
      if Truthy(id) && id.Str? && id.s !in s.seen {
        var seen := s.seen + {id.s};
        var statement := FrrStatement(req);
        if Truthy(statement) {
          var controlId := FrrControlId(id.s, standard);
          var e := Emit(Production, s.parsed, standard, groupTitle, controlId, statement,
                        TitleOf(Production, req, controlId), ImpactOf(Production, req),
                        Get(req, "following_information", Arr([])));
          EmitKeeps(Production, s.parsed, standard, groupTitle, controlId, statement,
                    TitleOf(Production, req, controlId), ImpactOf(Production, req),
                    Get(req, "following_information", Arr([])));
          assert t == FrrState(e.value, seen);
          EmittedInv(s, id.s, e.value);
        } else {
          assert |seen| == |s.seen| + 1;
        }
      }
    }
  }

  /** `q` is `p` with the control for the requirement `req` appended under
      `controlId`: in the standard's group, with the requirement's title,
      the cleaned statement and following information as parts, and the
      impact recorded under its id. */
  predicate EmittedRequirement(standard: string, groupTitle: Json, controlId: string, statement: Json,
                               impact: Result<Impact>, req: Json, p: Parsed, q: Parsed) {
    && req.Obj? && statement.Str? && impact.Success?
    && TitleOf(Production, req, controlId).Success?
    && EmittedControl(Production, p, q, standard, groupTitle, controlId, statement.s,
                      TitleOf(Production, req, controlId).value, impact.value,
                      Get(req, "following_information", Arr([])))
  }

  /** A dict requirement with a new truthy text id is marked seen; it emits
      nothing when it has no truthy statement, and otherwise exactly one
      control under its normalised id. */
  lemma RequirementStepEmits(standard: string, groupTitle: Json, req: Json, s: FrrState)
    requires Inv(s)
    requires TextId(req).Some? && TextId(req).value !in s.seen
    requires RequirementStep(standard, groupTitle, req, s).Success?
    ensures var t := RequirementStep(standard, groupTitle, req, s).value;
      var id := TextId(req).value;
      && t.seen == s.seen + {id}
      && (!Truthy(FrrStatement(req)) ==> t.parsed == s.parsed)
      && (Truthy(FrrStatement(req)) ==>
            EmittedRequirement(standard, groupTitle, FrrControlId(id, standard), FrrStatement(req),
                               ImpactOf(Production, req), req, s.parsed, t.parsed))
  {
    var id := TextId(req).value;
    assert Get(req, "id", Str("")) == Str(id);
    var seen := s.seen + {id};
    var statement := FrrStatement(req);
    if !Truthy(statement) {
      assert RequirementStep(standard, groupTitle, req, s) == Success(FrrState(s.parsed, seen));
    } else {
      var controlId := FrrControlId(id, standard);
      assert RequirementStep(standard, groupTitle, req, s)
          == EmitRequirement(standard, groupTitle, controlId, statement, req, FrrState(s.parsed, seen));
      var title := TitleOf(Production, req, controlId);
      var impact := ImpactOf(Production, req);
      var info := Get(req, "following_information", Arr([]));
      var r := Emit(Production, s.parsed, standard, groupTitle, controlId, statement, title, impact, info);
      assert r.Success?;
      assert RequirementStep(standard, groupTitle, req, s) == Success(FrrState(r.value, seen));
      EmitShape(Production, s.parsed, standard, groupTitle, controlId, statement, title, impact, info);
    }
  }

  /** A requirement whose id was already seen changes nothing. */
  lemma SeenRequirementSkipped(standard: string, groupTitle: Json, req: Json, s: FrrState)
    requires TextId(req).Some? && TextId(req).value in s.seen
    ensures RequirementStep(standard, groupTitle, req, s) == Success(s)
  {
  }

  /** Of two requirements with the same id, only the first counts, even when
      the first has no statement and so emits nothing. */
  lemma FirstOccurrenceWins(standard: string, groupTitle: Json, first: Json, second: Json, s: FrrState)
    requires Inv(s)
    requires TextId(first).Some? && TextId(first) == TextId(second)
    requires RequirementStep(standard, groupTitle, first, s).Success?
    ensures var t := RequirementStep(standard, groupTitle, first, s).value;
      RequirementStep(standard, groupTitle, second, t) == Success(t)
  {
    RequirementStepInv(standard, groupTitle, first, s);
  }

  lemma {:induction false} RequirementsFoldInv(standard: string, groupTitle: Json, reqs: seq<Json>, s: FrrState)
    requires Inv(s)
    requires RequirementsFold(standard, groupTitle, reqs, s).Success?
    ensures var t := RequirementsFold(standard, groupTitle, reqs, s).value;
      Inv(t) && Grows(s, t)
  {
    if reqs != [] {
      RequirementStepInv(standard, groupTitle, reqs[0], s);
      var t := RequirementStep(standard, groupTitle, reqs[0], s).value;
      RequirementsFoldInv(standard, groupTitle, reqs[1..], t);
      GrowsTransitive(s, t, RequirementsFold(standard, groupTitle, reqs[1..], t).value);
    }
  }

  /** Walking `a + b` is walking `a` and then `b`. */
  lemma {:induction false} RequirementsFoldAppend(standard: string, groupTitle: Json, a: seq<Json>, b: seq<Json>, s: FrrState)
    ensures var r := RequirementsFold(standard, groupTitle, a, s);
      RequirementsFold(standard, groupTitle, a + b, s) ==
        if r.Success? then RequirementsFold(standard, groupTitle, b, r.value) else r
    decreases |a|
  {
    if a == [] {
      assert a + b == b;
    } else {
      assert (a + b)[0] == a[0] && (a + b)[1..] == a[1..] + b;
      match RequirementStep(standard, groupTitle, a[0], s)
      case Failure(e) =>
      case Success(t) => RequirementsFoldAppend(standard, groupTitle, a[1..], b, t);
    }
  }

  /** After a walk, every requirement it met with a text id is marked seen. */
  lemma {:induction false} RequirementsFoldSeen(standard: string, groupTitle: Json, reqs: seq<Json>, s: FrrState, k: nat)
    requires Inv(s) && k < |reqs| && TextId(reqs[k]).Some?
    requires RequirementsFold(standard, groupTitle, reqs, s).Success?
    ensures TextId(reqs[k]).value in RequirementsFold(standard, groupTitle, reqs, s).value.seen
    decreases k
  {
    RequirementStepInv(standard, groupTitle, reqs[0], s);
    var t := RequirementStep(standard, groupTitle, reqs[0], s).value;
    if k == 0 {
      RequirementsFoldInv(standard, groupTitle, reqs[1..], t);
    } else {
      assert reqs[1..][k - 1] == reqs[k];
      RequirementsFoldSeen(standard, groupTitle, reqs[1..], t, k - 1);
    }
  }

  /** Only the first of two requirements with the same id counts, wherever
      the second one comes in the list: dropping it changes nothing. */
  lemma RequirementsFoldDuplicate(standard: string, groupTitle: Json, reqs: seq<Json>, s: FrrState, i: nat, j: nat)
    requires Inv(s) && i < j < |reqs|
    requires TextId(reqs[i]).Some? && TextId(reqs[i]) == TextId(reqs[j])
    ensures RequirementsFold(standard, groupTitle, reqs, s)
            == RequirementsFold(standard, groupTitle, reqs[..j] + reqs[j + 1..], s)
  {
    var before, rest := reqs[..j], reqs[j + 1..];
    assert reqs == before + ([reqs[j]] + rest);
    RequirementsFoldAppend(standard, groupTitle, before, [reqs[j]] + rest, s);
    RequirementsFoldAppend(standard, groupTitle, before, rest, s);
    var r := RequirementsFold(standard, groupTitle, before, s);
    if r.Success? {
      assert before[i] == reqs[i];
      RequirementsFoldSeen(standard, groupTitle, before, s, i);
      SeenRequirementSkipped(standard, groupTitle, reqs[j], r.value);
      assert ([reqs[j]] + rest)[0] == reqs[j] && ([reqs[j]] + rest)[1..] == rest;
    }
  }

  /** A list whose requirements were all seen before, in an earlier list or
      section of the same parse, changes nothing. */
  lemma {:induction false} RequirementsFoldAllSeen(standard: string, groupTitle: Json, reqs: seq<Json>, s: FrrState)
    requires forall k :: 0 <= k < |reqs| ==> TextId(reqs[k]).Some? && TextId(reqs[k]).value in s.seen
    ensures RequirementsFold(standard, groupTitle, reqs, s) == Success(s)
  {
    if reqs != [] {
      SeenRequirementSkipped(standard, groupTitle, reqs[0], s);
      assert forall k :: 0 <= k < |reqs[1..]| ==> reqs[1..][k] == reqs[k + 1];
      RequirementsFoldAllSeen(standard, groupTitle, reqs[1..], s);
    }
  }

  lemma InnerStepInv(standard: string, groupTitle: Json, key: string, inner: Json, s: FrrState)
    requires Inv(s)
    requires InnerStep(standard, groupTitle, key, inner, s).Success?
    ensures var t := InnerStep(standard, groupTitle, key, inner, s).value;
      Inv(t) && Grows(s, t)
  {
    if inner.Obj? {
      match RequirementsList(inner)
      case Some(reqs) => RequirementsFoldInv(standard, groupTitle, reqs, s);
      case None =>
        if Has(inner, "statement") {
          RequirementStepInv(standard, groupTitle, KeyedRequirement(key, inner), s);
        }
    }
  }

  lemma {:induction false} InnersFoldInv(standard: string, groupTitle: Json, entries: seq<(string, Json)>, s: FrrState)
    requires Inv(s)
    requires InnersFold(standard, groupTitle, entries, s).Success?
    ensures var t := InnersFold(standard, groupTitle, entries, s).value;
      Inv(t) && Grows(s, t)
  {
    if entries != [] {
      InnerStepInv(standard, groupTitle, entries[0].0, entries[0].1, s);
      var t := InnerStep(standard, groupTitle, entries[0].0, entries[0].1, s).value;
      InnersFoldInv(standard, groupTitle, entries[1..], t);
      GrowsTransitive(s, t, InnersFold(standard, groupTitle, entries[1..], t).value);
    }
  }

  lemma {:induction false} SubsectionsFoldInv(standard: string, groupTitle: Json, entries: seq<(string, Json)>, s: FrrState)
    requires Inv(s)
    requires SubsectionsFold(standard, groupTitle, entries, s).Success?
    ensures var t := SubsectionsFold(standard, groupTitle, entries, s).value;
      Inv(t) && Grows(s, t)
  {
    if entries != [] {
      var (key, value) := entries[0];
      if !(key == "info" || key == "data" || key == "front_matter" || !value.Obj?) {
        match RequirementsList(value)
        case Some(reqs) => RequirementsFoldInv(standard, groupTitle, reqs, s);
        case None =>
          if HasNestedReqs(value.fields) {
            InnersFoldInv(standard, groupTitle, value.fields, s);
          }
      }
      var t := SubsectionStep(standard, groupTitle, key, value, s).value;
      SubsectionsFoldInv(standard, groupTitle, entries[1..], t);
      GrowsTransitive(s, t, SubsectionsFold(standard, groupTitle, entries[1..], t).value);
    }
  }

  lemma SectionInv(standard: string, groupTitle: Json, frrData: Json, s: FrrState)
    requires frrData.Obj? && Inv(s)
    requires Section(standard, groupTitle, frrData, s).Success?
    ensures var t := Section(standard, groupTitle, frrData, s).value;
      Inv(t) && Grows(s, t)
  {
    match RequirementsList(frrData)
    case Some(reqs) => RequirementsFoldInv(standard, groupTitle, reqs, s);
    case None =>
      var dataSection := Get(frrData, "data", frrData);
      if dataSection.Obj? {
        SubsectionsFoldInv(standard, groupTitle, dataSection.fields, s);
      }
  }

  lemma {:induction false} TopFoldInv(data: Json, entries: seq<(string, Json)>, s: FrrState)
    requires data.Obj? && Inv(s)
    requires TopFold(data, entries, s).Success?
    ensures var t := TopFold(data, entries, s).value;
      Inv(t) && Grows(s, t)
  {
    if entries != [] {
      var (key, value) := entries[0];
      if value.Obj? && !(key == "info" || key == "FRD" || key == "KSI") && FrrSource(data, key, value).Some? {
        var (frrData, info) := FrrSource(data, key, value).value;
        if Truthy(frrData) && frrData.Obj? && info.Obj? {
          var standard := StandardOf(info, key).value;
          SectionInv(standard, StandardTitle(info, standard), frrData, s);
        }
      }
      var t := TopStep(data, key, value, s).value;
      TopFoldInv(data, entries[1..], t);
      GrowsTransitive(s, t, TopFold(data, entries[1..], t).value);
    }
  }

  /** Whatever `parse_frr_consolidated` returns is consistent and lower
      case. */
  lemma ConsolidatedConsistent(data: Json)
    requires data.Obj? && Consolidated(data).Success?
    ensures Consistent(Consolidated(data).value) && LowerIds(Consolidated(data).value)
  {
    EmptyConsistent();
    TopFoldInv(data, data.fields, Initial);
  }

  /** The pre-scan of a nested sub-section never changes the result: without
      an entry that looks like a requirement, walking the entries would emit
      nothing anyway. */
  lemma {:induction false} PrescanRedundant(standard: string, groupTitle: Json, entries: seq<(string, Json)>, s: FrrState)
    requires !HasNestedReqs(entries)
    ensures InnersFold(standard, groupTitle, entries, s) == Success(s)
  {
    if entries != [] {
      assert !LooksLikeRequirement(entries[0].1);
      assert !HasNestedReqs(entries[1..]) by {
        forall i | 0 <= i < |entries[1..]| ensures !LooksLikeRequirement(entries[1..][i].1) {
          assert entries[1..][i] == entries[i + 1];
        }
      }
      PrescanRedundant(standard, groupTitle, entries[1..], s);
    }
  }

  /** Duplicates are found by raw id, not by control id: an id with the
      `FRR-` prefix and the same id without it are two requirements to the
      seen set, but they get one control id, so both are emitted under it. */
  lemma PrefixedAndBareIdsCollide(rem: string, standard: string)
    requires '-' in rem && !StartsWith(rem, "FRR-")
    ensures "FRR-" + rem != rem
    ensures FrrControlId("FRR-" + rem, standard) == FrrControlId(rem, standard)
  {
    var id := "FRR-" + rem;
    assert |id| != |rem|;
    assert StartsWith(id, "FRR-") && id[4..] == rem;
    NormalizeFrrControlIdCases(id, standard);
    assert StartsWith(rem, "") && rem[0..] == rem;
    NormalizeControlIdCases(rem, "");
  }

  /** `FRR-ADS-01` and `ADS-01` both become `ads-01`. */
  lemma DistinctIdsCollide()
    ensures FrrControlId("FRR-ADS-01", "ADS") == FrrControlId("ADS-01", "ADS") == "ads-01"
  {
    ExampleAds01();
    CollideExample("FRR-ADS-01", "ADS-01", "ADS");
  }

  lemma CollideExample(id: string, rem: string, standard: string)
    requires id == "FRR-ADS-01" && rem == "ADS-01"
    ensures FrrControlId(id, standard) == FrrControlId(rem, standard)
  {
    assert id == "FRR-" + rem;
    assert rem[3] == '-';
    assert rem[..4] != "FRR-" by { assert rem[0] != 'F'; }
    PrefixedAndBareIdsCollide(rem, standard);
  }
}
