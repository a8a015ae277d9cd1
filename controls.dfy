/** The OSCAL control every parser emits for one indicator or requirement,
    and the three results the parsers return. */
module Controls {
  import opened Json
  import opened Text
  import opened Prose
  import opened Indicators

  datatype Part = Part(id: string, name: string, prose: Json)

  datatype Control = Control(id: string, title: Json, parts: seq<Part>)

  /** One element of a parser's `controls` list. */
  datatype Entry = Entry(groupId: string, groupTitle: Json, control: Control)

  /** `controls`, `control_impacts` and `control_following_info`. */
  datatype Parsed = Parsed(controls: seq<Entry>, impacts: map<string, Impact>, followingInfo: map<string, Json>)

  const Empty := Parsed([], map[], map[])

  /** `clean_prose(value)` on any value: falsy values come back unchanged,
      text is cleaned, anything else makes `text.strip()` raise. */
  function CleanValue(v: Variant, j: Json): (r: Result<Json>)
    ensures !Truthy(j) ==> r == Success(j)
    ensures j.Str? ==> r == Success(Str(CleanProse(v, j.s)))
    ensures r.Failure? <==> Truthy(j) && !j.Str?
  {
    if !Truthy(j) then Success(j)
    else if j.Str? then Success(Str(CleanProse(v, j.s)))
    else Failure(Raises("clean_prose on a value that is not text"))
  }

  function StatementId(controlId: string): string {
    controlId + "_smt"
  }

  /** The id of the `n`-th following-information item, counted from 1. */
  function ItemId(controlId: string, n: nat): string {
    controlId + "_smt.item." + NatToString(n)
  }

  /** The item parts for the first `n` following-information values. */
  function ItemPartsUpTo(v: Variant, controlId: string, items: seq<Json>, n: nat): (r: Result<seq<Part>>)
    requires n <= |items|
  {
    if n == 0 then Success([])
    else
      match ItemPartsUpTo(v, controlId, items, n - 1)
      case Failure(e) => Failure(e)
      case Success(ps) =>
        match CleanValue(v, items[n - 1])
        case Failure(e) => Failure(e)
        case Success(p) => Success(ps + [Part(ItemId(controlId, n), "item", p)])
  }

  /** The `for idx, info_item in enumerate(following_info, 1)` loop. */
  method BuildItemParts(v: Variant, controlId: string, items: seq<Json>) returns (r: Result<seq<Part>>)
    ensures r == ItemPartsUpTo(v, controlId, items, |items|)
  {
    var parts: seq<Part> := [];
    var idx := 0;
    while idx < |items|
      invariant 0 <= idx <= |items|
      invariant ItemPartsUpTo(v, controlId, items, idx) == Success(parts)
    {
      var prose := CleanValue(v, items[idx]);
      if prose.Failure? {
        assert ItemPartsUpTo(v, controlId, items, idx + 1) == Failure(prose.error);
        ItemFailureStays(v, controlId, items, idx + 1, |items|, prose.error);
        return Failure(prose.error);
      }
      assert ItemPartsUpTo(v, controlId, items, idx + 1)
        == Success(parts + [Part(ItemId(controlId, idx + 1), "item", prose.value)]);
      parts := parts + [Part(ItemId(controlId, idx + 1), "item", prose.value)];
      idx := idx + 1;
    }
    return Success(parts);
  }

  /** Once an item fails to clean, so does every longer prefix, with the same
      error. */
  lemma {:induction false} ItemFailureStays(v: Variant, controlId: string, items: seq<Json>, n: nat, m: nat, e: Error)
    requires n <= m <= |items| && ItemPartsUpTo(v, controlId, items, n) == Failure(e)
    ensures ItemPartsUpTo(v, controlId, items, m) == Failure(e)
    decreases m - n
  {
    if n < m {
      ItemFailureStep(v, controlId, items, n + 1, e);
      ItemFailureStays(v, controlId, items, n + 1, m, e);
    }
  }

  lemma ItemFailureStep(v: Variant, controlId: string, items: seq<Json>, m: nat, e: Error)
    requires 0 < m <= |items| && ItemPartsUpTo(v, controlId, items, m - 1) == Failure(e)
    ensures ItemPartsUpTo(v, controlId, items, m) == Failure(e)
  {
  }

  /** The item parts of a `following_information` value: none for a falsy
      value; Python raises while enumerating a truthy number or boolean. */
  function ItemParts(v: Variant, controlId: string, info: Json): (r: Result<seq<Part>>) {
    if !Truthy(info) then Success([])
    else
      match Iterate(info)
      case None => Failure(Raises("enumerate over a value that is not iterable"))
      case Some(items) => ItemPartsUpTo(v, controlId, items, |items|)
  }

  /** The `if following_info:` block: nothing for a falsy value, else the
      enumeration loop. */
  method BuildInfoParts(v: Variant, controlId: string, info: Json) returns (r: Result<seq<Part>>)
    ensures r == ItemParts(v, controlId, info)
  {
    if !Truthy(info) {
      return Success([]);
    }
    var values := Iterate(info);
    if values.None? {
      return Failure(Raises("enumerate over a value that is not iterable"));
    }
    r := BuildItemParts(v, controlId, values.value);
  }

  /** The part list succeeds exactly when every item cleans. */
  lemma {:induction false} ItemPartsUpToSucceeds(v: Variant, controlId: string, items: seq<Json>, n: nat)
    requires n <= |items|
    ensures ItemPartsUpTo(v, controlId, items, n).Success? <==>
      forall k :: 0 <= k < n ==> CleanValue(v, items[k]).Success?
  {
    if n == 0 {
      assert ItemPartsUpTo(v, controlId, items, n) == Success([]);
    } else {
      ItemPartsUpToSucceeds(v, controlId, items, n - 1);
      var prev := ItemPartsUpTo(v, controlId, items, n - 1);
      var last := CleanValue(v, items[n - 1]);
      if prev.Failure? {
        ItemFailureStep(v, controlId, items, n, prev.error);
        var k :| 0 <= k < n - 1 && !CleanValue(v, items[k]).Success?;
      } else if last.Failure? {
        assert ItemPartsUpTo(v, controlId, items, n) == Failure(last.error);
      } else {
        assert ItemPartsUpTo(v, controlId, items, n).Success?;
        forall k | 0 <= k < n ensures CleanValue(v, items[k]).Success? {
          if k < n - 1 {
            assert CleanValue(v, items[k]).Success?;
          }
        }
      }
    }
  }

  /** A part list that succeeds holds one `item` part per item, numbered
      from 1, carrying its cleaned text. */
  lemma {:induction false} ItemPartsUpToShape(v: Variant, controlId: string, items: seq<Json>, n: nat)
    requires n <= |items|
    requires ItemPartsUpTo(v, controlId, items, n).Success?
    ensures var ps := ItemPartsUpTo(v, controlId, items, n).value;
      && |ps| == n
      && forall k :: 0 <= k < n ==>
           ps[k].id == ItemId(controlId, k + 1) && ps[k].name == "item" && CleanValue(v, items[k]) == Success(ps[k].prose)
  {
    if n > 0 {
      var prev := ItemPartsUpTo(v, controlId, items, n - 1);
      var last := CleanValue(v, items[n - 1]);
      assert prev.Success? && last.Success?;
      ItemPartsUpToShape(v, controlId, items, n - 1);
      var ps := prev.value + [Part(ItemId(controlId, n), "item", last.value)];
      assert ItemPartsUpTo(v, controlId, items, n) == Success(ps);
      forall k | 0 <= k < n
        ensures ps[k].id == ItemId(controlId, k + 1) && ps[k].name == "item" && CleanValue(v, items[k]) == Success(ps[k].prose)
      {
        if k < n - 1 {
          assert ps[k] == prev.value[k];
        }
      }
    }
  }

  /** The parts of a control: its statement, then the items. */
  function ControlParts(controlId: string, cleaned: string, items: seq<Part>): seq<Part> {
    [Part(StatementId(controlId), "statement", Str(cleaned))] + items
  }

  /** `parts` has the shape the parsers promise: the statement part first,
      then one numbered `item` part per following-information value. */
  predicate WellShaped(c: Control) {
    && |c.parts| >= 1
    && c.parts[0].id == StatementId(c.id)
    && c.parts[0].name == "statement"
    && c.parts[0].prose.Str?
    && forall k :: 1 <= k < |c.parts| ==> c.parts[k].id == ItemId(c.id, k) && c.parts[k].name == "item"
  }

  lemma ControlPartsWellShaped(v: Variant, controlId: string, cleaned: string, title: Json, info: Json)
    requires ItemParts(v, controlId, info).Success?
    ensures var items := ItemParts(v, controlId, info).value;
      WellShaped(Control(controlId, title, ControlParts(controlId, cleaned, items)))
    ensures Truthy(info) ==>
      |ControlParts(controlId, cleaned, ItemParts(v, controlId, info).value)| == 1 + |Iterate(info).value|
    ensures !Truthy(info) ==> ItemParts(v, controlId, info).value == []
  {
    if Truthy(info) {
      var items := Iterate(info).value;
      assert ItemParts(v, controlId, info) == ItemPartsUpTo(v, controlId, items, |items|);
      ItemPartsUpToShape(v, controlId, items, |items|);
      var ps := ItemParts(v, controlId, info).value;
      var parts := ControlParts(controlId, cleaned, ps);
      forall k | 1 <= k < |parts| ensures parts[k].id == ItemId(controlId, k) && parts[k].name == "item" {
        assert parts[k] == ps[k - 1];
      }
    } else {
      assert ItemParts(v, controlId, info) == Success([]);
    }
  }

  /** The ids of a well-shaped control's parts are pairwise distinct. */
  lemma PartIdsDistinct(c: Control, i: nat, j: nat)
    requires WellShaped(c) && i < j < |c.parts|
    ensures c.parts[i].id != c.parts[j].id
  {
    var a := ItemId(c.id, j);
    if i == 0 {
      assert |a| > |StatementId(c.id)|;
    } else {
      var b := ItemId(c.id, i);
      var p := c.id + "_smt.item.";
      if a == b {
        assert NatToString(i) == b[|p|..] && NatToString(j) == a[|p|..];
        NatToStringInjective(i, j);
      }
    }
  }

  /** The title the module gives a control: `generate_title` on the `name`
      field; a truthy name that is not text makes `name.strip()` raise. The
      test copy stores the `name` field as it is, or the upper-cased id when
      there is none. */
  function TitleOf(v: Variant, indicator: Json, controlId: string): (r: Result<Json>)
    requires indicator.Obj?
    ensures v == TestCopy ==> r == Success(Get(indicator, "name", Str(Upper(controlId))))
    ensures v == Production && r.Success? ==> r.value.Str?
  {
    if v == TestCopy then Success(Get(indicator, "name", Str(Upper(controlId))))
    else
      var name := Get(indicator, "name", Str(""));
      if !Truthy(name) then Success(Str(Upper(controlId)))
      else if name.Str? then Success(Str(GenerateTitle(name.s, controlId)))
      else Failure(Raises("strip() on a name that is not text"))
  }

  /** A name that is text, or no name at all, always gives a title. */
  lemma TitleOfTextName(v: Variant, indicator: Json, controlId: string)
    requires indicator.Obj? && (Has(indicator, "name") ==> Get0(indicator, "name").Str?)
    ensures TitleOf(v, indicator, controlId).Success?
  {
  }

  /** `KSI_GROUP_TITLES` in the module. */
  const ModuleGroupTitles: map<string, string> := map[
    "CNA" := "Cloud Native Architecture",
    "SVC" := "Service Configuration",
    "IAM" := "Identity and Access Management",
    "MLA" := "Monitoring, Logging, and Auditing",
    "CMT" := "Change Management",
    "PIY" := "Policy and Inventory",
    "SCR" := "Supply Chain Risk",
    "CED" := "Cybersecurity Education",
    "RPL" := "Recovery Planning",
    "INR" := "Incident Response",
    "AFR" := "Authorization by FedRAMP",
    "TPR" := "Third-Party Information Resources"]

  /** `KSI_GROUP_TITLES` in the test file, which keeps four of the themes. */
  const TestGroupTitles: map<string, string> := map[
    "CNA" := "Cloud Native Architecture",
    "SVC" := "Service Configuration",
    "SCR" := "Supply Chain Risk",
    "TPR" := "Third-Party Information Resources"]

  /** `KSI_GROUP_TITLES.get(groupId, groupId)`. */
  function GroupTitle(v: Variant, groupId: string): string {
    var titles := if v == Production then ModuleGroupTitles else TestGroupTitles;
    if groupId in titles then titles[groupId] else groupId
  }

  /** The test file's table agrees with the module's wherever it has an
      entry. */
  lemma GroupTitlesAgree(groupId: string)
    requires groupId in TestGroupTitles
    ensures GroupTitle(TestCopy, groupId) == GroupTitle(Production, groupId)
  {
  }

  /** Appends a control and records its impact and, when truthy, its
      following information. */
  function Record(p: Parsed, groupId: string, groupTitle: Json, c: Control, impact: Impact, info: Json): (r: Parsed)
    ensures r.controls == p.controls + [Entry(groupId, groupTitle, c)]
    ensures r.impacts == p.impacts[c.id := impact]
    ensures r.followingInfo == if Truthy(info) then p.followingInfo[c.id := info] else p.followingInfo
  {
    Parsed(p.controls + [Entry(groupId, groupTitle, c)], p.impacts[c.id := impact],
           if Truthy(info) then p.followingInfo[c.id := info] else p.followingInfo)
  }

  /** The body shared by every parser once it has an id, a truthy statement,
      a title source, an impact map and following information: clean the
      statement, build the title and the parts, record the control. */
  function Emit(v: Variant, p: Parsed, groupId: string, groupTitle: Json, controlId: string,
                statement: Json, title: Result<Json>, impact: Result<Impact>, info: Json): Result<Parsed>
  {
    if !statement.Str? then Failure(Raises("clean_prose on a statement that is not text"))
    else
      match title
      case Failure(e) => Failure(e)
      case Success(t) =>
        match impact
        case Failure(e) => Failure(e)
        case Success(imp) =>
          match ItemParts(v, controlId, info)
          case Failure(e) => Failure(e)
          case Success(items) =>
            var c := Control(controlId, t, ControlParts(controlId, CleanProse(v, statement.s), items));
            Success(Record(p, groupId, groupTitle, c, imp, info))
  }

  /** The emitting code every parser shares, in the order the source runs
      it: clean the statement, check the title and the impact map, build
      the item parts with their loop, record the control. */
  method EmitControl(v: Variant, p: Parsed, groupId: string, groupTitle: Json, controlId: string, statement: Json,
                     title: Result<Json>, impact: Result<Impact>, info: Json) returns (r: Result<Parsed>)
    ensures r == Emit(v, p, groupId, groupTitle, controlId, statement, title, impact, info)
  {
    if !statement.Str? {
      return Failure(Raises("clean_prose on a statement that is not text"));
    }
    var cleaned := CleanProse(v, statement.s);
    if title.Failure? {
      return Failure(title.error);
    }
    if impact.Failure? {
      return Failure(impact.error);
    }
    var items := BuildInfoParts(v, controlId, info);
    if items.Failure? {
      return Failure(items.error);
    }
    var c := Control(controlId, title.value, ControlParts(controlId, cleaned, items.value));
    return Success(Record(p, groupId, groupTitle, c, impact.value, info));
  }

  /** Everything a parser has emitted is consistent: each control is well
      shaped with an impact entry that covers all three levels, and
      following information is only recorded for emitted controls. */
  predicate Consistent(p: Parsed) {
    && (forall i :: 0 <= i < |p.controls| ==> WellShaped(p.controls[i].control))
    && (forall i :: 0 <= i < |p.controls| ==> p.controls[i].control.id in p.impacts)
    && (forall id :: id in p.impacts ==> Complete(p.impacts[id]))
    && (forall id :: id in p.impacts ==> exists i :: 0 <= i < |p.controls| && p.controls[i].control.id == id)
    && (forall id :: id in p.followingInfo ==> id in p.impacts)
  }

  lemma EmptyConsistent()
    ensures Consistent(Empty)
  {
  }

  /** Recording a well-shaped control with a complete impact map keeps the
      results consistent. */
  lemma RecordConsistent(p: Parsed, groupId: string, groupTitle: Json, c: Control, impact: Impact, info: Json)
    requires Consistent(p) && WellShaped(c) && Complete(impact)
    ensures Consistent(Record(p, groupId, groupTitle, c, impact, info))
  {
    RecordShaped(p, groupId, groupTitle, c, impact, info);
    RecordCovered(p, groupId, groupTitle, c, impact, info);
  }

  lemma RecordShaped(p: Parsed, groupId: string, groupTitle: Json, c: Control, impact: Impact, info: Json)
    requires Consistent(p) && WellShaped(c)
    ensures var q := Record(p, groupId, groupTitle, c, impact, info);
      forall i :: 0 <= i < |q.controls| ==> WellShaped(q.controls[i].control) && q.controls[i].control.id in q.impacts
  {
    var q := Record(p, groupId, groupTitle, c, impact, info);
    forall i | 0 <= i < |q.controls|
      ensures WellShaped(q.controls[i].control) && q.controls[i].control.id in q.impacts
    {
      if i < |p.controls| {
        assert q.controls[i] == p.controls[i];
      } else {
        assert q.controls[i].control == c;
      }
    }
  }

  lemma RecordCovered(p: Parsed, groupId: string, groupTitle: Json, c: Control, impact: Impact, info: Json)
    requires Consistent(p) && Complete(impact)
    ensures var q := Record(p, groupId, groupTitle, c, impact, info);
      forall id :: id in q.impacts ==>
        Complete(q.impacts[id]) && exists i :: 0 <= i < |q.controls| && q.controls[i].control.id == id
  {
    var q := Record(p, groupId, groupTitle, c, impact, info);
    var n := |p.controls|;
    forall id | id in q.impacts
      ensures Complete(q.impacts[id]) && exists i :: 0 <= i < |q.controls| && q.controls[i].control.id == id
    {
      if id == c.id {
        assert q.impacts[id] == impact;
        assert q.controls[n].control.id == id;
      } else {
        assert id in p.impacts && q.impacts[id] == p.impacts[id];
        var i :| 0 <= i < n && p.controls[i].control.id == id;
        assert q.controls[i] == p.controls[i];
      }
    }
  }

  /** Emitting keeps the results consistent and appends exactly the control
      `EmittedControl` describes. */
  lemma EmitConsistent(v: Variant, p: Parsed, groupId: string, groupTitle: Json, controlId: string,
                       statement: Json, title: Result<Json>, impact: Result<Impact>, info: Json)
    requires Consistent(p)
    requires impact.Success? ==> Complete(impact.value)
    requires Emit(v, p, groupId, groupTitle, controlId, statement, title, impact, info).Success?
    ensures var q := Emit(v, p, groupId, groupTitle, controlId, statement, title, impact, info).value;
      && Consistent(q)
      && q.controls == p.controls + [q.controls[|p.controls|]]
      && var e := q.controls[|p.controls|];
         && e.groupId == groupId && e.groupTitle == groupTitle
         && e.control.id == controlId && e.control.title == title.value
         && e.control.parts[0].prose == Str(CleanProse(v, statement.s))
         && q.impacts[controlId] == impact.value
    ensures && statement.Str? && title.Success? && impact.Success?
            && EmittedControl(v, p, Emit(v, p, groupId, groupTitle, controlId, statement, title, impact, info).value,
                              groupId, groupTitle, controlId, statement.s, title.value, impact.value, info)
  {
    EmitShape(v, p, groupId, groupTitle, controlId, statement, title, impact, info);
    var items := ItemParts(v, controlId, info).value;
    var cleaned := CleanProse(v, statement.s);
    var c := Control(controlId, title.value, ControlParts(controlId, cleaned, items));
    ControlPartsWellShaped(v, controlId, cleaned, title.value, info);
    RecordConsistent(p, groupId, groupTitle, c, impact.value, info);
  }

  /** The parts a parser builds for a control: the cleaned statement first,
      then, for a truthy `following_information`, one `item` part per value,
      numbered from 1 and carrying that value cleaned; nothing more. */
  predicate PartsFor(v: Variant, controlId: string, statement: string, info: Json, parts: seq<Part>) {
    && |parts| >= 1
    && parts[0] == Part(StatementId(controlId), "statement", Str(CleanProse(v, statement)))
    && (!Truthy(info) ==> |parts| == 1)
    && (Truthy(info) ==>
          && Iterate(info).Some?
          && |parts| == 1 + |Iterate(info).value|
          && forall k :: 1 <= k < |parts| ==>
               && parts[k].id == ItemId(controlId, k) && parts[k].name == "item"
               && CleanValue(v, Iterate(info).value[k - 1]) == Success(parts[k].prose))
  }

  lemma ControlPartsFor(v: Variant, controlId: string, statement: string, info: Json)
    requires ItemParts(v, controlId, info).Success?
    ensures PartsFor(v, controlId, statement, info,
                     ControlParts(controlId, CleanProse(v, statement), ItemParts(v, controlId, info).value))
  {
    var ps := ItemParts(v, controlId, info).value;
    var parts := ControlParts(controlId, CleanProse(v, statement), ps);
    if Truthy(info) {
      var items := Iterate(info).value;
      assert ItemParts(v, controlId, info) == ItemPartsUpTo(v, controlId, items, |items|);
      ItemPartsUpToShape(v, controlId, items, |items|);
      forall k | 1 <= k < |parts|
        ensures && parts[k].id == ItemId(controlId, k) && parts[k].name == "item"
                && CleanValue(v, items[k - 1]) == Success(parts[k].prose)
      {
        assert parts[k] == ps[k - 1];
      }
    } else {
      assert ItemParts(v, controlId, info) == Success([]);
    }
  }

  /** `q` is `p` with exactly one control appended: in the given group,
      under `controlId`, with the given title and the parts built from the
      statement and the following information; the impact is recorded under
      that id, and the following information when it is truthy. */
  predicate EmittedControl(v: Variant, p: Parsed, q: Parsed, groupId: string, groupTitle: Json, controlId: string,
                           statement: string, title: Json, impact: Impact, info: Json) {
    && |q.controls| == |p.controls| + 1
    && q.controls[..|p.controls|] == p.controls
    && var e := q.controls[|p.controls|];
    && e.groupId == groupId && e.groupTitle == groupTitle
    && e.control.id == controlId && e.control.title == title
    && PartsFor(v, controlId, statement, info, e.control.parts)
    && q.impacts == p.impacts[controlId := impact]
    && q.followingInfo == (if Truthy(info) then p.followingInfo[controlId := info] else p.followingInfo)
  }

  /** A successful emit has a text statement, a title and an impact map,
      and appends the control they describe. */
  lemma EmitShape(v: Variant, p: Parsed, groupId: string, groupTitle: Json, controlId: string,
                  statement: Json, title: Result<Json>, impact: Result<Impact>, info: Json)
    requires Emit(v, p, groupId, groupTitle, controlId, statement, title, impact, info).Success?
    ensures && statement.Str? && title.Success? && impact.Success?
            && EmittedControl(v, p, Emit(v, p, groupId, groupTitle, controlId, statement, title, impact, info).value,
                              groupId, groupTitle, controlId, statement.s, title.value, impact.value, info)
  {
    var items := ItemParts(v, controlId, info).value;
    var c := Control(controlId, title.value, ControlParts(controlId, CleanProse(v, statement.s), items));
    var q := Record(p, groupId, groupTitle, c, impact.value, info);
    assert Emit(v, p, groupId, groupTitle, controlId, statement, title, impact, info) == Success(q);
    assert q.controls[..|p.controls|] == p.controls;
    assert q.controls[|p.controls|] == Entry(groupId, groupTitle, c);
    ControlPartsFor(v, controlId, statement.s, info);
  }

  /** Every emitted control id is lower case. */
  predicate LowerIds(p: Parsed) {
    forall i :: 0 <= i < |p.controls| ==> NoUpper(p.controls[i].control.id)
  }

  /** Emitting a lower-case id keeps every id lower case. */
  lemma EmitLower(v: Variant, p: Parsed, groupId: string, groupTitle: Json, controlId: string,
                  statement: Json, title: Result<Json>, impact: Result<Impact>, info: Json)
    requires LowerIds(p) && NoUpper(controlId)
    requires Emit(v, p, groupId, groupTitle, controlId, statement, title, impact, info).Success?
    ensures LowerIds(Emit(v, p, groupId, groupTitle, controlId, statement, title, impact, info).value)
  {
    EmitAppends(v, p, groupId, groupTitle, controlId, statement, title, impact, info);
    AppendLower(p, Emit(v, p, groupId, groupTitle, controlId, statement, title, impact, info).value, controlId);
  }

  lemma AppendLower(p: Parsed, q: Parsed, controlId: string)
    requires LowerIds(p) && NoUpper(controlId)
    requires |q.controls| == |p.controls| + 1 && q.controls[..|p.controls|] == p.controls
    requires q.controls[|p.controls|].control.id == controlId
    ensures LowerIds(q)
  {
    forall i | 0 <= i < |q.controls| ensures NoUpper(q.controls[i].control.id) {
      if i < |p.controls| {
        assert q.controls[i] == q.controls[..|p.controls|][i] == p.controls[i];
      }
    }
  }

  /** The two invariants of the parsers survive an emit, which appends one
      control. */
  lemma EmitKeeps(v: Variant, p: Parsed, groupId: string, groupTitle: Json, controlId: string,
                  statement: Json, title: Result<Json>, impact: Result<Impact>, info: Json)
    requires Consistent(p) && LowerIds(p) && NoUpper(controlId)
    requires impact.Success? ==> Complete(impact.value)
    requires Emit(v, p, groupId, groupTitle, controlId, statement, title, impact, info).Success?
    ensures var q := Emit(v, p, groupId, groupTitle, controlId, statement, title, impact, info).value;
      && Consistent(q) && LowerIds(q)
      && |q.controls| == |p.controls| + 1 && q.controls[..|p.controls|] == p.controls
  {
    EmitConsistent(v, p, groupId, groupTitle, controlId, statement, title, impact, info);
    EmitLower(v, p, groupId, groupTitle, controlId, statement, title, impact, info);
    EmitAppends(v, p, groupId, groupTitle, controlId, statement, title, impact, info);
  }

  /** Emitting appends one control with the given id. */
  lemma EmitAppends(v: Variant, p: Parsed, groupId: string, groupTitle: Json, controlId: string,
                    statement: Json, title: Result<Json>, impact: Result<Impact>, info: Json)
    requires Emit(v, p, groupId, groupTitle, controlId, statement, title, impact, info).Success?
    ensures var q := Emit(v, p, groupId, groupTitle, controlId, statement, title, impact, info).value;
      |q.controls| == |p.controls| + 1
      && q.controls[..|p.controls|] == p.controls
      && q.controls[|p.controls|].control.id == controlId
  {
    var items := ItemParts(v, controlId, info).value;
    var c := Control(controlId, title.value, ControlParts(controlId, CleanProse(v, statement.s), items));
    var q := Record(p, groupId, groupTitle, c, impact.value, info);
    assert Emit(v, p, groupId, groupTitle, controlId, statement, title, impact, info) == Success(q);
    assert q.controls[..|p.controls|] == p.controls;
  }
}
