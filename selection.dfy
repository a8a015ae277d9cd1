/** The per-level control lists `main` hands to `build_oscal_profile`: a
    control is listed under every level its recorded impact marks true. */
module Selection {
  import opened Json
  import opened Order
  import opened Indicators
  import opened Controls
  import opened Catalog

  /** `all_control_impacts.get(id, {}).get(lvl, False)`. */
  predicate Applies(impacts: map<string, Impact>, id: string, l: Level) {
    id in impacts && l in impacts[id] && impacts[id][l]
  }

  /** `impact_controls[l]` after the loop over `entries`. */
  function LevelIds(entries: seq<Entry>, impacts: map<string, Impact>, l: Level): (r: seq<string>)
    ensures |r| <= |entries|
    decreases |entries|
  {
    if entries == [] then []
    else
      var id := entries[|entries| - 1].control.id;
      LevelIds(entries[..|entries| - 1], impacts, l) + (if Applies(impacts, id, l) then [id] else [])
  }

  function LevelIndex(l: Level): nat {
    match l
    case Low => 0
    case Moderate => 1
    case High => 2
  }

  /** The loop at lines 1138-1145 of `main`. */
  method ImpactLists(entries: seq<Entry>, impacts: map<string, Impact>) returns (lists: map<Level, seq<string>>)
    ensures forall l :: l in lists && lists[l] == LevelIds(entries, impacts, l)
  {
    lists := map[Low := [], Moderate := [], High := []];
    forall l: Level ensures l in lists && lists[l] == [] {
      EveryLevel(l);
    }
    assert entries[..0] == [];
    var i := 0;
    while i < |entries|
      invariant 0 <= i <= |entries|
      invariant forall l :: l in lists && lists[l] == LevelIds(entries[..i], impacts, l)
    {
      assert entries[..i + 1][..i] == entries[..i];
      var id := entries[i].control.id;
      var impact: Impact := if id in impacts then impacts[id] else map[];
      lists := AddToLevels(lists, id, impact);
      i := i + 1;
    }
    assert entries[..|entries|] == entries;
  }

  /** The inner loop over the three levels for one control. */
  method AddToLevels(lists: map<Level, seq<string>>, id: string, impact: Impact) returns (r: map<Level, seq<string>>)
    requires forall l :: l in lists
    ensures forall l :: l in r && r[l] == lists[l] + (if l in impact && impact[l] then [id] else [])
  {
    r := lists;
    var j := 0;
    while j < |Levels|
      invariant 0 <= j <= |Levels|
      invariant forall l :: (l in r && r[l] == lists[l] + (if LevelIndex(l) < j && l in impact && impact[l] then [id] else []))
    {
      var lvl := Levels[j];
      assert LevelIndex(lvl) == j;
      if lvl in impact && impact[lvl] {
        r := r[lvl := r[lvl] + [id]];
      }
      j := j + 1;
    }
  }

  /** A level's list holds exactly the ids of the controls whose recorded
      impact marks that level. */
  lemma {:induction false} LevelIdsMembers(entries: seq<Entry>, impacts: map<string, Impact>, l: Level, id: string)
    ensures id in LevelIds(entries, impacts, l) <==>
      (exists i :: 0 <= i < |entries| && entries[i].control.id == id) && Applies(impacts, id, l)
    decreases |entries|
  {
    if entries != [] {
      var prefix := entries[..|entries| - 1];
      LevelIdsMembers(prefix, impacts, l, id);
      if exists i :: 0 <= i < |entries| && entries[i].control.id == id {
        var i :| 0 <= i < |entries| && entries[i].control.id == id;
        if i < |prefix| {
          assert prefix[i].control.id == id;
        }
      }
      if exists i :: 0 <= i < |prefix| && prefix[i].control.id == id {
        var i :| 0 <= i < |prefix| && prefix[i].control.id == id;
        assert entries[i].control.id == id;
      }
    }
  }

  /** Pairwise distinct control ids give lists without repetitions. */
  lemma {:induction false} LevelIdsDistinct(entries: seq<Entry>, impacts: map<string, Impact>, l: Level)
    requires forall i, j :: 0 <= i < j < |entries| ==> entries[i].control.id != entries[j].control.id
    ensures var r := LevelIds(entries, impacts, l);
      forall i, j :: 0 <= i < j < |r| ==> r[i] != r[j]
    decreases |entries|
  {
    if entries != [] {
      var prefix := entries[..|entries| - 1];
      var id := entries[|entries| - 1].control.id;
      assert forall i :: 0 <= i < |prefix| ==> prefix[i] == entries[i];
      LevelIdsDistinct(prefix, impacts, l);
      LevelIdsMembers(prefix, impacts, l, id);
    }
  }

  /** For consistent parser output the lists follow the recorded impacts:
      every listed control has its level marked, and every control with its
      level marked is listed. */
  lemma ConsistentLevels(p: Parsed, l: Level, i: nat)
    requires Consistent(p) && i < |p.controls|
    ensures var id := p.controls[i].control.id;
      id in LevelIds(p.controls, p.impacts, l) <==> p.impacts[id][l]
  {
    LevelIdsMembers(p.controls, p.impacts, l, p.controls[i].control.id);
  }

  /** The profile built for a level selects, in ascending order, exactly
      the controls whose recorded impact marks that level. */
  lemma ProfileForLevel(entries: seq<Entry>, impacts: map<string, Impact>, l: Level, catalogUuid: string,
                        version: string, stamps: Json, changed: bool, now: string, later: string,
                        uuidOf: string -> string)
    requires stamps.Null? || stamps.Obj?
    ensures var ids := LevelIds(entries, impacts, l);
      var imp := ImportOf(ProfileDoc(LevelName(l), ids, catalogUuid, version, stamps, changed, now, later, uuidOf));
      && imp.Some? && imp.value.Obj?
      && exists s :: Get0(imp.value, "include-controls") == Arr([Obj([("with-ids", Arr(StrItems(s)))])])
           && Sorted(s)
           && forall id :: id in s <==>
                (exists i :: 0 <= i < |entries| && entries[i].control.id == id) && Applies(impacts, id, l)
  {
    var ids := LevelIds(entries, impacts, l);
    ProfileSelection(LevelName(l), ids, catalogUuid, version, stamps, changed, now, later, uuidOf);
    var imp := ImportOf(ProfileDoc(LevelName(l), ids, catalogUuid, version, stamps, changed, now, later, uuidOf)).value;
    var s :| Get0(imp, "include-controls") == Arr([Obj([("with-ids", Arr(StrItems(s)))])])
             && Sorted(s) && multiset(s) == multiset(ids);
    SameMembers(entries, impacts, l, s);
  }

  /** Any rearrangement of a level's list holds the same controls. */
  lemma SameMembers(entries: seq<Entry>, impacts: map<string, Impact>, l: Level, s: seq<string>)
    requires multiset(s) == multiset(LevelIds(entries, impacts, l))
    ensures forall id :: id in s <==>
      (exists i :: 0 <= i < |entries| && entries[i].control.id == id) && Applies(impacts, id, l)
  {
    var ids := LevelIds(entries, impacts, l);
    forall id ensures id in s <==>
      (exists i :: 0 <= i < |entries| && entries[i].control.id == id) && Applies(impacts, id, l)
    {
      assert id in s <==> id in multiset(s);
      assert id in ids <==> id in multiset(ids);
      LevelIdsMembers(entries, impacts, l, id);
    }
  }
}
