/** `build_oscal_catalog`, `build_oscal_profile` and `content_has_changed`:
    the OSCAL documents built from the parsers' controls, and the test that
    decides whether their `last-modified` stamp is kept. */
module Catalog {
  import opened Json
  import opened Text
  import opened Order
  import opened Controls

  /** One value of the `groups_dict` defaultdict. */
  datatype Group = Group(id: string, title: Json, controls: seq<Control>)

  // ---------------------------------------------------------------------
  // Grouping
  // ---------------------------------------------------------------------

  /** `groups_dict` after the loop over `entries`: each entry sets its
      group's id and title and appends its control. */
  function GroupsOf(entries: seq<Entry>): map<string, Group>
    decreases |entries|
  {
    if entries == [] then map[]
    else
      var groups := GroupsOf(entries[..|entries| - 1]);
      var e := entries[|entries| - 1];
      var before := if e.groupId in groups then groups[e.groupId].controls else [];
      groups[e.groupId := Group(e.groupId, e.groupTitle, before + [e.control])]
  }

  /** The keys of `groups_dict` in insertion order: each group id where it
      first appears. */
  function GroupOrder(entries: seq<Entry>): seq<string>
    decreases |entries|
  {
    if entries == [] then []
    else
      var ids := GroupOrder(entries[..|entries| - 1]);
      var g := entries[|entries| - 1].groupId;
      if g in ids then ids else ids + [g]
  }

  /** The loop at the top of `build_oscal_catalog`. */
  method BuildGroups(entries: seq<Entry>) returns (groups: map<string, Group>, order: seq<string>)
    ensures groups == GroupsOf(entries)
    ensures order == GroupOrder(entries)
  {
    groups, order := map[], [];
    var i := 0;
    while i < |entries|
      invariant 0 <= i <= |entries|
      invariant groups == GroupsOf(entries[..i])
      invariant order == GroupOrder(entries[..i])
    {
      assert entries[..i + 1][..i] == entries[..i];
      var e := entries[i];
      if e.groupId !in order {
        order := order + [e.groupId];
      }
      var before := if e.groupId in groups then groups[e.groupId].controls else [];
      groups := groups[e.groupId := Group(e.groupId, e.groupTitle, before + [e.control])];
      i := i + 1;
    }
    assert entries[..|entries|] == entries;
  }

  /** The controls of `entries` whose group id is `g`, in input order. */
  function ControlsIn(entries: seq<Entry>, g: string): (r: seq<Control>)
    ensures |r| <= |entries|
    decreases |entries|
  {
    if entries == [] then []
    else
      var e := entries[|entries| - 1];
      ControlsIn(entries[..|entries| - 1], g) + (if e.groupId == g then [e.control] else [])
  }

  predicate Mentions(entries: seq<Entry>, g: string) {
    exists i :: 0 <= i < |entries| && entries[i].groupId == g
  }

  /** Every group id of the input has a group, and no other id has one; the
      group under `g` is called `g` and holds exactly the controls with that
      group id, in input order. */
  lemma {:induction false} GroupsOfContents(entries: seq<Entry>)
    ensures forall g :: g in GroupsOf(entries) <==> Mentions(entries, g)
    ensures forall g :: g in GroupsOf(entries) ==>
      GroupsOf(entries)[g].id == g && GroupsOf(entries)[g].controls == ControlsIn(entries, g)
    ensures forall g :: g !in GroupsOf(entries) ==> ControlsIn(entries, g) == []
    decreases |entries|
  {
    if entries != [] {
      var prefix := entries[..|entries| - 1];
      var e := entries[|entries| - 1];
      GroupsOfContents(prefix);
      forall g ensures Mentions(entries, g) <==> Mentions(prefix, g) || g == e.groupId {
        if Mentions(entries, g) {
          var i :| 0 <= i < |entries| && entries[i].groupId == g;
          if i < |prefix| {
            assert prefix[i].groupId == g;
          }
        }
        if Mentions(prefix, g) {
          var i :| 0 <= i < |prefix| && prefix[i].groupId == g;
          assert entries[i].groupId == g;
        }
        assert entries[|entries| - 1].groupId == e.groupId;
      }
    }
  }

  /** The group under `g` carries the title of the last entry with that
      group id. */
  lemma {:induction false} GroupTitleIsLast(entries: seq<Entry>, g: string)
    requires g in GroupsOf(entries)
    ensures exists j :: (0 <= j < |entries| && entries[j].groupId == g
                         && GroupsOf(entries)[g].title == entries[j].groupTitle
                         && forall k :: j < k < |entries| ==> entries[k].groupId != g)
    decreases |entries|
  {
    var prefix := entries[..|entries| - 1];
    var e := entries[|entries| - 1];
    if e.groupId == g {
      assert entries[|entries| - 1].groupId == g;
    } else {
      GroupTitleIsLast(prefix, g);
      var j :| 0 <= j < |prefix| && prefix[j].groupId == g
        && GroupsOf(prefix)[g].title == prefix[j].groupTitle
        && forall k :: j < k < |prefix| ==> prefix[k].groupId != g;
      assert entries[j] == prefix[j];
      forall k | j < k < |entries| ensures entries[k].groupId != g {
        if k < |prefix| {
          assert entries[k] == prefix[k];
        }
      }
    }
  }

  /** `groups_dict`'s keys are distinct and are exactly its groups. */
  lemma {:induction false} GroupOrderKeys(entries: seq<Entry>)
    ensures forall i, j :: 0 <= i < j < |GroupOrder(entries)| ==> GroupOrder(entries)[i] != GroupOrder(entries)[j]
    ensures forall g :: g in GroupOrder(entries) <==> g in GroupsOf(entries)
    decreases |entries|
  {
    if entries != [] {
      GroupOrderKeys(entries[..|entries| - 1]);
    }
  }

  /** `sorted(groups_dict.keys())`. */
  function SortedKeys(entries: seq<Entry>): (r: seq<string>)
    ensures forall i :: 0 <= i < |r| ==> r[i] in GroupsOf(entries)
  {
    GroupOrderKeys(entries);
    var r := Sort(GroupOrder(entries));
    assert forall i :: 0 <= i < |r| ==> r[i] in multiset(GroupOrder(entries));
    r
  }

  /** The `groups` list of the catalog. */
  function SortedGroups(entries: seq<Entry>): (r: seq<Group>)
    ensures |r| == |SortedKeys(entries)|
  {
    var keys := SortedKeys(entries);
    var groups := GroupsOf(entries);
    seq(|keys|, i requires 0 <= i < |keys| => groups[keys[i]])
  }

  /** The catalog's groups come in strictly ascending id order, so no id
      appears twice; each holds exactly the controls of its group id in input
      order; and every group id of the input has a group. */
  lemma SortedGroupsFacts(entries: seq<Entry>)
    ensures var gs := SortedGroups(entries);
      forall i, j :: 0 <= i < j < |gs| ==> Less(gs[i].id, gs[j].id)
    ensures var gs := SortedGroups(entries);
      forall i :: 0 <= i < |gs| ==> gs[i].controls == ControlsIn(entries, gs[i].id)
    ensures var gs := SortedGroups(entries);
      forall i :: 0 <= i < |entries| ==> exists k :: 0 <= k < |gs| && gs[k].id == entries[i].groupId
  {
    var keys := SortedKeys(entries);
    var gs := SortedGroups(entries);
    SortedKeysCover(entries);
    SortedGroupsHold(entries);
    SortedDistinctStrictly(keys);
    forall i | 0 <= i < |entries| ensures exists k :: 0 <= k < |gs| && gs[k].id == entries[i].groupId {
      var k :| 0 <= k < |keys| && keys[k] == entries[i].groupId;
      assert gs[k].id == entries[i].groupId;
    }
  }

  // ---------------------------------------------------------------------
  // Every control lands in exactly one group
  // ---------------------------------------------------------------------

  function TotalControls(gs: seq<Group>): nat {
    if gs == [] then 0 else |gs[0].controls| + TotalControls(gs[1..])
  }

  /** The number of controls the groups listed in `keys` would hold. */
  function CountIn(entries: seq<Entry>, keys: seq<string>): nat {
    if keys == [] then 0 else |ControlsIn(entries, keys[0])| + CountIn(entries, keys[1..])
  }

  lemma {:induction false} CountInEmpty(keys: seq<string>)
    ensures CountIn([], keys) == 0
  {
    if keys != [] {
      CountInEmpty(keys[1..]);
    }
  }

  /** The last entry adds one control to every listed copy of its group id. */
  lemma {:induction false} CountInLast(entries: seq<Entry>, keys: seq<string>)
    requires entries != []
    ensures CountIn(entries, keys)
      == CountIn(entries[..|entries| - 1], keys) + multiset(keys)[entries[|entries| - 1].groupId]
  {
    if keys != [] {
      CountInLast(entries, keys[1..]);
      assert keys == [keys[0]] + keys[1..];
    }
  }

  /** Distinct keys that cover every group id count every entry once. */
  lemma {:induction false} CountInDistinctKeys(entries: seq<Entry>, keys: seq<string>)
    requires forall i, j :: 0 <= i < j < |keys| ==> keys[i] != keys[j]
    requires forall i :: 0 <= i < |entries| ==> entries[i].groupId in keys
    ensures CountIn(entries, keys) == |entries|
    decreases |entries|
  {
    if entries == [] {
      CountInEmpty(keys);
    } else {
      var prefix := entries[..|entries| - 1];
      var g := entries[|entries| - 1].groupId;
      assert forall i :: 0 <= i < |prefix| ==> prefix[i] == entries[i];
      CountInDistinctKeys(prefix, keys);
      CountInLast(entries, keys);
      CountOneInDistinct(keys, g);
      assert g in multiset(keys);
    }
  }

  lemma {:induction false} TotalOfGroups(entries: seq<Entry>, gs: seq<Group>, keys: seq<string>)
    requires |gs| == |keys|
    requires forall i :: 0 <= i < |gs| ==> gs[i].controls == ControlsIn(entries, keys[i])
    ensures TotalControls(gs) == CountIn(entries, keys)
  {
    if gs != [] {
      TotalOfGroups(entries, gs[1..], keys[1..]);
    }
  }

  /** The sorted keys are distinct and cover every group id of the input. */
  lemma SortedKeysCover(entries: seq<Entry>)
    ensures var keys := SortedKeys(entries);
      forall i, j :: 0 <= i < j < |keys| ==> keys[i] != keys[j]
    ensures forall i :: 0 <= i < |entries| ==> entries[i].groupId in SortedKeys(entries)
  {
    var keys := SortedKeys(entries);
    GroupsOfContents(entries);
    GroupOrderKeys(entries);
    SortDistinct(GroupOrder(entries));
    forall i | 0 <= i < |entries| ensures entries[i].groupId in keys {
      var g := entries[i].groupId;
      assert Mentions(entries, g);
      assert g in multiset(GroupOrder(entries));
      assert g in multiset(keys);
    }
  }

  /** The catalog's `i`-th group is the one under the `i`-th sorted key. */
  lemma SortedGroupsHold(entries: seq<Entry>)
    ensures var keys := SortedKeys(entries);
      var gs := SortedGroups(entries);
      forall i :: 0 <= i < |gs| ==> gs[i].id == keys[i] && gs[i].controls == ControlsIn(entries, keys[i])
  {
    GroupsOfContents(entries);
  }

  /** The catalog holds as many controls as the parsers produced. */
  lemma ControlCountPreserved(entries: seq<Entry>)
    ensures TotalControls(SortedGroups(entries)) == |entries|
  {
    SortedKeysCover(entries);
    SortedGroupsHold(entries);
    TotalOfGroups(entries, SortedGroups(entries), SortedKeys(entries));
    CountInDistinctKeys(entries, SortedKeys(entries));
  }

  // ---------------------------------------------------------------------
  // The documents
  // ---------------------------------------------------------------------

  function PartJson(p: Part): Json {
    Obj([("id", Str(p.id)), ("name", Str(p.name)), ("prose", p.prose)])
  }

  function ControlJson(c: Control): Json {
    Obj([("id", Str(c.id)), ("title", c.title),
         ("parts", Arr(seq(|c.parts|, i requires 0 <= i < |c.parts| => PartJson(c.parts[i]))))])
  }

  function GroupJson(g: Group): Json {
    Obj([("id", Str(g.id)), ("title", g.title),
         ("controls", Arr(seq(|g.controls|, i requires 0 <= i < |g.controls| => ControlJson(g.controls[i]))))])
  }

  /** The `published` stamp: the existing one when the existing timestamps
      hold one, else the clock reading `now`. */
  function PublishedStamp(stamps: Json, now: string): (r: Json)
    requires stamps.Null? || stamps.Obj?
    ensures Truthy(stamps) && Has(stamps, "published") ==> r == Lookup(stamps.fields, "published").value
    ensures !(Truthy(stamps) && Has(stamps, "published")) ==> r == Str(now)
  {
    if Truthy(stamps) && Has(stamps, "published") then Get0(stamps, "published") else Str(now)
  }

  /** The `last-modified` stamp: a fresh clock reading when the content
      changed or there are no existing timestamps, else the existing stamp,
      falling back to `published`. */
  function LastModifiedStamp(stamps: Json, changed: bool, now: string, published: Json): (r: Json)
    requires stamps.Null? || stamps.Obj?
    ensures changed || !Truthy(stamps) ==> r == Str(now)
    ensures !changed && Truthy(stamps) && Has(stamps, "last-modified") ==> r == Lookup(stamps.fields, "last-modified").value
    ensures !changed && Truthy(stamps) && !Has(stamps, "last-modified") ==> r == published
  {
    if changed || !Truthy(stamps) then Str(now) else Get(stamps, "last-modified", published)
  }

  const StampKeys: set<string> := {"published", "last-modified"}

  function MetadataFields(title: string, published: Json, lastModified: Json, version: string): seq<(string, Json)> {
    [("title", Str(title)), ("published", published), ("last-modified", lastModified),
     ("version", Str(version)), ("oscal-version", Str("1.1.2"))]
  }

  /** The `metadata` object both builders write; `now` and `later` are the
      builder's two clock readings. */
  function Metadata(title: string, stamps: Json, changed: bool, now: string, later: string, version: string): Json
    requires stamps.Null? || stamps.Obj?
  {
    var published := PublishedStamp(stamps, now);
    Obj(MetadataFields(title, published, LastModifiedStamp(stamps, changed, later, published), version))
  }

  lemma MetadataLookups(title: string, published: Json, lastModified: Json, version: string)
    ensures var f := MetadataFields(title, published, lastModified, version);
      Lookup(f, "published") == Some(published) && Lookup(f, "last-modified") == Some(lastModified)
      && Lookup(f, "version") == Some(Str(version))
  {
    var f := MetadataFields(title, published, lastModified, version);
    LookupAt(f, 1);
    LookupAt(f, 2);
    assert f[0].0 != f[3].0 && f[1].0 != f[3].0 && f[2].0 != f[3].0;
    LookupAt(f, 3);
  }

  /** Dropping the stamps leaves the title, the version and the OSCAL
      version. */
  lemma StripMetadata(title: string, published: Json, lastModified: Json, version: string)
    ensures Without(MetadataFields(title, published, lastModified, version), StampKeys)
      == [("title", Str(title)), ("version", Str(version)), ("oscal-version", Str("1.1.2"))]
  {
    assert "oscal-version"[0] != "last-modified"[0];
    assert "title" !in StampKeys && "version" !in StampKeys && "oscal-version" !in StampKeys;
    WithoutSecondAndThird(("title", Str(title)), ("published", published), ("last-modified", lastModified),
                          ("version", Str(version)), ("oscal-version", Str("1.1.2")), StampKeys);
  }

  lemma WithoutSecondAndThird(a: (string, Json), b: (string, Json), c: (string, Json), d: (string, Json),
                              e: (string, Json), drop: set<string>)
    requires a.0 !in drop && b.0 in drop && c.0 in drop && d.0 !in drop && e.0 !in drop
    ensures Without([a, b, c, d, e], drop) == [a, d, e]
  {
    var f := [a, b, c, d, e];
    assert Without(f[5..], drop) == [];
    assert Without(f[4..], drop) == [e];
    assert Without(f[3..], drop) == [d, e];
    assert Without(f[2..], drop) == [d, e];
    assert Without(f[1..], drop) == [d, e];
  }

  /** Both builders keep an existing `published` stamp, keep an existing
      `last-modified` stamp while the content is unchanged (falling back to
      `published`), and otherwise take the clock. */
  lemma TimestampsPreserved(title: string, stamps: Json, changed: bool, now: string, later: string, version: string)
    requires stamps.Null? || stamps.Obj?
    ensures var m := Metadata(title, stamps, changed, now, later, version);
      Get0(m, "published") == if Truthy(stamps) && Has(stamps, "published") then Get0(stamps, "published") else Str(now)
    ensures var m := Metadata(title, stamps, changed, now, later, version);
      Get0(m, "last-modified") ==
        if changed || !Truthy(stamps) then Str(later) else Get(stamps, "last-modified", Get0(m, "published"))
  {
    var published := PublishedStamp(stamps, now);
    MetadataLookups(title, published, LastModifiedStamp(stamps, changed, later, published), version);
  }

  function CatalogUuidName(version: string): string {
    "fedramp-20x-catalog-" + version
  }

  function CatalogTitle(version: string): string {
    "FedRAMP 20x Catalog (v" + version + ")"
  }

  function CatalogFields(catalogUuid: string, metadata: Json, gs: seq<Group>): seq<(string, Json)> {
    [("uuid", Str(catalogUuid)), ("metadata", metadata),
     ("groups", Arr(seq(|gs|, i requires 0 <= i < |gs| => GroupJson(gs[i]))))]
  }

  /** The catalog `build_oscal_catalog` returns. The uuid5 hash is the
      parameter `uuidOf`. */
  function CatalogDoc(entries: seq<Entry>, version: string, stamps: Json, changed: bool,
                      now: string, later: string, uuidOf: string -> string): Json
    requires stamps.Null? || stamps.Obj?
  {
    Obj([("catalog", Obj(CatalogFields(uuidOf(CatalogUuidName(version)),
                                       Metadata(CatalogTitle(version), stamps, changed, now, later, version),
                                       SortedGroups(entries))))])
  }

  /** `build_oscal_catalog`: groups the controls, then assembles the
      catalog; the second result is the catalog's uuid. */
  method BuildOscalCatalog(entries: seq<Entry>, version: string, stamps: Json, changed: bool,
                           now: string, later: string, uuidOf: string -> string)
    returns (catalog: Json, catalogUuid: string)
    requires stamps.Null? || stamps.Obj?
    ensures catalog == CatalogDoc(entries, version, stamps, changed, now, later, uuidOf)
    ensures catalogUuid == uuidOf(CatalogUuidName(version))
  {
    var groups, order := BuildGroups(entries);
    var keys := Sort(order);
    assert keys == SortedKeys(entries);
    var gs: seq<Group> := [];
    var i := 0;
    while i < |keys|
      invariant 0 <= i <= |keys|
      invariant gs == SortedGroups(entries)[..i]
    {
      gs := gs + [groups[keys[i]]];
      i := i + 1;
    }
    assert gs == SortedGroups(entries);
    catalogUuid := uuidOf(CatalogUuidName(version));
    var metadata := Metadata(CatalogTitle(version), stamps, changed, now, later, version);
    catalog := Obj([("catalog", Obj(CatalogFields(catalogUuid, metadata, gs)))]);
  }

  /** The catalog's metadata: its title names the version, and its stamps
      are the shared ones. */
  lemma CatalogMetadata(entries: seq<Entry>, version: string, stamps: Json, changed: bool,
                        now: string, later: string, uuidOf: string -> string)
    requires stamps.Null? || stamps.Obj?
    ensures MetadataOf(CatalogDoc(entries, version, stamps, changed, now, later, uuidOf), "catalog")
      == Some(Metadata(CatalogTitle(version), stamps, changed, now, later, version))
  {
    var f := CatalogFields(uuidOf(CatalogUuidName(version)),
                           Metadata(CatalogTitle(version), stamps, changed, now, later, version),
                           SortedGroups(entries));
    MetadataOfPieces("catalog", f[0], f[1].1, f[2]);
  }

  function StrItems(ids: seq<string>): (r: seq<Json>)
    ensures |r| == |ids| && forall i :: 0 <= i < |ids| ==> r[i] == Str(ids[i])
  {
    seq(|ids|, i requires 0 <= i < |ids| => Str(ids[i]))
  }

  function ProfileUuidName(level: string, version: string): string {
    "fedramp-20x-" + level + "-profile-" + version
  }

  function ProfileTitle(level: string): string {
    "FedRAMP 20x " + Capitalize(level) + " Impact Profile"
  }

  function ImportFields(catalogUuid: string, ids: seq<string>): seq<(string, Json)> {
    [("href", Str("#" + catalogUuid)),
     ("include-controls", Arr([Obj([("with-ids", Arr(StrItems(Sort(ids))))])]))]
  }

  function ProfileFields(profileUuid: string, metadata: Json, catalogUuid: string, ids: seq<string>): seq<(string, Json)> {
    [("uuid", Str(profileUuid)), ("metadata", metadata), ("imports", Arr([Obj(ImportFields(catalogUuid, ids))]))]
  }

  /** The profile `build_oscal_profile` returns: one import of the catalog,
      selecting the sorted control ids. */
  function ProfileDoc(level: string, ids: seq<string>, catalogUuid: string, version: string, stamps: Json,
                      changed: bool, now: string, later: string, uuidOf: string -> string): Json
    requires stamps.Null? || stamps.Obj?
  {
    Obj([("profile", Obj(ProfileFields(uuidOf(ProfileUuidName(level, version)),
                                       Metadata(ProfileTitle(level), stamps, changed, now, later, version),
                                       catalogUuid, ids)))])
  }

  /** `doc[outer]["metadata"]`, when the path is there. */
  function MetadataOf(doc: Json, outer: string): Option<Json> {
    if doc.Obj? && Has(doc, outer) && Get0(doc, outer).Obj? && Has(Get0(doc, outer), "metadata")
    then Some(Get0(Get0(doc, outer), "metadata"))
    else None
  }

  lemma MetadataOfPieces(outer: string, first: (string, Json), meta: Json, last: (string, Json))
    requires first.0 != "metadata"
    ensures MetadataOf(Obj([(outer, Obj([first, ("metadata", meta), last]))]), outer) == Some(meta)
  {
    var inner := [first, ("metadata", meta), last];
    assert Get0(Obj([(outer, Obj(inner))]), outer) == Obj(inner);
    LookupAt(inner, 1);
  }

  /** `profile["imports"][0]`, when the path is there. */
  function ImportOf(profile: Json): Option<Json> {
    if profile.Obj? && Has(profile, "profile") && Get0(profile, "profile").Obj?
      && Has(Get0(profile, "profile"), "imports") && Get0(Get0(profile, "profile"), "imports").Arr?
      && Get0(Get0(profile, "profile"), "imports").items != []
    then Some(Get0(Get0(profile, "profile"), "imports").items[0])
    else None
  }

  /** The profile imports the catalog by uuid, and its `with-ids` list is
      the given ids in ascending order, each kept as often as it was given. */
  lemma ProfileSelection(level: string, ids: seq<string>, catalogUuid: string, version: string, stamps: Json,
                         changed: bool, now: string, later: string, uuidOf: string -> string)
    requires stamps.Null? || stamps.Obj?
    ensures var imp := ImportOf(ProfileDoc(level, ids, catalogUuid, version, stamps, changed, now, later, uuidOf));
      && imp.Some? && imp.value.Obj?
      && Get0(imp.value, "href") == Str("#" + catalogUuid)
      && exists s :: Get0(imp.value, "include-controls") == Arr([Obj([("with-ids", Arr(StrItems(s)))])])
           && Sorted(s) && multiset(s) == multiset(ids)
  {
    var f := ProfileFields(uuidOf(ProfileUuidName(level, version)),
                           Metadata(ProfileTitle(level), stamps, changed, now, later, version), catalogUuid, ids);
    LookupAt(f, 2);
    LookupAt(ImportFields(catalogUuid, ids), 1);
    var s := Sort(ids);
    assert Get0(Obj(ImportFields(catalogUuid, ids)), "include-controls") == Arr([Obj([("with-ids", Arr(StrItems(s)))])]);
  }

  // ---------------------------------------------------------------------
  // content_has_changed
  // ---------------------------------------------------------------------

  /** `doc[outer]["metadata"]` without its two stamps; indexing or popping
      on a value of the wrong kind raises. */
  function StripUnder(doc: Json, outer: string): (r: Result<Json>)
    requires doc.Obj? && Has(doc, outer)
    ensures r.Success? <==> MetadataOf(doc, outer).Some? && MetadataOf(doc, outer).value.Obj?
  {
    var inner := Get0(doc, outer);
    if !inner.Obj? || !Has(inner, "metadata") then Failure(Raises("indexing metadata of a value without it"))
    else
      var meta := Get0(inner, "metadata");
      if !meta.Obj? then Failure(Raises("pop on metadata that is not a dict"))
      else
        var stripped := Obj(Without(meta.fields, StampKeys));
        Success(Obj(Put(doc.fields, outer, Obj(Put(inner.fields, "metadata", stripped)))))
  }

  /** The copy `content_has_changed` compares: the catalog's, else the
      profile's, metadata without `published` and `last-modified`. */
  function StripTimestamps(doc: Json): Result<Json>
    requires doc.Obj?
  {
    if Has(doc, "catalog") then StripUnder(doc, "catalog")
    else if Has(doc, "profile") then StripUnder(doc, "profile")
    else Success(doc)
  }

  /** `content_has_changed`: always changed against missing content;
      otherwise the stripped new document and the existing one are compared
      as `json.dumps(..., sort_keys=True)` would. */
  function ContentChanged(doc: Json, existing: Json): (r: Result<bool>)
    requires doc.Obj?
    ensures !Truthy(existing) ==> r == Success(true)
  {
    if !Truthy(existing) then Success(true)
    else
      match StripTimestamps(doc)
      case Failure(e) => Failure(e)
      case Success(stripped) => Success(Canon(stripped) != Canon(existing))
  }

  /** The stripped form of a document `{outer: {f[0], metadata, f[2]}}`
      whose metadata is one the builders write. */
  function Stripped(outer: string, first: (string, Json), title: string, version: string, last: (string, Json)): Json {
    Obj([(outer, Obj([first, ("metadata", Obj([("title", Str(title)), ("version", Str(version)),
                                               ("oscal-version", Str("1.1.2"))])), last]))])
  }

  lemma StripBuilt(outer: string, first: (string, Json), title: string, published: Json, lastModified: Json,
                   version: string, last: (string, Json))
    requires first.0 == "uuid"
    ensures var doc := Obj([(outer, Obj([first, ("metadata", Obj(MetadataFields(title, published, lastModified, version))), last]))]);
      StripUnder(doc, outer) == Success(Stripped(outer, first, title, version, last))
  {
    StripUnderPieces(outer, first, MetadataFields(title, published, lastModified, version), last);
    StripMetadata(title, published, lastModified, version);
  }

  /** Stripping `{outer: {first, metadata, last}}` strips the metadata in
      place. */
  lemma StripUnderPieces(outer: string, first: (string, Json), m: seq<(string, Json)>, last: (string, Json))
    requires first.0 != "metadata"
    ensures var doc := Obj([(outer, Obj([first, ("metadata", Obj(m)), last]))]);
      StripUnder(doc, outer) == Success(Obj([(outer, Obj([first, ("metadata", Obj(Without(m, StampKeys))), last]))]))
  {
    var inner := [first, ("metadata", Obj(m)), last];
    var doc := Obj([(outer, Obj(inner))]);
    assert Get0(doc, outer) == Obj(inner);
    LookupAt(inner, 1);
    assert Get0(Obj(inner), "metadata") == Obj(m);
    var s := Obj(Without(m, StampKeys));
    PutAt(inner, 1, s);
    var newInner := Put(inner, "metadata", s);
    assert newInner == [first, ("metadata", s), last];
    PutAt(doc.fields, 0, Obj(newInner));
    assert Put(doc.fields, outer, Obj(newInner)) == [(outer, Obj(newInner))];
  }

  /** Two catalogs built from the same controls and version, whatever their
      stamps, strip to the same document. */
  lemma CatalogStrips(entries: seq<Entry>, version: string, stamps: Json, changed: bool,
                      now: string, later: string, uuidOf: string -> string)
    requires stamps.Null? || stamps.Obj?
    ensures StripTimestamps(CatalogDoc(entries, version, stamps, changed, now, later, uuidOf))
      == Success(Stripped("catalog", ("uuid", Str(uuidOf(CatalogUuidName(version)))), CatalogTitle(version), version,
                          CatalogFields("", Null, SortedGroups(entries))[2]))
  {
    var published := PublishedStamp(stamps, now);
    StripBuilt("catalog", ("uuid", Str(uuidOf(CatalogUuidName(version)))), CatalogTitle(version), published,
               LastModifiedStamp(stamps, changed, later, published), version,
               CatalogFields("", Null, SortedGroups(entries))[2]);
  }

  lemma ProfileStrips(level: string, ids: seq<string>, catalogUuid: string, version: string, stamps: Json,
                      changed: bool, now: string, later: string, uuidOf: string -> string)
    requires stamps.Null? || stamps.Obj?
    ensures var doc := ProfileDoc(level, ids, catalogUuid, version, stamps, changed, now, later, uuidOf);
      !Has(doc, "catalog")
      && StripTimestamps(doc)
        == Success(Stripped("profile", ("uuid", Str(uuidOf(ProfileUuidName(level, version)))), ProfileTitle(level),
                            version, ProfileFields("", Null, catalogUuid, ids)[2]))
  {
    var published := PublishedStamp(stamps, now);
    StripBuilt("profile", ("uuid", Str(uuidOf(ProfileUuidName(level, version)))), ProfileTitle(level), published,
               LastModifiedStamp(stamps, changed, later, published), version,
               ProfileFields("", Null, catalogUuid, ids)[2]);
  }

  /** A rebuilt catalog is unchanged against a stored catalog that differs
      from it only in its stamps and in the order of its top-level keys. */
  lemma CatalogUnchangedByTimestamps(entries: seq<Entry>, version: string,
                                     stamps1: Json, changed1: bool, now1: string, later1: string,
                                     stamps2: Json, now2: string, later2: string, uuidOf: string -> string,
                                     stored: seq<(string, Json)>)
    requires stamps1.Null? || stamps1.Obj?
    requires stamps2.Null? || stamps2.Obj?
    requires StripTimestamps(CatalogDoc(entries, version, stamps1, changed1, now1, later1, uuidOf)).Success?
    requires var prev := StripTimestamps(CatalogDoc(entries, version, stamps1, changed1, now1, later1, uuidOf)).value;
      forall k :: Lookup(stored, k) == Lookup(prev.fields, k)
    ensures ContentChanged(CatalogDoc(entries, version, stamps2, false, now2, later2, uuidOf), Obj(stored))
      == Success(false)
  {
    CatalogStrips(entries, version, stamps1, changed1, now1, later1, uuidOf);
    CatalogStrips(entries, version, stamps2, false, now2, later2, uuidOf);
    var s := StripTimestamps(CatalogDoc(entries, version, stamps2, false, now2, later2, uuidOf)).value;
    assert Lookup(s.fields, "catalog").Some?;
    assert Truthy(Obj(stored));
    CanonOrderInsensitive(s.fields, stored);
  }

  /** A document whose stripped form is the existing content is unchanged. */
  lemma UnchangedAgainstOwnStrip(doc: Json, existing: Json)
    requires doc.Obj? && existing.Obj? && existing.fields != []
    requires StripTimestamps(doc) == Success(existing)
    ensures ContentChanged(doc, existing) == Success(false)
  {
  }

  /** A rebuilt profile is unchanged against the stripped form of a profile
      of the same level over the same ids, whatever the stamps of either. */
  lemma ProfileUnchangedByTimestamps(level: string, ids: seq<string>, catalogUuid: string, version: string,
                                     stamps1: Json, changed1: bool, now1: string, later1: string,
                                     stamps2: Json, now2: string, later2: string, uuidOf: string -> string)
    requires stamps1.Null? || stamps1.Obj?
    requires stamps2.Null? || stamps2.Obj?
    ensures var prev := ProfileDoc(level, ids, catalogUuid, version, stamps1, changed1, now1, later1, uuidOf);
      StripTimestamps(prev).Success?
      && ContentChanged(ProfileDoc(level, ids, catalogUuid, version, stamps2, false, now2, later2, uuidOf),
                        StripTimestamps(prev).value) == Success(false)
  {
    ProfileStrips(level, ids, catalogUuid, version, stamps1, changed1, now1, later1, uuidOf);
    ProfileStrips(level, ids, catalogUuid, version, stamps2, false, now2, later2, uuidOf);
    var doc := ProfileDoc(level, ids, catalogUuid, version, stamps2, false, now2, later2, uuidOf);
    UnchangedAgainstOwnStrip(doc, StripTimestamps(doc).value);
  }

  /** A catalog of another version is always a change: its metadata
      `version` differs. */
  lemma OtherVersionChanged(entries: seq<Entry>, version1: string, version2: string,
                            stamps1: Json, changed1: bool, now1: string, later1: string,
                            stamps2: Json, now2: string, later2: string, uuidOf: string -> string)
    requires stamps1.Null? || stamps1.Obj?
    requires stamps2.Null? || stamps2.Obj?
    requires version1 != version2
    ensures var prev := CatalogDoc(entries, version1, stamps1, changed1, now1, later1, uuidOf);
      StripTimestamps(prev).Success?
      && ContentChanged(CatalogDoc(entries, version2, stamps2, false, now2, later2, uuidOf),
                        StripTimestamps(prev).value) == Success(true)
  {
    CatalogStrips(entries, version1, stamps1, changed1, now1, later1, uuidOf);
    CatalogStrips(entries, version2, stamps2, false, now2, later2, uuidOf);
    var last := CatalogFields("", Null, SortedGroups(entries))[2];
    var a := Stripped("catalog", ("uuid", Str(uuidOf(CatalogUuidName(version2)))), CatalogTitle(version2), version2, last);
    var b := Stripped("catalog", ("uuid", Str(uuidOf(CatalogUuidName(version1)))), CatalogTitle(version1), version1, last);
    if Canon(a) == Canon(b) {
      VersionVisible(("uuid", Str(uuidOf(CatalogUuidName(version2)))), CatalogTitle(version2), version2, last);
      VersionVisible(("uuid", Str(uuidOf(CatalogUuidName(version1)))), CatalogTitle(version1), version1, last);
      assert false;
    }
  }

  /** The canonical form of a stripped catalog still shows its version. */
  lemma VersionVisible(first: (string, Json), title: string, version: string, last: (string, Json))
    requires first.0 == "uuid"
    ensures var c := Canon(Stripped("catalog", first, title, version, last));
      c.CObj? && "catalog" in c.m && c.m["catalog"].CObj?
      && "metadata" in c.m["catalog"].m && c.m["catalog"].m["metadata"].CObj?
      && "version" in c.m["catalog"].m["metadata"].m
      && c.m["catalog"].m["metadata"].m["version"] == CStr(version)
  {
    var meta := [("title", Str(title)), ("version", Str(version)), ("oscal-version", Str("1.1.2"))];
    var inner := [first, ("metadata", Obj(meta)), last];
    var outer := [("catalog", Obj(inner))];
    assert Stripped("catalog", first, title, version, last) == Obj(outer);
    CanonFieldsByLookup(outer, "catalog");
    var ci := CanonFields(inner);
    assert CanonFields(outer)["catalog"] == CObj(ci);
    LookupAt(inner, 1);
    CanonFieldsByLookup(inner, "metadata");
    var cm := CanonFields(meta);
    assert ci["metadata"] == CObj(cm);
    LookupAt(meta, 1);
    CanonFieldsByLookup(meta, "version");
    assert cm["version"] == CStr(version);
  }
}
