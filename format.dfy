/** `detect_format_version` and `extract_version_from_frmr`: which of the two
    FRMR layouts a document uses, and which version it carries. */
module Format {
  import opened Json
  import opened Text
  import opened Order

  datatype Layout = Consolidated | Legacy

  /** Python's `key in container` for a text key: a key test on a dict, an
      item test on a list, a substring test on a string; anything else
      raises. */
  function In(key: string, container: Json): (r: Result<bool>)
    ensures container.Obj? ==> r == Success(Has(container, key))
    ensures container.Str? ==> r == Success(Contains(container.s, key))
    ensures r.Failure? <==> !(container.Obj? || container.Arr? || container.Str?)
  {
    match container
    case Obj(_) => Success(Has(container, key))
    case Arr(items) => Success(Str(key) in items)
    case Str(s) => Success(Contains(s, key))
    case _ => Failure(Raises("in on a value that is not a container"))
  }

  /** `info[key]` once `key in info` held: a dict's entry; a list or a string
      raises on a text index. */
  function Subscript(info: Json, key: string): Result<Json> {
    if info.Obj? then Success(Get0(info, key)) else Failure(Raises("subscript with text of a value that is not a dict"))
  }

  /** One of the keys FRD, KSI, FRR is among the document's keys. */
  predicate SharesTopKey(data: Json)
    requires data.Obj?
  {
    Has(data, "FRD") || Has(data, "KSI") || Has(data, "FRR")
  }

  /** `detect_format_version`. */
  function DetectFormat(data: Json): Result<Layout>
    requires data.Obj?
  {
    var info := Get(data, "info", Obj([]));
    match In("version", info)
    case Failure(e) => Failure(e)
    case Success(hasVersion) =>
      if hasVersion && Subscript(info, "version").Failure? then Failure(Subscript(info, "version").error)
      else if hasVersion && Subscript(info, "version").value.Str? then Success(Consolidated)
      else
        match In("releases", info)
        case Failure(e) => Failure(e)
        case Success(hasReleases) =>
          if hasReleases && Subscript(info, "releases").Failure? then Failure(Subscript(info, "releases").error)
          else if hasReleases && Subscript(info, "releases").value.Arr? then Success(Legacy)
          else if (Has(data, "FRD") || Has(data, "KSI")) && SharesTopKey(data) then Success(Consolidated)
          else Success(Legacy)
  }

  /** With a dict `info` the detection never fails and follows its priority
      chain: a text `version` means consolidated, then a list `releases`
      means legacy, then a top-level FRD or KSI key means consolidated. The
      second test on the top-level keys can never fail once the first has
      passed. */
  lemma DetectFormatDict(data: Json)
    requires data.Obj? && Get(data, "info", Obj([])).Obj?
    ensures var info := Get(data, "info", Obj([]));
      DetectFormat(data) == Success(
        if Get0(info, "version").Str? then Consolidated
        else if Get0(info, "releases").Arr? then Legacy
        else if Has(data, "FRD") || Has(data, "KSI") then Consolidated
        else Legacy)
  {
  }

  /** An `info` that is a number, a boolean or null makes the detection
      raise. */
  lemma DetectFormatRaises(data: Json)
    requires data.Obj? && Has(data, "info")
    requires var info := Get0(data, "info"); info.Null? || info.Bool? || info.Num?
    ensures DetectFormat(data).Failure?
  {
  }

  // ---------------------------------------------------------------------
  // extract_version_from_frmr
  // ---------------------------------------------------------------------

  /** The index `max` returns: the first index whose date is not less than
      any other. */
  function MaxIndex(dates: seq<string>, n: nat): (r: nat)
    requires 0 < n <= |dates|
    ensures r < n
    ensures forall j :: 0 <= j < n ==> LessEq(dates[j], dates[r])
    ensures forall j :: 0 <= j < r ==> Less(dates[j], dates[r])
    decreases n
  {
    if n == 1 then 0
    else
      var best := MaxIndex(dates, n - 1);
      if Less(dates[best], dates[n - 1]) then
        assert forall j :: 0 <= j < n - 1 ==> Less(dates[j], dates[n - 1]) by {
          forall j | 0 <= j < n - 1 ensures Less(dates[j], dates[n - 1]) {
            if dates[j] != dates[best] {
              LessTransitive(dates[j], dates[best], dates[n - 1]);
            }
          }
        }
        LessIrreflexive(dates[n - 1]);
        n - 1
      else
        LessTotal(dates[best], dates[n - 1]);
        best
  }

  /** The releases with a truthy `published_date`; `r.get` raises on a
      release that is not a dict. */
  function Published(releases: seq<Json>): (r: Result<seq<Json>>)
    ensures r.Success? ==> forall i :: 0 <= i < |r.value| ==> r.value[i].Obj? && Truthy(Get0(r.value[i], "published_date"))
    ensures r.Success? ==> forall x :: x in r.value ==> x in releases
    ensures r.Success? <==> forall i :: 0 <= i < |releases| ==> releases[i].Obj?
  {
    if releases == [] then Success([])
    else if !releases[0].Obj? then Failure(Raises(".get on a release that is not a dict"))
    else
      match Published(releases[1..])
      case Failure(e) => Failure(e)
      case Success(rest) =>
        assert forall i :: 0 < i < |releases| ==> releases[i] == releases[1..][i - 1];
        if Truthy(Get0(releases[0], "published_date")) then Success([releases[0]] + rest) else Success(rest)
  }

  /** Two published releases are kept in their input order. */
  lemma {:induction false} PublishedOrder(releases: seq<Json>, i: nat, j: nat) returns (a: nat, b: nat)
    requires Published(releases).Success? && i < j < |releases|
    requires Truthy(Get0(releases[i], "published_date")) && Truthy(Get0(releases[j], "published_date"))
    ensures var kept := Published(releases).value;
      a < b < |kept| && kept[a] == releases[i] && kept[b] == releases[j]
  {
    var dated := Truthy(Get0(releases[0], "published_date"));
    var tail := releases[1..];
    PublishedCons(releases);
    var rest := Published(tail).value;
    TailIndex(releases, j);
    if i == 0 {
      PublishedKeeps(tail, j - 1);
      var b' :| 0 <= b' < |rest| && rest[b'] == releases[j];
      assert releases[i] == releases[0];
      ConsIndex(releases[0], rest, b');
      a, b := 0, b' + 1;
    } else {
      TailIndex(releases, i);
      assert Published(tail).Success? && i - 1 < j - 1 < |tail|;
      assert tail[i - 1].Obj? && tail[j - 1].Obj?;
      assert Truthy(Get0(tail[i - 1], "published_date"));
      assert Truthy(Get0(tail[j - 1], "published_date"));
      var a', b' := PublishedOrder(tail, i - 1, j - 1);
      if dated {
        ConsIndex(releases[0], rest, a');
        ConsIndex(releases[0], rest, b');
        a, b := a' + 1, b' + 1;
      } else {
        a, b := a', b';
      }
    }
  }

  lemma ConsIndex(x: Json, s: seq<Json>, k: nat)
    requires k < |s|
    ensures ([x] + s)[0] == x && ([x] + s)[k + 1] == s[k]
  {
  }

  lemma TailIndex(s: seq<Json>, k: nat)
    requires 0 < k < |s|
    ensures s[1..][k - 1] == s[k]
  {
  }

  /** Every release with a truthy `published_date` is kept. */
  lemma {:induction false} PublishedKeeps(releases: seq<Json>, i: nat)
    requires Published(releases).Success? && i < |releases|
    requires Truthy(Get0(releases[i], "published_date"))
    ensures releases[i] in Published(releases).value
  {
    PublishedCons(releases);
    if i > 0 {
      TailIndex(releases, i);
      PublishedKeeps(releases[1..], i - 1);
    }
  }

  /** Published of a non-empty list, by its first release. */
  lemma PublishedCons(releases: seq<Json>)
    requires Published(releases).Success? && releases != []
    ensures releases[0].Obj? && Published(releases[1..]).Success?
    ensures Published(releases).value ==
      if Truthy(Get0(releases[0], "published_date")) then [releases[0]] + Published(releases[1..]).value
      else Published(releases[1..]).value
  {
  }

  /** The published dates, when all of them are text. */
  function Dates(published: seq<Json>): (r: Option<seq<string>>)
    requires forall i :: 0 <= i < |published| ==> published[i].Obj?
    ensures r.Some? ==> |r.value| == |published|
    ensures r.Some? ==> forall i :: 0 <= i < |published| ==> Get0(published[i], "published_date") == Str(r.value[i])
  {
    if published == [] then Some([])
    else
      var d := Get0(published[0], "published_date");
      match Dates(published[1..])
      case None => None
      case Some(rest) => if d.Str? then Some([d.s] + rest) else None
  }

  /** `releases[0].get("id")`. */
  function FirstId(releases: Json): Result<Json> {
    if releases.Arr? && releases.items != [] && releases.items[0].Obj? then Success(Get0(releases.items[0], "id"))
    else Failure(Raises("releases[0].get on a value that is not a list of dicts"))
  }

  /** The version a non-empty `releases` value gives: the id of the release
      with the greatest published date, the first such when several tie, or
      the first release's id when none is published. */
  function FromReleases(releases: Json): Result<Json> {
    if !Truthy(releases) then Success(Null)
    else if !(releases.Arr? || releases.Obj? || releases.Str?) then Failure(Raises("len of a value without a length"))
    else
      match Published(Iterate(releases).value)
      case Failure(e) => Failure(e)
      case Success(published) =>
        if published == [] then FirstId(releases)
        else
          match Dates(published)
          case None => Failure(OffSchema("published dates that are not all text"))
          case Some(dates) => Success(Get0(published[MaxIndex(dates, |dates|)], "id"))
  }

  /** `extract_version_from_frmr`; `Null` stands for None. */
  function ExtractVersion(data: Json): Result<Json> {
    if !data.Obj? || !Has(data, "info") then Success(Null)
    else
      var info := Get0(data, "info");
      match In("version", info)
      case Failure(e) => Failure(e)
      case Success(hasVersion) =>
        if hasVersion && Subscript(info, "version").Failure? then Failure(Subscript(info, "version").error)
        else if hasVersion && Subscript(info, "version").value.Str? then Success(Subscript(info, "version").value)
        else
          match In("releases", info)
          case Failure(e) => Failure(e)
          case Success(hasReleases) =>
            if !hasReleases then Success(Null)
            else
              match Subscript(info, "releases")
              case Failure(e) => Failure(e)
              case Success(releases) => FromReleases(releases)
  }

  /** A text `info.version` is the version. */
  lemma VersionFromInfo(data: Json)
    requires data.Obj? && Has(data, "info")
    requires var info := Get0(data, "info"); info.Obj? && Get0(info, "version").Str?
    ensures ExtractVersion(data) == Success(Get0(Get0(data, "info"), "version"))
  {
  }

  /** Without an `info` key, or for a document that is not a dict, there is
      no version. */
  lemma NoInfoNoVersion(data: Json)
    requires !data.Obj? || !Has(data, "info")
    ensures ExtractVersion(data) == Success(Null)
  {
  }

  /** Failing a text version, a dict `info` with `releases` takes its
      version from the releases. */
  lemma VersionFromReleases(data: Json)
    requires data.Obj? && Has(data, "info")
    requires var info := Get0(data, "info"); info.Obj? && !Get0(info, "version").Str? && Has(info, "releases")
    ensures ExtractVersion(data) == FromReleases(Get0(Get0(data, "info"), "releases"))
  {
  }

  /** For a list of release dicts with text dates, some published, the
      version is the id of a published release whose date no published
      release exceeds, and which comes before every other release with that
      date. */
  lemma LatestReleaseChosen(releases: Json)
    requires releases.Arr? && releases.items != []
    requires forall i :: 0 <= i < |releases.items| ==> releases.items[i].Obj?
    requires Published(releases.items).value != []
    requires Dates(Published(releases.items).value).Some?
    ensures var published := Published(releases.items).value;
      var dates := Dates(published).value;
      exists k :: 0 <= k < |published|
        && FromReleases(releases) == Success(Get0(published[k], "id"))
        && (forall j :: 0 <= j < |published| ==> LessEq(dates[j], dates[k]))
        && (forall j :: 0 <= j < k ==> dates[j] != dates[k])
  {
    var published := Published(releases.items).value;
    var dates := Dates(published).value;
    var k := MaxIndex(dates, |dates|);
    forall j | 0 <= j < k ensures dates[j] != dates[k] {
      LessIrreflexive(dates[k]);
    }
    assert FromReleases(releases) == Success(Get0(published[k], "id"));
  }

  /** When no release is published, the first release's id is the version. */
  lemma FirstReleaseWithoutDates(releases: Json)
    requires releases.Arr? && releases.items != []
    requires forall i :: 0 <= i < |releases.items| ==>
      releases.items[i].Obj? && !Truthy(Get0(releases.items[i], "published_date"))
    ensures FromReleases(releases) == Success(Get0(releases.items[0], "id"))
  {
    NothingPublished(releases.items);
  }

  lemma {:induction false} NothingPublished(releases: seq<Json>)
    requires forall i :: 0 <= i < |releases| ==> releases[i].Obj? && !Truthy(Get0(releases[i], "published_date"))
    ensures Published(releases) == Success([])
  {
    if releases != [] {
      assert forall i :: 0 <= i < |releases[1..]| ==> releases[1..][i] == releases[i + 1];
      NothingPublished(releases[1..]);
    }
  }
}
