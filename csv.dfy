/** The rows of `Requirements_Paramified.csv` that `generate_csv` writes:
    one per control, holding the upper-cased id, the id of the statement
    part and the statement followed by bulleted following information. */
module Csv {
  import opened Json
  import opened Text
  import opened Prose
  import opened Controls

  datatype Row = Row(controlPart: string, oscalId: string, prose: string)

  /** `str(v)` of a falsy value: `clean_prose` hands those back unchanged
      and the f-string prints them. */
  function FalsyText(j: Json): (r: string)
    requires !Truthy(j)
    ensures '\n' !in r
  {
    match j
    case Null => "None"
    case Bool(_) => "False"
    case Num(_) => "0"
    case Str(_) => ""
    case Arr(_) => "[]"
    case Obj(_) => "{}"
  }

  /** `f"• {clean_prose(item)}"`; `clean_prose` raises on a truthy value
      that is not text. */
  function Bullet(item: Json): (r: Result<string>)
    ensures r.Success? <==> !Truthy(item) || item.Str?
    ensures r.Success? ==> StartsWith(r.value, "• ")
  {
    if !Truthy(item) then Success("• " + FalsyText(item))
    else if item.Str? then Success("• " + CleanProse(Production, item.s))
    else Failure(Raises("clean_prose on a value that is not text"))
  }

  /** A list comprehension `[f(x) for x in items]` whose `f` may raise,
      continuing from the results `acc` already made: the first failure
      aborts it. */
  function MapAll<A, B>(f: A -> Result<B>, items: seq<A>, acc: seq<B>): Result<seq<B>>
    decreases |items|
  {
    if items == [] then Success(acc)
    else
      match f(items[0])
      case Failure(e) => Failure(e)
      case Success(b) => MapAll(f, items[1..], acc + [b])
  }

  /** One step of the comprehension. */
  lemma MapAllStep<A, B>(f: A -> Result<B>, items: seq<A>, acc: seq<B>)
    requires items != []
    ensures f(items[0]).Failure? ==> MapAll(f, items, acc) == Failure(f(items[0]).error)
    ensures f(items[0]).Success? ==> MapAll(f, items, acc) == MapAll(f, items[1..], acc + [f(items[0]).value])
  {
  }

  /** The comprehension succeeds exactly when `f` succeeds on every item. */
  lemma {:induction false} MapAllSucceeds<A, B>(f: A -> Result<B>, items: seq<A>, acc: seq<B>)
    ensures MapAll(f, items, acc).Success? <==> forall k :: 0 <= k < |items| ==> f(items[k]).Success?
    decreases |items|
  {
    if items != [] {
      var tail := items[1..];
      if f(items[0]).Success? {
        MapAllSucceeds(f, tail, acc + [f(items[0]).value]);
        assert forall k :: 0 < k < |items| ==> items[k] == tail[k - 1];
        assert forall k :: 0 <= k < |tail| ==> tail[k] == items[k + 1];
      }
    }
  }

  /** A successful comprehension keeps `acc` in front and adds one result
      per item. */
  lemma {:induction false} MapAllShape<A, B>(f: A -> Result<B>, items: seq<A>, acc: seq<B>)
    requires MapAll(f, items, acc).Success?
    ensures var r := MapAll(f, items, acc).value;
      |r| == |acc| + |items| && r[..|acc|] == acc
    decreases |items|
  {
    if items != [] {
      var b := f(items[0]).value;
      MapAllShape(f, items[1..], acc + [b]);
      var r := MapAll(f, items[1..], acc + [b]).value;
      assert r[..|acc|] == r[..|acc| + 1][..|acc|];
      assert (acc + [b])[..|acc|] == acc;
    }
  }

  /** The result for item `k` sits `k` places after `acc`. */
  lemma {:induction false} MapAllAt<A, B>(f: A -> Result<B>, items: seq<A>, acc: seq<B>, k: nat)
    requires MapAll(f, items, acc).Success? && k < |items|
    ensures |acc| + k < |MapAll(f, items, acc).value|
    ensures f(items[k]) == Success(MapAll(f, items, acc).value[|acc| + k])
    decreases k
  {
    var b := f(items[0]).value;
    var tail := items[1..];
    MapAllShape(f, tail, acc + [b]);
    if k == 0 {
      var r := MapAll(f, tail, acc + [b]).value;
      assert r[|acc|] == r[..|acc| + 1][|acc|] == b;
    } else {
      MapAllAt(f, tail, acc + [b], k - 1);
      assert tail[k - 1] == items[k];
    }
  }

  /** The list comprehension over the following information. */
  function BulletsFrom(items: seq<Json>, acc: seq<string>): Result<seq<string>> {
    MapAll(Bullet, items, acc)
  }

  /** The comprehension succeeds exactly when every item can be cleaned. */
  lemma BulletsFromSucceeds(items: seq<Json>, acc: seq<string>)
    ensures BulletsFrom(items, acc).Success? <==> forall k :: 0 <= k < |items| ==> Bullet(items[k]).Success?
  {
    MapAllSucceeds(Bullet, items, acc);
  }

  /** A successful comprehension gives one bullet per item, in order. */
  lemma BulletsFromValue(items: seq<Json>, acc: seq<string>)
    requires BulletsFrom(items, acc).Success?
    ensures var r := BulletsFrom(items, acc).value;
      |r| == |acc| + |items| && r[..|acc|] == acc
      && forall k :: 0 <= k < |items| ==> Bullet(items[k]) == Success(r[|acc| + k])
  {
    MapAllShape(Bullet, items, acc);
    forall k | 0 <= k < |items| ensures Bullet(items[k]) == Success(BulletsFrom(items, acc).value[|acc| + k]) {
      MapAllAt(Bullet, items, acc, k);
    }
  }

  /** What precedes the bullet lines: a newline is added to a non-empty
      statement, after dropping its trailing blanks when it then ends with a
      colon. */
  function Lead(s: string): string {
    if s != "" && !(EndsWith(RStrip(s), "\n") || EndsWith(RStrip(s), ":")) then s + "\n"
    else if s != "" && EndsWith(RStrip(s), ":") then RStrip(s) + "\n"
    else s
  }

  /** The test for a stripped statement ending in a newline never fires:
      `rstrip` has removed every trailing newline. */
  lemma LeadCases(s: string)
    ensures s == "" ==> Lead(s) == ""
    ensures s != "" ==> Lead(s) == (if EndsWith(RStrip(s), ":") then RStrip(s) else s) + "\n"
  {
    RStripNoTrailingNewline(s);
  }

  /** `control["parts"][0].get("prose", "")`, or `""` without parts. */
  function StatementProse(c: Control): Json {
    if |c.parts| > 0 then c.parts[0].prose else Str("")
  }

  /** The row `generate_csv` writes for control `c`. */
  function RowOf(c: Control, followingInfo: map<string, Json>): Result<Row> {
    var statement := StatementProse(c);
    if !statement.Str? then Failure(OffSchema("statement prose that is not text"))
    else if c.id !in followingInfo || !Truthy(followingInfo[c.id]) then
      Success(Row(Upper(c.id), StatementId(c.id), statement.s))
    else
      match Iterate(followingInfo[c.id])
      case None => Failure(Raises("iterating following information that is not iterable"))
      case Some(items) =>
        match BulletsFrom(items, [])
        case Failure(e) => Failure(e)
        case Success(bullets) => Success(Row(Upper(c.id), StatementId(c.id), Lead(statement.s) + Join(bullets, "\n")))
  }

  /** The body of `generate_csv`'s loop for one control: the prose is
      extended step by step. */
  method BuildRow(c: Control, followingInfo: map<string, Json>) returns (r: Result<Row>)
    ensures r == RowOf(c, followingInfo)
  {
    var statement := if |c.parts| > 0 then c.parts[0].prose else Str("");
    if !statement.Str? {
      return Failure(OffSchema("statement prose that is not text"));
    }
    var prose := statement.s;
    if c.id in followingInfo && Truthy(followingInfo[c.id]) {
      var info := followingInfo[c.id];
      if prose != "" && !(EndsWith(RStrip(prose), "\n") || EndsWith(RStrip(prose), ":")) {
        prose := prose + "\n";
      } else if prose != "" && EndsWith(RStrip(prose), ":") {
        prose := RStrip(prose) + "\n";
      }
      assert prose == Lead(statement.s);
      var items := Iterate(info);
      if items.None? {
        return Failure(Raises("iterating following information that is not iterable"));
      }
      var bullets: seq<string> := [];
      var i := 0;
      while i < |items.value|
        invariant 0 <= i <= |items.value|
        invariant BulletsFrom(items.value[i..], bullets) == BulletsFrom(items.value, [])
      {
        var b := Bullet(items.value[i]);
        assert items.value[i..][1..] == items.value[i + 1..];
        if b.Failure? {
          return Failure(b.error);
        }
        bullets := bullets + [b.value];
        i := i + 1;
      }
      prose := prose + Join(bullets, "\n");
    }
    r := Success(Row(Upper(c.id), StatementId(c.id), prose));
  }

  /** A well-shaped control's row names the control in upper case and its
      statement part by id; it fails exactly when the following information
      is not iterable or holds a truthy value that is not text. */
  lemma RowColumns(c: Control, followingInfo: map<string, Json>)
    requires WellShaped(c)
    ensures var r := RowOf(c, followingInfo);
      r.Success? ==> r.value.controlPart == Upper(c.id) && r.value.oscalId == c.parts[0].id
    ensures var r := RowOf(c, followingInfo);
      r.Success? <==>
        || c.id !in followingInfo || !Truthy(followingInfo[c.id])
        || (&& Iterate(followingInfo[c.id]).Some?
            && forall k :: 0 <= k < |Iterate(followingInfo[c.id]).value| ==>
                 var item := Iterate(followingInfo[c.id]).value[k]; !Truthy(item) || item.Str?)
  {
    if c.id in followingInfo && Truthy(followingInfo[c.id]) && Iterate(followingInfo[c.id]).Some? {
      BulletsFromSucceeds(Iterate(followingInfo[c.id]).value, []);
    }
  }

  /** Without following information the prose is the cleaned statement. */
  lemma RowWithoutInfo(c: Control, followingInfo: map<string, Json>)
    requires WellShaped(c)
    requires c.id !in followingInfo || !Truthy(followingInfo[c.id])
    ensures RowOf(c, followingInfo) == Success(Row(Upper(c.id), c.parts[0].id, c.parts[0].prose.s))
  {
  }

  /** The line a non-empty statement contributes before the bullets. */
  function FirstLine(s: string): string {
    if EndsWith(RStrip(s), ":") then RStrip(s) else s
  }

  /** The assembled prose, split at newlines, is the statement's line and
      then the bullets, when none of them holds a newline. */
  lemma LeadLines(s: string, bullets: seq<string>)
    requires bullets != []
    requires '\n' !in s
    requires forall k :: 0 <= k < |bullets| ==> '\n' !in bullets[k]
    ensures Split(Lead(s) + Join(bullets, "\n"), '\n') == (if s == "" then [] else [FirstLine(s)]) + bullets
  {
    SplitJoin(bullets, '\n');
    LeadCases(s);
    var body := Join(bullets, "\n");
    assert "\n" == ['\n'];
    if s != "" {
      var first := FirstLine(s);
      SplitLastWithout(first, '\n');
      SplitAroundSeparator(first, body, '\n');
      assert Lead(s) + body == first + ['\n'] + body;
    } else {
      assert Lead(s) + body == body;
    }
  }

  /** An item without a newline gives a bullet without one. */
  lemma BulletSingleLine(item: Json)
    requires Bullet(item).Success?
    requires item.Str? ==> '\n' !in item.s
    ensures '\n' !in Bullet(item).value
  {
    if Truthy(item) && '\n' in CleanProse(Production, item.s) {
      CleanProseKeepsCharacters(Production, item.s, '\n');
    }
  }

  /** With following information the prose is the statement's line, when
      there is a statement, followed by one line per item: its cleaned text
      behind a bullet. This reading holds when neither the statement nor any
      item spans several lines. */
  lemma RowLines(c: Control, followingInfo: map<string, Json>)
    requires WellShaped(c)
    requires c.id in followingInfo && Truthy(followingInfo[c.id])
    requires RowOf(c, followingInfo).Success?
    requires '\n' !in c.parts[0].prose.s
    requires forall k :: 0 <= k < |Iterate(followingInfo[c.id]).value| ==>
      var item := Iterate(followingInfo[c.id]).value[k]; item.Str? ==> '\n' !in item.s
    ensures var s := c.parts[0].prose.s;
      var items := Iterate(followingInfo[c.id]).value;
      var lines := Split(RowOf(c, followingInfo).value.prose, '\n');
      && |lines| == |items| + (if s == "" then 0 else 1)
      && (s != "" ==> lines[0] == FirstLine(s))
      && forall k :: 0 <= k < |items| ==> Bullet(items[k]) == Success(lines[|lines| - |items| + k])
  {
    var s := c.parts[0].prose.s;
    var items := Iterate(followingInfo[c.id]).value;
    var bullets := RowBullets(c, followingInfo);
    BulletsFromValue(items, []);
    forall k | 0 <= k < |bullets| ensures '\n' !in bullets[k] {
      BulletSingleLine(items[k]);
    }
    LeadLines(s, bullets);
  }

  /** With following information the prose is the lead and then the
      bullets, one per item, joined by newlines. */
  lemma RowBullets(c: Control, followingInfo: map<string, Json>) returns (bullets: seq<string>)
    requires WellShaped(c)
    requires c.id in followingInfo && Truthy(followingInfo[c.id])
    requires RowOf(c, followingInfo).Success?
    ensures Iterate(followingInfo[c.id]).Some? && Iterate(followingInfo[c.id]).value != []
    ensures BulletsFrom(Iterate(followingInfo[c.id]).value, []) == Success(bullets)
    ensures bullets != []
    ensures RowOf(c, followingInfo).value.prose == Lead(c.parts[0].prose.s) + Join(bullets, "\n")
  {
    var items := Iterate(followingInfo[c.id]).value;
    bullets := BulletsFrom(items, []).value;
    MapAllShape(Bullet, items, []);
  }

  // ---------------------------------------------------------------------
  // The loop over all controls
  // ---------------------------------------------------------------------

  /** The rows for `entries`, continuing from the rows `acc` already made. */
  function RowsFrom(entries: seq<Entry>, followingInfo: map<string, Json>, acc: seq<Row>): Result<seq<Row>> {
    MapAll(EntryRow(followingInfo), entries, acc)
  }

  /** The row of an entry's control. */
  function EntryRow(followingInfo: map<string, Json>): Entry -> Result<Row> {
    (e: Entry) => RowOf(e.control, followingInfo)
  }

  /** `generate_csv`'s loop, without the header row and the file. */
  method GenerateRows(entries: seq<Entry>, followingInfo: map<string, Json>) returns (r: Result<seq<Row>>)
    ensures r == RowsFrom(entries, followingInfo, [])
  {
    var rows: seq<Row> := [];
    var i := 0;
    while i < |entries|
      invariant 0 <= i <= |entries|
      invariant RowsFrom(entries[i..], followingInfo, rows) == RowsFrom(entries, followingInfo, [])
    {
      var row := BuildRow(entries[i].control, followingInfo);
      RowsFromStep(entries, followingInfo, rows, i);
      if row.Failure? {
        return Failure(row.error);
      }
      rows := rows + [row.value];
      i := i + 1;
    }
    r := Success(rows);
  }

  /** One step of `generate_csv`'s loop, at entry `i`. */
  lemma RowsFromStep(entries: seq<Entry>, followingInfo: map<string, Json>, rows: seq<Row>, i: nat)
    requires i < |entries|
    ensures var row := RowOf(entries[i].control, followingInfo);
      row.Failure? ==> RowsFrom(entries[i..], followingInfo, rows) == Failure(row.error)
    ensures var row := RowOf(entries[i].control, followingInfo);
      row.Success? ==> RowsFrom(entries[i..], followingInfo, rows) == RowsFrom(entries[i + 1..], followingInfo, rows + [row.value])
  {
    assert entries[i..][1..] == entries[i + 1..];
    MapAllStep(EntryRow(followingInfo), entries[i..], rows);
  }

  /** One row per control, in the order of the parsers' output. */
  lemma RowsShape(entries: seq<Entry>, followingInfo: map<string, Json>, acc: seq<Row>)
    requires RowsFrom(entries, followingInfo, acc).Success?
    ensures var r := RowsFrom(entries, followingInfo, acc).value;
      |r| == |acc| + |entries| && r[..|acc|] == acc
      && forall k :: 0 <= k < |entries| ==> RowOf(entries[k].control, followingInfo) == Success(r[|acc| + k])
  {
    MapAllShape(EntryRow(followingInfo), entries, acc);
    forall k | 0 <= k < |entries|
      ensures RowOf(entries[k].control, followingInfo) == Success(RowsFrom(entries, followingInfo, acc).value[|acc| + k])
    {
      MapAllAt(EntryRow(followingInfo), entries, acc, k);
    }
  }
}
