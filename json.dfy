/** A JSON document as Python's json module produces it: objects are
    dictionaries whose iteration order is the order of their fields. Numbers
    are integers only (the documents handled here hold no floats). */
module Json {

  datatype Option<+T> = None | Some(value: T)

  /** Why evaluating the converter on a document stops: the Python code
      raises (`Raises`), or a value has a shape this model does not follow
      (`OffSchema`). */
  datatype Error = Raises(what: string) | OffSchema(what: string)

  datatype Result<+T> = Success(value: T) | Failure(error: Error)

  datatype Json =
    | Null
    | Bool(b: bool)
    | Num(n: int)
    | Str(s: string)
    | Arr(items: seq<Json>)
    | Obj(fields: seq<(string, Json)>)

  /** Python truthiness: None, False, 0, "", [] and {} are false. */
  predicate Truthy(j: Json) {
    match j
    case Null => false
    case Bool(b) => b
    case Num(n) => n != 0
    case Str(s) => s != ""
    case Arr(items) => items != []
    case Obj(fields) => fields != []
  }

  /** The value stored under `key`; the first field wins, which agrees with a
      Python dictionary because those never hold a key twice. */
  function Lookup(fields: seq<(string, Json)>, key: string): (r: Option<Json>)
    ensures r.Some? <==> exists i :: 0 <= i < |fields| && fields[i].0 == key
    ensures r.Some? ==> exists i :: 0 <= i < |fields| && fields[i] == (key, r.value)
  {
    if fields == [] then None
    else if fields[0].0 == key then Some(fields[0].1)
    else
      var r := Lookup(fields[1..], key);
      assert r.Some? ==> exists i :: 0 <= i < |fields[1..]| && fields[1..][i] == (key, r.value);
      assert (exists i :: 0 <= i < |fields[1..]| && fields[1..][i].0 == key) <==>
             (exists i :: 0 <= i < |fields| && fields[i].0 == key) by {
        forall i | 0 <= i < |fields[1..]| ensures fields[1..][i] == fields[i + 1] { }
        forall i | 0 < i < |fields| ensures fields[i] == fields[1..][i - 1] { }
      }
      r
  }

  /** A key met at position `i` and at no earlier one is found there. */
  lemma {:induction false} LookupAt(fields: seq<(string, Json)>, i: nat)
    requires i < |fields|
    requires forall j :: 0 <= j < i ==> fields[j].0 != fields[i].0
    ensures Lookup(fields, fields[i].0) == Some(fields[i].1)
  {
    if i > 0 {
      assert forall j :: 0 <= j < i - 1 ==> fields[1..][j] == fields[j + 1];
      LookupAt(fields[1..], i - 1);
    }
  }

  /** Looking a key up in a dictionary of up to four entries: the first
      entry with that key, or none. */
  lemma LookupOne(a: (string, Json), key: string)
    ensures Lookup([a], key) == if a.0 == key then Some(a.1) else None
  {
    assert [a][1..] == [];
  }

  lemma LookupTwo(a: (string, Json), b: (string, Json), key: string)
    ensures Lookup([a, b], key) ==
      if a.0 == key then Some(a.1) else if b.0 == key then Some(b.1) else None
  {
    assert [a, b][1..] == [b];
    LookupOne(b, key);
  }

  lemma LookupThree(a: (string, Json), b: (string, Json), c: (string, Json), key: string)
    ensures Lookup([a, b, c], key) ==
      if a.0 == key then Some(a.1) else if b.0 == key then Some(b.1)
      else if c.0 == key then Some(c.1) else None
  {
    assert [a, b, c][1..] == [b, c];
    LookupTwo(b, c, key);
  }

  lemma LookupFour(a: (string, Json), b: (string, Json), c: (string, Json), d: (string, Json), key: string)
    ensures Lookup([a, b, c, d], key) ==
      if a.0 == key then Some(a.1) else if b.0 == key then Some(b.1)
      else if c.0 == key then Some(c.1) else if d.0 == key then Some(d.1) else None
  {
    assert [a, b, c, d][1..] == [b, c, d];
    LookupThree(b, c, d, key);
  }

  /** `key in d` for a dictionary `d`. */
  predicate Has(j: Json, key: string) {
    j.Obj? && Lookup(j.fields, key).Some?
  }

  /** `d.get(key, default)` for a dictionary `d`. */
  function Get(j: Json, key: string, default: Json): (r: Json)
    requires j.Obj?
    ensures Has(j, key) ==> r == Lookup(j.fields, key).value
    ensures !Has(j, key) ==> r == default
  {
    match Lookup(j.fields, key)
    case Some(v) => v
    case None => default
  }

  /** `d.get(key)`: None when the key is absent. */
  function Get0(j: Json, key: string): Json
    requires j.Obj?
  {
    Get(j, key, Null)
  }

  /** `a or b` on two Python values. */
  function Or(a: Json, b: Json): (r: Json)
    ensures Truthy(a) ==> r == a
    ensures !Truthy(a) ==> r == b
  {
    if Truthy(a) then a else b
  }

  function Keys(fields: seq<(string, Json)>): (r: seq<string>)
    ensures |r| == |fields|
    ensures forall i :: 0 <= i < |fields| ==> r[i] == fields[i].0
  {
    if fields == [] then [] else [fields[0].0] + Keys(fields[1..])
  }

  /** What a Python `for x in value` loop visits: the items of a list, the
      keys of a dictionary, the one-character strings of a string; None when
      the value is not iterable (Python raises TypeError). */
  function Iterate(j: Json): (r: Option<seq<Json>>)
    ensures j.Arr? ==> r == Some(j.items)
    ensures r.None? <==> !(j.Arr? || j.Obj? || j.Str?)
  {
    match j
    case Arr(items) => Some(items)
    case Obj(fields) => Some(seq(|fields|, i requires 0 <= i < |fields| => Str(fields[i].0)))
    case Str(s) => Some(seq(|s|, i requires 0 <= i < |s| => Str([s[i]])))
    case _ => None
  }

  /** The fields of `fields` whose key is not in `drop`, in order (`dict.pop`). */
  function Without(fields: seq<(string, Json)>, drop: set<string>): (r: seq<(string, Json)>)
    ensures forall k :: k !in drop ==> Lookup(r, k) == Lookup(fields, k)
    ensures forall k :: k in drop ==> Lookup(r, k).None?
    ensures |r| <= |fields|
  {
    if fields == [] then []
    else if fields[0].0 in drop then Without(fields[1..], drop)
    else [fields[0]] + Without(fields[1..], drop)
  }

  /** Replaces the value under `key`, which must be present. */
  function Put(fields: seq<(string, Json)>, key: string, v: Json): (r: seq<(string, Json)>)
    ensures Lookup(r, key) == if Lookup(fields, key).Some? then Some(v) else None
    ensures forall k :: k != key ==> Lookup(r, k) == Lookup(fields, k)
  {
    if fields == [] then []
    else if fields[0].0 == key then [(key, v)] + fields[1..]
    else [fields[0]] + Put(fields[1..], key, v)
  }

  /** Replacing the value of a key met first at position `i` rewrites that
      position only. */
  lemma {:induction false} PutAt(fields: seq<(string, Json)>, i: nat, v: Json)
    requires i < |fields|
    requires forall j :: 0 <= j < i ==> fields[j].0 != fields[i].0
    ensures Put(fields, fields[i].0, v) == fields[i := (fields[i].0, v)]
  {
    var key := fields[i].0;
    if i == 0 {
      assert Put(fields, key, v) == [(key, v)] + fields[1..];
    } else {
      var tail := fields[1..];
      assert tail[i - 1] == fields[i];
      forall j | 0 <= j < i - 1 ensures tail[j].0 != tail[i - 1].0 {
        assert tail[j] == fields[j + 1];
      }
      PutAt(tail, i - 1, v);
      var u := tail[i - 1 := (key, v)];
      assert Put(fields, key, v) == [fields[0]] + u;
      assert |[fields[0]] + u| == |fields|;
      forall k | 0 <= k < |fields| ensures ([fields[0]] + u)[k] == fields[i := (key, v)][k] {
        if k > 0 {
          assert ([fields[0]] + u)[k] == u[k - 1];
        }
      }
    }
  }

  /** Adding a key the dictionary does not hold (`d[key] = v`). */
  function Append(fields: seq<(string, Json)>, key: string, v: Json): (r: seq<(string, Json)>)
    requires Lookup(fields, key).None?
    ensures Lookup(r, key) == Some(v)
    ensures forall k :: k != key ==> Lookup(r, k) == Lookup(fields, k)
  {
    if fields == [] then [(key, v)]
    else [fields[0]] + Append(fields[1..], key, v)
  }

  /** A JSON value as `json.dumps(..., sort_keys=True)` sees it: the order of
      an object's fields does not matter. */
  datatype Canonical =
    | CNull
    | CBool(b: bool)
    | CNum(n: int)
    | CStr(s: string)
    | CArr(items: seq<Canonical>)
    | CObj(m: map<string, Canonical>)

  function Canon(j: Json): Canonical
    decreases j, 1
  {
    match j
    case Null => CNull
    case Bool(b) => CBool(b)
    case Num(n) => CNum(n)
    case Str(s) => CStr(s)
    case Arr(items) => CArr(CanonItems(items))
    case Obj(fields) => CObj(CanonFields(fields))
  }

  function CanonItems(items: seq<Json>): (r: seq<Canonical>)
    decreases items, 0
    ensures |r| == |items|
  {
    if items == [] then [] else [Canon(items[0])] + CanonItems(items[1..])
  }

  function CanonFields(fields: seq<(string, Json)>): (r: map<string, Canonical>)
    decreases fields, 0
    ensures forall k :: k in r <==> Lookup(fields, k).Some?
  {
    if fields == [] then map[]
    else
      var (k, v) := fields[0];
      assert v < fields[0];
      CanonFields(fields[1..])[k := Canon(v)]
  }

  /** The canonical form of an object maps a key to the canonical form of
      the value `d[key]` gives. */
  lemma {:induction false} CanonFieldsByLookup(f: seq<(string, Json)>, k: string)
    requires Lookup(f, k).Some?
    ensures k in CanonFields(f) && CanonFields(f)[k] == Canon(Lookup(f, k).value)
  {
    if f[0].0 != k {
      CanonFieldsByLookup(f[1..], k);
    }
  }

  /** Two objects that hold the same values under the same keys dump to the
      same sorted text, whatever the order of their fields. */
  lemma CanonOrderInsensitive(f: seq<(string, Json)>, g: seq<(string, Json)>)
    requires forall k :: Lookup(f, k) == Lookup(g, k)
    ensures Canon(Obj(f)) == Canon(Obj(g))
  {
    var a, b := CanonFields(f), CanonFields(g);
    assert a.Keys == b.Keys;
    forall k | k in a ensures a[k] == b[k] {
      CanonFieldsByLookup(f, k);
      CanonFieldsByLookup(g, k);
    }
  }
}
