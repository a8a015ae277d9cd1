/** The Python string operations the converter relies on, restricted to ASCII
    where Python consults Unicode tables (case mapping, `\w`). */
module Text {

  /** `str.isspace()` for one character (the characters Python's `strip()`
      and the regular expression class `\s` treat as whitespace). */
  predicate IsSpace(c: char) {
    ('\t' <= c <= '\r') || ('\U{1C}' <= c <= ' ') || c == '\U{85}' || c == '\U{A0}'
    || c == '\U{1680}' || ('\U{2000}' <= c <= '\U{200A}') || c == '\U{2028}' || c == '\U{2029}'
    || c == '\U{202F}' || c == '\U{205F}' || c == '\U{3000}'
  }

  predicate IsUpper(c: char) { 'A' <= c <= 'Z' }
  predicate IsLower(c: char) { 'a' <= c <= 'z' }
  predicate IsDigit(c: char) { '0' <= c <= '9' }

  /** The class `[A-Za-z0-9]`. */
  predicate IsAlnum(c: char) { IsUpper(c) || IsLower(c) || IsDigit(c) }

  /** `\w`, restricted to ASCII: `[A-Za-z0-9_]`. */
  predicate IsWord(c: char) { IsAlnum(c) || c == '_' }

  function LowerChar(c: char): (r: char)
    ensures !IsUpper(r)
    ensures !IsUpper(c) ==> r == c
  {
    if IsUpper(c) then (c as int + 32) as char else c
  }

  function UpperChar(c: char): (r: char)
    ensures !IsLower(r)
    ensures !IsLower(c) ==> r == c
  {
    if IsLower(c) then (c as int - 32) as char else c
  }

  predicate NoUpper(s: string) {
    forall i :: 0 <= i < |s| ==> !IsUpper(s[i])
  }

  /** `s.lower()` on ASCII letters. */
  function Lower(s: string): (r: string)
    ensures |r| == |s| && NoUpper(r)
    ensures forall i :: 0 <= i < |s| ==> r[i] == LowerChar(s[i])
  {
    seq(|s|, i requires 0 <= i < |s| => LowerChar(s[i]))
  }

  /** `s.upper()` on ASCII letters. */
  function Upper(s: string): (r: string)
    ensures |r| == |s|
    ensures forall i :: 0 <= i < |s| ==> r[i] == UpperChar(s[i])
  {
    seq(|s|, i requires 0 <= i < |s| => UpperChar(s[i]))
  }

  /** `s.capitalize()` on ASCII letters: the first character upper-case, the
      rest lower-case. */
  function Capitalize(s: string): (r: string)
    ensures |r| == |s|
    ensures s != [] ==> r[0] == UpperChar(s[0]) && r[1..] == Lower(s[1..])
  {
    if s == [] then [] else [UpperChar(s[0])] + Lower(s[1..])
  }

  lemma LowerOfNoUpper(s: string)
    requires NoUpper(s)
    ensures Lower(s) == s
  {
  }

  lemma LowerConcat(a: string, b: string)
    ensures Lower(a + b) == Lower(a) + Lower(b)
  {
  }

  /** `s.replace(a, b)` for one-character `a` and `b`. */
  function Replace(s: string, a: char, b: char): (r: string)
    ensures |r| == |s|
    ensures forall i :: 0 <= i < |s| ==> r[i] == if s[i] == a then b else s[i]
  {
    seq(|s|, i requires 0 <= i < |s| => if s[i] == a then b else s[i])
  }

  predicate StartsWith(s: string, p: string) {
    |p| <= |s| && s[..|p|] == p
  }

  predicate EndsWith(s: string, p: string) {
    |p| <= |s| && s[|s| - |p|..] == p
  }

  /** `s` holds `p` starting at index `k`. */
  predicate OccursAt(s: string, p: string, k: nat) {
    k + |p| <= |s| && s[k..k + |p|] == p
  }

  /** `p in s` for strings: `p` occurs as a contiguous piece of `s`. */
  predicate Contains(s: string, p: string)
    decreases |s|
  {
    StartsWith(s, p) || (s != [] && Contains(s[1..], p))
  }

  lemma {:induction false} ContainsAt(s: string, p: string, k: nat)
    requires OccursAt(s, p, k)
    ensures Contains(s, p)
  {
    if k > 0 {
      assert s[1..][k - 1..k - 1 + |p|] == s[k..k + |p|];
      ContainsAt(s[1..], p, k - 1);
    }
  }

  /** A piece of a piece of `s` is a piece of `s`. */
  lemma OccursWithin(s: string, p: string, q: string, k: nat, j: nat)
    requires OccursAt(s, p, k) && OccursAt(p, q, j)
    ensures OccursAt(s, q, k + j)
  {
    forall i | 0 <= i < |q| ensures s[k + j..k + j + |q|][i] == q[i] {
      assert s[k + j + i] == s[k..k + |p|][j + i] == p[j + i] == p[j..j + |q|][i];
    }
  }

  /** A piece that occurs in `s` starts with a character of `s`. */
  lemma FirstOfContained(s: string, p: string)
    requires p != []
    ensures Contains(s, p) ==> p[0] in s
  {
    if Contains(s, p) {
      ContainsWitness(s, p);
      var k: nat :| OccursAt(s, p, k);
      assert s[k..k + |p|][0] == p[0];
    }
  }

  lemma {:induction false} ContainsWitness(s: string, p: string)
    requires Contains(s, p)
    ensures exists k: nat :: OccursAt(s, p, k)
  {
    if !StartsWith(s, p) {
      ContainsWitness(s[1..], p);
      var k: nat :| OccursAt(s[1..], p, k);
      assert s[k + 1..k + 1 + |p|] == s[1..][k..k + |p|];
      assert OccursAt(s, p, k + 1);
    } else {
      assert OccursAt(s, p, 0);
    }
  }

  /** Every character of a piece of `s` is a character of `s`. */
  lemma ContainsChar(s: string, p: string, c: char)
    requires c in p && Contains(s, p)
    ensures c in s
  {
    ContainsWitness(s, p);
    var k: nat :| OccursAt(s, p, k);
    var j :| 0 <= j < |p| && p[j] == c;
    assert s[k + j] == c;
  }

  // ---------------------------------------------------------------------
  // strip / rstrip
  // ---------------------------------------------------------------------

  /** `s.rstrip()`. */
  function RStrip(s: string): (r: string)
    ensures |r| <= |s| && r == s[..|r|]
    ensures r == [] || !IsSpace(r[|r| - 1])
    ensures forall i :: |r| <= i < |s| ==> IsSpace(s[i])
  {
    if s == [] then []
    else if IsSpace(s[|s| - 1]) then RStrip(s[..|s| - 1])
    else s
  }

  /** `s.lstrip()`. */
  function LStrip(s: string): (r: string)
    ensures |r| <= |s| && r == s[|s| - |r|..]
    ensures r == [] || !IsSpace(r[0])
    ensures forall i :: 0 <= i < |s| - |r| ==> IsSpace(s[i])
  {
    if s == [] then []
    else if IsSpace(s[0]) then LStrip(s[1..])
    else s
  }

  /** `s.strip()`: `s` without its leading and trailing whitespace. */
  function Strip(s: string): (r: string)
    ensures |r| <= |s|
    ensures r == [] || (!IsSpace(r[0]) && !IsSpace(r[|r| - 1]))
  {
    var t := RStrip(s);
    var r := LStrip(t);
    if r != [] then
      assert r[|r| - 1] == t[|t| - 1] && !IsSpace(t[|t| - 1]);
      r
    else r
  }

  /** What `strip()` keeps is the piece of `s` that ends where `rstrip()`
      stops. */
  lemma StripSlice(s: string)
    ensures var i := |RStrip(s)| - |Strip(s)|;
      0 <= i && Strip(s) == s[i..i + |Strip(s)|]
  {
    var t := RStrip(s);
    var r := LStrip(t);
    assert Strip(s) == r;
    var i := |t| - |r|;
    assert t == s[..|t|] && r == t[i..];
  }

  /** Outside that piece `s` holds only whitespace. */
  lemma StripOnlySpace(s: string, k: nat)
    requires k < |s|
    requires var i := |RStrip(s)| - |Strip(s)|; k < i || i + |Strip(s)| <= k
    ensures IsSpace(s[k])
  {
    var t := RStrip(s);
    var r := LStrip(t);
    assert Strip(s) == r;
    if k < |t| - |r| {
      assert s[k] == t[k];
    }
  }

  /** `strip()` only deletes characters. */
  lemma StripMultiset(s: string)
    ensures multiset(Strip(s)) <= multiset(s)
  {
    var t := RStrip(s);
    assert s == t + s[|t|..];
    assert multiset(s) == multiset(t) + multiset(s[|t|..]);
    var r := LStrip(t);
    assert t == t[..|t| - |r|] + r;
    assert multiset(t) == multiset(t[..|t| - |r|]) + multiset(r);
  }

  /** Every character `RStrip` keeps was in its input. */
  lemma RStripSubset(s: string)
    ensures forall c :: c in RStrip(s) ==> c in s
  {
    var r := RStrip(s);
    forall c | c in r ensures c in s {
      var i :| 0 <= i < |r| && r[i] == c;
      assert s[i] == c;
    }
  }

  /** `rstrip()` never leaves a trailing newline. */
  lemma RStripNoTrailingNewline(s: string)
    ensures !EndsWith(RStrip(s), "\n")
  {
    var r := RStrip(s);
    if r != [] {
      assert r[|r| - 1..] == [r[|r| - 1]];
    }
  }

  // ---------------------------------------------------------------------
  // split / join
  // ---------------------------------------------------------------------

  function Count(s: string, c: char): nat {
    if s == [] then 0 else (if s[0] == c then 1 else 0) + Count(s[1..], c)
  }

  lemma {:induction false} CountPositive(s: string, c: char)
    ensures Count(s, c) > 0 <==> c in s
  {
    if s != [] {
      CountPositive(s[1..], c);
      assert s == [s[0]] + s[1..];
    }
  }

  /** `s.split(c)` for a one-character separator: one more piece than there
      are separators. */
  function Split(s: string, c: char): (r: seq<string>)
    ensures |r| == Count(s, c) + 1
    ensures forall i :: 0 <= i < |r| ==> c !in r[i]
  {
    if s == [] then [""]
    else
      var rest := Split(s[1..], c);
      if s[0] == c then [""] + rest
      else [[s[0]] + rest[0]] + rest[1..]
  }

  /** `sep.join(parts)`. */
  function Join(parts: seq<string>, sep: string): string {
    if parts == [] then ""
    else if |parts| == 1 then parts[0]
    else parts[0] + sep + Join(parts[1..], sep)
  }

  lemma {:induction false} JoinSplit(s: string, c: char)
    ensures Join(Split(s, c), [c]) == s
  {
    if s != [] {
      JoinSplit(s[1..], c);
      var rest := Split(s[1..], c);
      if s[0] != c {
        var r := Split(s, c);
        assert r[0] == [s[0]] + rest[0] && r[1..] == rest[1..];
        if |rest| > 1 {
          assert Join(rest, [c]) == rest[0] + [c] + Join(rest[1..], [c]);
        }
      }
    }
  }

  lemma {:induction false} SplitHasTwoPieces(s: string, c: char)
    ensures |Split(s, c)| >= 2 <==> c in s
  {
    CountPositive(s, c);
  }

  /** The last piece of `s.split(c)`: `s` itself when `c` does not occur. */
  lemma SplitLastWithout(s: string, c: char)
    requires c !in s
    ensures Split(s, c) == [s]
  {
    CountPositive(s, c);
    JoinSplit(s, c);
  }

  function MapLower(parts: seq<string>): (r: seq<string>)
    ensures |r| == |parts|
    ensures forall i :: 0 <= i < |parts| ==> r[i] == Lower(parts[i])
  {
    if parts == [] then [] else [Lower(parts[0])] + MapLower(parts[1..])
  }

  /** Lower-casing every piece and then joining is lower-casing the joined
      string, for a separator without upper-case letters. */
  lemma {:induction false} JoinMapLower(parts: seq<string>, sep: string)
    requires NoUpper(sep)
    ensures Join(MapLower(parts), sep) == Lower(Join(parts, sep))
  {
    if |parts| > 1 {
      JoinMapLower(parts[1..], sep);
      assert MapLower(parts)[1..] == MapLower(parts[1..]);
      LowerConcat(parts[0] + sep, Join(parts[1..], sep));
      LowerConcat(parts[0], sep);
      LowerOfNoUpper(sep);
    }
  }

  /** Splitting at a separator placed between two strings splits each of
      them on its own. */
  lemma {:induction false} SplitAroundSeparator(a: string, b: string, c: char)
    ensures Split(a + [c] + b, c) == Split(a, c) + Split(b, c)
  {
    if a == [] {
      assert a + [c] + b == [c] + b;
      assert ([c] + b)[1..] == b;
    } else {
      var s := a + [c] + b;
      assert s[1..] == a[1..] + [c] + b;
      SplitAroundSeparator(a[1..], b, c);
      SplitFirst(s, a, c, Split(b, c));
    }
  }

  lemma AppendAssoc(x: seq<string>, y: seq<string>, z: seq<string>)
    ensures x + (y + z) == (x + y) + z
  {
  }

  /** The step of the proof above: the first character goes the same way
      in `a` as in `s` when the pieces of `s` from 1 on are those of `a` from
      1 on followed by `tail`. */
  lemma SplitFirst(s: string, a: string, c: char, tail: seq<string>)
    requires s != [] && a != [] && s[0] == a[0]
    requires Split(s[1..], c) == Split(a[1..], c) + tail
    ensures Split(s, c) == Split(a, c) + tail
  {
    var ra := Split(a[1..], c);
    var rest := Split(s[1..], c);
    if a[0] == c {
      assert Split(s, c) == [""] + rest;
      assert Split(a, c) == [""] + ra;
      AppendAssoc([""], ra, tail);
    } else {
      var head := [a[0]] + ra[0];
      assert |ra| >= 1;
      assert rest[0] == ra[0];
      assert rest[1..] == ra[1..] + tail;
      assert Split(s, c) == [head] + rest[1..];
      assert Split(a, c) == [head] + ra[1..];
      AppendAssoc([head], ra[1..], tail);
    }
  }

  /** Joining pieces free of the separator and splitting again gives the
      pieces back. */
  lemma {:induction false} SplitJoin(parts: seq<string>, c: char)
    requires parts != []
    requires forall i :: 0 <= i < |parts| ==> c !in parts[i]
    ensures Split(Join(parts, [c]), c) == parts
  {
    if |parts| == 1 {
      SplitLastWithout(parts[0], c);
    } else {
      SplitJoin(parts[1..], c);
      SplitLastWithout(parts[0], c);
      SplitAroundSeparator(parts[0], Join(parts[1..], [c]), c);
      assert parts == [parts[0]] + parts[1..];
    }
  }

  // ---------------------------------------------------------------------
  // integers as decimal text
  // ---------------------------------------------------------------------

  function DigitChar(d: nat): (c: char)
    requires d < 10
    ensures IsDigit(c)
  {
    ('0' as int + d) as char
  }

  /** `str(n)` for a natural number. */
  function NatToString(n: nat): (r: string)
    ensures r != [] && forall i :: 0 <= i < |r| ==> IsDigit(r[i])
    ensures n > 0 ==> r[0] != '0'
  {
    if n < 10 then [DigitChar(n)] else NatToString(n / 10) + [DigitChar(n % 10)]
  }

  function DigitsValue(s: string): int
    requires forall i :: 0 <= i < |s| ==> IsDigit(s[i])
  {
    if s == [] then 0 else DigitsValue(s[..|s| - 1]) * 10 + (s[|s| - 1] as int - '0' as int)
  }

  /** Decimal text reads back as the number it was made from, so distinct item
      numbers give distinct part ids. */
  lemma {:induction false} NatToStringValue(n: nat)
    ensures DigitsValue(NatToString(n)) == n
  {
    if n >= 10 {
      NatToStringValue(n / 10);
      var s := NatToString(n);
      assert s[..|s| - 1] == NatToString(n / 10);
    }
  }

  lemma NatToStringInjective(m: nat, n: nat)
    requires NatToString(m) == NatToString(n)
    ensures m == n
  {
    NatToStringValue(m);
    NatToStringValue(n);
  }
}
