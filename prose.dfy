/** `clean_prose` and `generate_title`: the rewriting of statement text before
    it is placed in a control. Each regular-expression substitution is a
    left-to-right scanner over the original string, as `re.sub` is. */
module Prose {
  import opened Text
  import J = Json

  // ---------------------------------------------------------------------
  // Quotes
  // ---------------------------------------------------------------------

  /** `t[1:-1]`, which is empty for a one-character string. */
  function Inner(t: string): (r: string)
    ensures |t| >= 2 ==> t == [t[0]] + r + [t[|t| - 1]]
    ensures |t| < 2 ==> r == ""
  {
    if |t| >= 2 then t[1..|t| - 1] else ""
  }

  /** Drops one enclosing pair of the quote character `q`. */
  function DropQuotes(t: string, q: char): (r: string)
    ensures multiset(r) <= multiset(t)
  {
    if StartsWith(t, [q]) && EndsWith(t, [q]) then
      assert |t| >= 2 ==> t == [t[0]] + Inner(t) + [t[|t| - 1]];
      Inner(t)
    else t
  }

  /** The double-quote step and then the single-quote step of `clean_prose`. */
  function Unquote(t: string): (r: string)
    ensures multiset(r) <= multiset(t)
  {
    DropQuotes(DropQuotes(t, '"'), '\'')
  }

  /** A string wrapped in a matching pair of quotes loses exactly that pair,
      unless the pair is double quotes and what is inside is itself wrapped
      in single quotes. */
  lemma UnquoteDropsOnePair(x: string, q: char)
    requires q == '"' || q == '\''
    requires q == '"' ==> !(StartsWith(x, "'") && EndsWith(x, "'"))
    ensures Unquote([q] + x + [q]) == x
  {
    var t := [q] + x + [q];
    assert StartsWith(t, [q]) && EndsWith(t, [q]);
    assert Inner(t) == x;
  }

  // ---------------------------------------------------------------------
  // Bold markers: re.sub(r'\*\*(.+?)\*\*', r'\1', text)
  // ---------------------------------------------------------------------

  /** Emitting `s[a..b]` and then something drawn from `s[c..]` only deletes
      characters of `s[i..]`. */
  lemma Piece(s: string, i: nat, a: nat, b: nat, c: nat, rest: string)
    requires i <= a <= b <= c <= |s|
    requires multiset(rest) <= multiset(s[c..])
    ensures multiset(s[a..b] + rest) <= multiset(s[i..])
  {
    assert s[i..] == s[i..a] + s[a..b] + s[b..c] + s[c..];
    assert multiset(s[i..]) == multiset(s[i..a]) + multiset(s[a..b]) + multiset(s[b..c]) + multiset(s[c..]);
  }

  /** The closing `**` of a bold group whose text starts at `start`: the first
      `k > start` with `**` at `k` such that `s[start..k]` holds no newline
      (`.` does not match one). */
  function BoldClose(s: string, start: nat, k: nat): (r: J.Option<nat>)
    requires start < k
    requires forall j :: start <= j < k - 1 && j < |s| ==> s[j] != '\n'
    decreases |s| - k
    ensures r.Some? ==> k <= r.value && r.value + 2 <= |s| && OccursAt(s, "**", r.value)
    ensures r.Some? ==> forall j :: start <= j < r.value ==> s[j] != '\n'
    ensures r.Some? ==> forall j :: k <= j < r.value ==> !OccursAt(s, "**", j)
  {
    if k + 2 > |s| || s[k - 1] == '\n' then J.None
    else if OccursAt(s, "**", k) then J.Some(k)
    else BoldClose(s, start, k + 1)
  }

  /** Where the bold group opening at `i` ends, if one does. */
  function BoldAt(s: string, i: nat): (r: J.Option<nat>)
    ensures r.Some? ==> i + 3 <= r.value && r.value + 2 <= |s| && OccursAt(s, "**", i)
  {
    if OccursAt(s, "**", i) && i + 3 <= |s| then BoldClose(s, i + 2, i + 3) else J.None
  }

  /** The bold pass from index `i` on. */
  function BoldFrom(s: string, i: nat): (r: string)
    requires i <= |s|
    decreases |s| - i
    ensures multiset(r) <= multiset(s[i..])
  {
    if i == |s| then ""
    else
      match BoldAt(s, i)
      case Some(k) =>
        var rest := BoldFrom(s, k + 2);
        Piece(s, i, i + 2, k, k + 2, rest);
        s[i + 2..k] + rest
      case None =>
        var rest := BoldFrom(s, i + 1);
        Piece(s, i, i, i + 1, i + 1, rest);
        s[i..i + 1] + rest
  }

  function StripBold(s: string): (r: string)
    ensures multiset(r) <= multiset(s)
  {
    assert s[0..] == s;
    BoldFrom(s, 0)
  }

  lemma {:induction false} BoldCloseNoStar(s: string, start: nat, k: nat)
    requires start < k <= |s| - 2
    requires forall j :: start <= j < |s| - 2 ==> s[j] != '*' && s[j] != '\n'
    requires OccursAt(s, "**", |s| - 2)
    ensures BoldClose(s, start, k) == J.Some(|s| - 2)
    decreases |s| - k
  {
    if k < |s| - 2 {
      assert s[k] != '*';
      assert !OccursAt(s, "**", k);
      BoldCloseNoStar(s, start, k + 1);
    }
  }

  /** `**x**` becomes `x` when `x` is a non-empty run of text without stars
      or newlines. */
  lemma StripBoldPair(x: string)
    requires x != "" && '*' !in x && '\n' !in x
    ensures StripBold("**" + x + "**") == x
  {
    var s := "**" + x + "**";
    assert OccursAt(s, "**", 0);
    assert OccursAt(s, "**", |s| - 2);
    forall j | 2 <= j < |s| - 2 ensures s[j] != '*' && s[j] != '\n' {
      assert s[j] == x[j - 2];
    }
    BoldCloseNoStar(s, 2, 3);
    assert BoldAt(s, 0) == J.Some(|s| - 2);
    assert s[2..|s| - 2] == x;
    assert BoldFrom(s, |s|) == "";
  }

  /** Text without stars passes the bold step unchanged. */
  lemma {:induction false} BoldFromNoStar(s: string, i: nat)
    requires i <= |s| && '*' !in s
    ensures BoldFrom(s, i) == s[i..]
    decreases |s| - i
  {
    if i < |s| {
      assert BoldAt(s, i).None? by {
        if i + 2 <= |s| { assert s[i..i + 2][0] == s[i] != '*'; }
      }
      BoldFromNoStar(s, i + 1);
      assert s[i..] == s[i..i + 1] + s[i + 1..];
    }
  }

  // ---------------------------------------------------------------------
  // Underscore markers
  // ---------------------------------------------------------------------

  /** One character of the class `[A-Za-z0-9\s]`. */
  predicate InRun(c: char) { IsAlnum(c) || IsSpace(c) }

  /** The end of the longest run of `[A-Za-z0-9\s]` starting at `j`. */
  function RunEnd(s: string, j: nat): (m: nat)
    requires j <= |s|
    decreases |s| - j
    ensures j <= m <= |s|
    ensures forall k :: j <= k < m ==> InRun(s[k])
    ensures m < |s| ==> !InRun(s[m])
  {
    if j < |s| && InRun(s[j]) then RunEnd(s, j + 1) else j
  }

  lemma {:induction false} RunEndAt(s: string, j: nat, m: nat)
    requires j <= m < |s| && !InRun(s[m])
    requires forall k :: j <= k < m ==> InRun(s[k])
    ensures RunEnd(s, j) == m
    decreases m - j
  {
    if j < m {
      RunEndAt(s, j + 1, m);
    }
  }

  /** The boundary `\b` between index `k - 1` and index `k`. */
  predicate Boundary(s: string, k: nat)
    requires k <= |s|
  {
    var before := k > 0 && IsWord(s[k - 1]);
    var after := k < |s| && IsWord(s[k]);
    before != after
  }

  /** Pass 1, `_([A-Za-z0-9][A-Za-z0-9\s]*[A-Za-z0-9])_`, at `i`: the index of
      the closing `_`. The star can give back characters only down to the one
      before the end of the run, so a match closes on the `_` just after the
      run. */
  function PairAt(s: string, i: nat): (r: J.Option<nat>)
    requires i < |s|
    ensures r.Some? ==> i + 3 <= r.value < |s| && s[i] == '_' && s[r.value] == '_'
  {
    if s[i] == '_' && i + 1 < |s| && IsAlnum(s[i + 1]) then
      var m := RunEnd(s, i + 1);
      if m < |s| && s[m] == '_' && m >= i + 3 && IsAlnum(s[m - 1]) then J.Some(m) else J.None
    else J.None
  }

  /** The last `q` in `lo..hi` with an alphanumeric at `q` followed by a
      boundary: where a greedy star that must end in `[A-Za-z0-9]\b` stops. */
  function LastAlnumBeforeBoundary(s: string, lo: nat, hi: int): (r: J.Option<nat>)
    requires hi < |s|
    decreases hi + 1 - lo
    ensures r.Some? ==> lo <= r.value <= hi && IsAlnum(s[r.value]) && Boundary(s, r.value + 1)
    ensures r.Some? ==> forall q :: r.value < q <= hi ==> !(IsAlnum(s[q]) && Boundary(s, q + 1))
  {
    if hi < lo then J.None
    else if IsAlnum(s[hi]) && Boundary(s, hi + 1) then J.Some(hi as nat)
    else LastAlnumBeforeBoundary(s, lo, hi - 1)
  }

  /** Pass 2, `\b_([A-Za-z0-9][A-Za-z0-9\s]*[A-Za-z0-9])\b`, at `i`: the index
      of the last character of the group. */
  function LeadingAt(s: string, i: nat): (r: J.Option<nat>)
    requires i < |s|
    ensures r.Some? ==> i + 2 <= r.value < |s| && s[i] == '_'
  {
    if s[i] == '_' && Boundary(s, i) && i + 1 < |s| && IsAlnum(s[i + 1]) then
      LastAlnumBeforeBoundary(s, i + 2, RunEnd(s, i + 1) - 1)
    else J.None
  }

  /** Pass 3, `\b([A-Za-z0-9][A-Za-z0-9\s]*[A-Za-z0-9])_\b`, at `i`: the index
      of the `_`. */
  function TrailingAt(s: string, i: nat): (r: J.Option<nat>)
    requires i < |s|
    ensures r.Some? ==> i + 2 <= r.value < |s| && s[r.value] == '_'
  {
    if IsAlnum(s[i]) && Boundary(s, i) then
      var m := RunEnd(s, i + 1);
      if m < |s| && s[m] == '_' && m >= i + 2 && IsAlnum(s[m - 1]) && Boundary(s, m + 1)
      then J.Some(m) else J.None
    else J.None
  }

  /** Pass 1 from index `i` on: `_x_` becomes `x`. */
  function UnderscorePairFrom(s: string, i: nat): (r: string)
    requires i <= |s|
    decreases |s| - i
    ensures multiset(r) <= multiset(s[i..])
  {
    if i == |s| then ""
    else
      match PairAt(s, i)
      case Some(m) =>
        var rest := UnderscorePairFrom(s, m + 1);
        Piece(s, i, i + 1, m, m + 1, rest);
        s[i + 1..m] + rest
      case None =>
        var rest := UnderscorePairFrom(s, i + 1);
        Piece(s, i, i, i + 1, i + 1, rest);
        s[i..i + 1] + rest
  }

  /** Pass 2 from index `i` on: `_x` becomes `x`. */
  function LeadingUnderscoreFrom(s: string, i: nat): (r: string)
    requires i <= |s|
    decreases |s| - i
    ensures multiset(r) <= multiset(s[i..])
  {
    if i == |s| then ""
    else
      match LeadingAt(s, i)
      case Some(q) =>
        var rest := LeadingUnderscoreFrom(s, q + 1);
        Piece(s, i, i + 1, q + 1, q + 1, rest);
        s[i + 1..q + 1] + rest
      case None =>
        var rest := LeadingUnderscoreFrom(s, i + 1);
        Piece(s, i, i, i + 1, i + 1, rest);
        s[i..i + 1] + rest
  }

  /** Pass 3 from index `i` on: `x_` becomes `x`. */
  function TrailingUnderscoreFrom(s: string, i: nat): (r: string)
    requires i <= |s|
    decreases |s| - i
    ensures multiset(r) <= multiset(s[i..])
  {
    if i == |s| then ""
    else
      match TrailingAt(s, i)
      case Some(m) =>
        var rest := TrailingUnderscoreFrom(s, m + 1);
        Piece(s, i, i, m, m + 1, rest);
        s[i..m] + rest
      case None =>
        var rest := TrailingUnderscoreFrom(s, i + 1);
        Piece(s, i, i, i + 1, i + 1, rest);
        s[i..i + 1] + rest
  }

  /** One underscore pass over a whole string. */
  function FromStart(pass: int, s: string): (r: string)
    requires 1 <= pass <= 3
    ensures multiset(r) <= multiset(s)
  {
    assert s[0..] == s;
    if pass == 1 then UnderscorePairFrom(s, 0)
    else if pass == 2 then LeadingUnderscoreFrom(s, 0)
    else TrailingUnderscoreFrom(s, 0)
  }

  /** `_word_` loses its underscores in the first pass. */
  lemma UnderscorePairExample(w: string)
    requires |w| >= 2 && forall k :: 0 <= k < |w| ==> IsAlnum(w[k])
    ensures FromStart(1, "_" + w + "_") == w
  {
    var s := "_" + w + "_";
    assert forall k :: 1 <= k < |s| - 1 ==> s[k] == w[k - 1];
    RunEndAt(s, 1, |s| - 1);
    assert PairAt(s, 0) == J.Some(|s| - 1);
    assert s[1..|s| - 1] == w;
    assert UnderscorePairFrom(s, |s|) == "";
    assert s[0..] == s;
  }

  /** Text without underscores passes each underscore pass unchanged. */
  lemma {:induction false} UnderscorePassesNoUnderscore(s: string, i: nat)
    requires i <= |s| && '_' !in s
    ensures UnderscorePairFrom(s, i) == s[i..]
    ensures LeadingUnderscoreFrom(s, i) == s[i..]
    ensures TrailingUnderscoreFrom(s, i) == s[i..]
    decreases |s| - i
  {
    if i < |s| {
      assert s[i] != '_';
      assert TrailingAt(s, i).None? by {
        var m := RunEnd(s, i + 1);
        assert m < |s| ==> s[m] != '_';
      }
      UnderscorePassesNoUnderscore(s, i + 1);
      assert s[i..] == s[i..i + 1] + s[i + 1..];
    }
  }

  // ---------------------------------------------------------------------
  // clean_prose
  // ---------------------------------------------------------------------

  /** Which copy of the converter's helpers is meant: the module itself, or
      the copy in its test file (whose `clean_prose` stops after the first
      underscore pass and whose `extract_impact_from_indicator` has no
      `Optional:` check). */
  datatype Variant = Production | TestCopy

  /** `clean_prose`: strip whitespace, drop one pair of enclosing double and
      then single quotes, remove bold markers, then the underscore passes.
      Every step only deletes characters. */
  function CleanProse(v: Variant, text: string): (r: string)
    ensures text == "" ==> r == ""
    ensures multiset(r) <= multiset(text)
    ensures |r| <= |text|
  {
    if text == "" then text
    else
      StripMultiset(text);
      var t := StripBold(Unquote(Strip(text)));
      var r := if v == Production then FromStart(3, FromStart(2, FromStart(1, t)))
               else FromStart(1, t);
      SubMultisetLength(r, text);
      r
  }

  lemma SubMultisetLength(a: string, b: string)
    requires multiset(a) <= multiset(b)
    ensures |a| <= |b|
  {
    var d := multiset(b) - multiset(a);
    assert multiset(b) == multiset(a) + d;
    assert |multiset(b)| == |multiset(a)| + |d|;
    assert |multiset(a)| == |a| && |multiset(b)| == |b|;
  }

  /** Every character `clean_prose` emits was in its input. */
  lemma CleanProseKeepsCharacters(v: Variant, text: string, c: char)
    requires c in CleanProse(v, text)
    ensures c in text
  {
    var r := CleanProse(v, text);
    assert c in multiset(r);
  }

  /** Ordinary prose, with no surrounding whitespace and no quote, star or
      underscore characters, is left unchanged. */
  lemma CleanProsePlainText(v: Variant, text: string)
    requires text == Strip(text)
    requires '"' !in text && '\'' !in text && '*' !in text && '_' !in text
    ensures CleanProse(v, text) == text
  {
    if text != "" {
      assert text[0] != '"' && text[0] != '\'';
      assert Unquote(text) == text;
      BoldFromNoStar(text, 0);
      assert text[0..] == text;
      assert StripBold(Unquote(Strip(text))) == text;
      PassesKeep(text);
    }
  }

  /** The production cleaner and the test copy agree on text without
      underscores. */
  lemma CleanProseVariantsAgree(text: string)
    requires '_' !in text
    ensures CleanProse(Production, text) == CleanProse(TestCopy, text)
  {
    if text != "" {
      var t := StripBold(Unquote(Strip(text)));
      CleanedCharsFrom(text, t);
      PassesKeep(t);
      assert CleanProse(TestCopy, text) == FromStart(1, t) == t;
      assert CleanProse(Production, text) == FromStart(3, FromStart(2, FromStart(1, t))) == t;
    }
  }

  /** Each underscore pass leaves text without underscores as it is. */
  lemma PassesKeep(t: string)
    requires '_' !in t
    ensures FromStart(1, t) == t && FromStart(2, t) == t && FromStart(3, t) == t
  {
    assert t[0..] == t;
    UnderscorePassesNoUnderscore(t, 0);
  }

  lemma CleanedCharsFrom(text: string, t: string)
    requires text != "" && t == StripBold(Unquote(Strip(text)))
    ensures forall c :: c in t ==> c in text
  {
    StripMultiset(text);
    forall c | c in t ensures c in text {
      assert c in multiset(t);
    }
  }

  // ---------------------------------------------------------------------
  // generate_title
  // ---------------------------------------------------------------------

  /** `generate_title`: the cleaned name when it is not blank, else the
      control id in upper case. */
  function GenerateTitle(name: string, controlId: string): (r: string)
    ensures Strip(name) == "" ==> r == Upper(controlId)
    ensures Strip(name) != "" && CleanProse(Production, Strip(name)) != "" ==>
      r == CleanProse(Production, Strip(name))
    ensures Strip(name) != "" && CleanProse(Production, Strip(name)) == "" ==> r == Upper(controlId)
    ensures controlId != "" ==> r != ""
  {
    if name != "" && Strip(name) != "" then
      var cleaned := CleanProse(Production, Strip(name));
      if cleaned != "" then cleaned else Upper(controlId)
    else Upper(controlId)
  }

  /** A plain name becomes the title as it is, without surrounding
      whitespace. */
  lemma GenerateTitlePlainName(name: string, controlId: string)
    requires Strip(name) != ""
    requires '"' !in name && '\'' !in name && '*' !in name && '_' !in name
    ensures GenerateTitle(name, controlId) == Strip(name)
  {
    var t := Strip(name);
    StripMultiset(name);
    StripIdempotent(name);
    CleanProsePlainText(Production, t);
  }

  lemma StripIdempotent(s: string)
    ensures Strip(Strip(s)) == Strip(s)
  {
    var t := Strip(s);
    if t != [] {
      assert !IsSpace(t[|t| - 1]);
      assert RStrip(t) == t;
      assert LStrip(t) == t;
    }
  }
}
