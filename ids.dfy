/** Turning FRMR identifiers (`KSI-CNA-RNT`, `FRR-ADS-01`) into OSCAL control
    ids (`cna-rnt`, `ads-01`). */
module ControlIds {
  import opened Text

  /** The identifier with `prefix` removed when, and only when, it starts
      with it. */
  function Remainder(rawId: string, prefix: string): (r: string)
    ensures StartsWith(rawId, prefix) ==> rawId == prefix + r
    ensures !StartsWith(rawId, prefix) ==> r == rawId
  {
    if StartsWith(rawId, prefix) then rawId[|prefix|..] else rawId
  }

  /** `normalize_control_id`: split the remainder on `-`, lower-case and
      re-join the pieces; with a single piece, lower-case it and turn `_`
      into `-`. */
  function NormalizeControlId(rawId: string, prefix: string): (r: string)
    ensures NoUpper(r)
    ensures |r| == |Remainder(rawId, prefix)|
  {
    var rem := Remainder(rawId, prefix);
    var parts := Split(rem, '-');
    if |parts| >= 2 then
      JoinLowerPieces(rem, '-');
      Join(MapLower(parts), "-")
    else
      Replace(Lower(rem), '_', '-')
  }

  /** Re-joining the lower-cased pieces of a split is lower-casing. */
  lemma JoinLowerPieces(s: string, c: char)
    requires !IsUpper(c)
    ensures Join(MapLower(Split(s, c)), [c]) == Lower(s)
  {
    JoinMapLower(Split(s, c), [c]);
    JoinSplit(s, c);
  }

  /** What `normalize_control_id` computes, in one line per case: the
      lower-cased remainder when it holds a `-`, otherwise the lower-cased
      remainder with `_` turned into `-`. */
  lemma NormalizeControlIdCases(rawId: string, prefix: string)
    ensures var rem := Remainder(rawId, prefix);
      NormalizeControlId(rawId, prefix) ==
        if '-' in rem then Lower(rem) else Replace(Lower(rem), '_', '-')
  {
    var rem := Remainder(rawId, prefix);
    SplitHasTwoPieces(rem, '-');
    if '-' in rem {
      JoinLowerPieces(rem, '-');
    }
  }

  /** Normalising an id that is already normalised changes nothing, for any
      prefix that is empty or holds an upper-case letter (such as `KSI-`). */
  lemma NormalizeControlIdIdempotent(rawId: string, prefix: string)
    requires prefix == "" || !NoUpper(prefix)
    ensures var once := NormalizeControlId(rawId, prefix);
      NormalizeControlId(once, prefix) == once
  {
    var once := NormalizeControlId(rawId, prefix);
    var rem := Remainder(rawId, prefix);
    NormalizeControlIdCases(rawId, prefix);
    NormalizeControlIdCases(once, prefix);
    PrefixOfNoUpper(once, prefix);
    assert Remainder(once, prefix) == once;
    LowerOfNoUpper(once);
    if '-' !in rem {
      assert '_' !in once by {
        forall i | 0 <= i < |once| ensures once[i] != '_' { }
      }
      assert '-' !in once ==> Replace(once, '_', '-') == once;
    }
  }

  lemma PrefixOfNoUpper(s: string, p: string)
    ensures NoUpper(s) && StartsWith(s, p) ==> NoUpper(p)
  {
    if NoUpper(s) && StartsWith(s, p) {
      forall i | 0 <= i < |p| ensures !IsUpper(p[i]) {
        assert s[i] == p[i];
      }
    }
  }

  /** `s.split(c)[-1]`. */
  function LastPiece(s: string, c: char): string {
    var parts := Split(s, c);
    parts[|parts| - 1]
  }

  /** `normalize_frr_control_id`: like `normalize_control_id` with prefix
      `FRR-`, except that a remainder without `-` becomes the standard's
      abbreviation and the id's last `-` piece, both lower-cased. */
  function NormalizeFrrControlId(frrId: string, standard: string): (r: string)
    ensures NoUpper(r)
  {
    var rem := Remainder(frrId, "FRR-");
    var parts := Split(rem, '-');
    if |parts| >= 2 then
      JoinLowerPieces(rem, '-');
      Join(MapLower(parts), "-")
    else
      Lower(standard) + "-" + Lower(LastPiece(frrId, '-'))
  }

  lemma {:induction false} SplitAfterFirst(x: string, c: char, y: string)
    requires c !in x
    ensures Split(x + [c] + y, c) == [x] + Split(y, c)
  {
    if x == [] {
      assert x + [c] + y == [c] + y;
      assert ([c] + y)[1..] == y;
    } else {
      SplitAfterFirst(x[1..], c, y);
      var s := x + [c] + y;
      assert s[0] == x[0] && s[0] != c;
      assert s[1..] == x[1..] + [c] + y;
      var rest := Split(s[1..], c);
      assert rest == [x[1..]] + Split(y, c);
      assert Split(s, c) == [[x[0]] + rest[0]] + rest[1..];
      assert [x[0]] + x[1..] == x;
    }
  }

  /** The fallback of `normalize_frr_control_id` is taken exactly when the
      remainder has no `-`, and it joins the lower-cased standard with the
      lower-cased remainder; otherwise the result is the lower-cased
      remainder, as `normalize_control_id` with prefix `FRR-` gives. */
  lemma NormalizeFrrControlIdCases(frrId: string, standard: string)
    ensures var rem := Remainder(frrId, "FRR-");
      NormalizeFrrControlId(frrId, standard) ==
        if '-' in rem then Lower(rem) else Lower(standard) + "-" + Lower(rem)
    ensures var rem := Remainder(frrId, "FRR-");
      '-' in rem ==> NormalizeFrrControlId(frrId, standard) == NormalizeControlId(frrId, "FRR-")
  {
    var rem := Remainder(frrId, "FRR-");
    SplitHasTwoPieces(rem, '-');
    NormalizeControlIdCases(frrId, "FRR-");
    if '-' in rem {
      JoinLowerPieces(rem, '-');
    } else {
      SplitLastWithout(rem, '-');
      if StartsWith(frrId, "FRR-") {
        assert frrId == "FRR" + ['-'] + rem;
        SplitAfterFirst("FRR", '-', rem);
      } else {
        SplitLastWithout(frrId, '-');
      }
    }
  }

  /** The examples the test file checks for `normalize_control_id`. */
  lemma NormalizeKsiExamples()
    ensures NormalizeControlId("KSI-CNA-RNT", "KSI-") == "cna-rnt"
    ensures NormalizeControlId("KSI-SCR-MIT", "KSI-") == "scr-mit"
    ensures NormalizeControlId("KSI-CNA-01", "KSI-") == "cna-01"
  {
    ExampleCnaRnt();
    ExampleScrMit();
    ExampleCna01();
  }

  lemma ExampleCnaRnt()
    ensures NormalizeControlId("KSI-CNA-RNT", "KSI-") == "cna-rnt"
  {
    DashExample("KSI-CNA-RNT", "KSI-", "CNA-RNT", "cna-rnt");
  }

  lemma ExampleScrMit()
    ensures NormalizeControlId("KSI-SCR-MIT", "KSI-") == "scr-mit"
  {
    DashExample("KSI-SCR-MIT", "KSI-", "SCR-MIT", "scr-mit");
  }

  lemma ExampleCna01()
    ensures NormalizeControlId("KSI-CNA-01", "KSI-") == "cna-01"
  {
    DashExample("KSI-CNA-01", "KSI-", "CNA-01", "cna-01");
  }

  lemma DashExample(rawId: string, prefix: string, rem: string, expected: string)
    requires rawId == prefix + rem && '-' in rem && Lower(rem) == expected
    ensures NormalizeControlId(rawId, prefix) == expected
  {
    assert StartsWith(rawId, prefix) && rawId[|prefix|..] == rem;
    NormalizeControlIdCases(rawId, prefix);
  }

  /** The examples the docstring of `normalize_frr_control_id` gives, and its
      fallback on an id with a single piece after `FRR-`. */
  lemma NormalizeFrrExamples()
    ensures NormalizeFrrControlId("FRR-ADS-01", "ADS") == "ads-01"
    ensures NormalizeFrrControlId("FRR-SCN-TR-01", "SCN") == "scn-tr-01"
    ensures NormalizeFrrControlId("FRR-PBI", "ADS") == "ads-pbi"
  {
    ExampleAds01();
    ExampleScnTr01();
    ExampleFallbackPbi();
  }

  lemma ExampleAds01()
    ensures NormalizeFrrControlId("FRR-ADS-01", "ADS") == "ads-01"
  {
    FrrDashExample("FRR-ADS-01", "ADS-01", "ADS", "ads-01");
  }

  lemma ExampleScnTr01()
    ensures NormalizeFrrControlId("FRR-SCN-TR-01", "SCN") == "scn-tr-01"
  {
    FrrDashExample("FRR-SCN-TR-01", "SCN-TR-01", "SCN", "scn-tr-01");
  }

  lemma ExampleFallbackPbi()
    ensures NormalizeFrrControlId("FRR-PBI", "ADS") == "ads-pbi"
  {
    FrrFallbackExample("FRR-PBI", "PBI", "ADS", "ads", "pbi", "ads-pbi");
  }

  lemma FrrDashExample(id: string, rem: string, standard: string, expected: string)
    requires id == "FRR-" + rem && '-' in rem && Lower(rem) == expected
    ensures NormalizeFrrControlId(id, standard) == expected
  {
    assert StartsWith(id, "FRR-") && id[4..] == rem;
    NormalizeFrrControlIdCases(id, standard);
  }

  lemma FrrFallbackExample(id: string, rem: string, standard: string, lowStandard: string, lowRem: string,
                           expected: string)
    requires id == "FRR-" + rem && '-' !in rem
    requires Lower(standard) == lowStandard && Lower(rem) == lowRem && expected == lowStandard + "-" + lowRem
    ensures NormalizeFrrControlId(id, standard) == expected
  {
    assert StartsWith(id, "FRR-") && id[4..] == rem;
    NormalizeFrrControlIdCases(id, standard);
  }
}
