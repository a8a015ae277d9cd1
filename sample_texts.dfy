/** The texts of the parsing tests' sample document: its indicator names
    and statements, the properties of them the proofs about the sample rely
    on, and the check that the test's own texts have them. */
module SampleTexts {
  import opened Text

  /** The indicator names and statements of the sample. */
  datatype Texts = Texts(rntName: string, rnt: string, masName: string, mas: string,
                         mitName: string, mit: string, prrName: string, prrLow: string, prr: string)

  /** The statements of the test's indicators; the two of the level-
      dependent indicator are written in pieces short enough to be checked
      character by character. */
  const RntText := "Configure all machine-based resources to limit inbound and outbound network traffic."
  const MasText := "Design systems to minimize attack surface."
  const MitText := "Persistently identify, review, and mitigate potential supply chain risks."
  const PrrLowText := "**" + "Optional:" + "** Persistently review plans..."
  const PrrText := "Persistently r" + "eview plans, p" + "rocedures, and" + " the state of " + "information re" + "sources..."

  /** The test's texts. */
  const TestTexts := Texts("Restrict Network Traffic", RntText, "Minimize the Attack Surface", MasText,
                           "Mitigating Supply Chain Risk", MitText, "Preventing Residual Risk", PrrLowText, PrrText)

  /** What the proofs need of the texts: non-empty statements, the low
      statement of the level-dependent indicator marked optional, and its
      moderate statement free of the marker's capital O and asterisks. */
  predicate Fits(t: Texts) {
    && t.rnt != "" && t.mas != "" && t.mit != "" && t.prr != ""
    && Contains(t.prrLow, "Optional:")
    && 'O' !in t.prr && '*' !in t.prr
  }

  // ---------------------------------------------------------------------
  // The test's texts
  // ---------------------------------------------------------------------

  lemma TestLowMarked()
    ensures Contains(PrrLowText, "Optional:")
  {
    var a, m, b := "**", "Optional:", "** Persistently review plans...";
    assert (a + m + b)[|a|..|a| + |m|] == m;
    ContainsAt(a + m + b, m, |a|);
  }

  /** The moderate statement has no capital O. */
  lemma TestModerateNoCapitalO()
    ensures 'O' !in PrrText
  {
    assert 'O' !in "Persistently r";
    assert 'O' !in "eview plans, p";
    assert 'O' !in "rocedures, and";
    assert 'O' !in " the state of ";
    assert 'O' !in "information re";
    assert 'O' !in "sources...";
  }

  /** The moderate statement has no asterisk. */
  lemma TestModerateNoStar()
    ensures '*' !in PrrText
  {
    assert '*' !in "Persistently r";
    assert '*' !in "eview plans, p";
    assert '*' !in "rocedures, and";
    assert '*' !in " the state of ";
    assert '*' !in "information re";
    assert '*' !in "sources...";
  }

  lemma TestTextsFit()
    ensures Fits(TestTexts)
  {
    assert |RntText| > 0 && |MasText| > 0 && |MitText| > 0 && |PrrText| > 0;
    TestLowMarked();
    TestModerateNoCapitalO();
    TestModerateNoStar();
  }
}
