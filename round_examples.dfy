/** The two worked examples of a round on the word "cat" with the budget of eight. */
module RoundExamples {
  import opened Letters
  import opened Views
  import opened Scoring
  import opened Round
  import opened RoundProps

  /** Guessing c, a, t in turn wins "cat", with or without the hint shown. */
  lemma CatIsWon(showHint: bool)
    ensures Run("cat", MaxWrong, Start(showHint), "cat").outcome == Won
  {
    LowercaseGuesses("cat");
    assert "cat"[..3] == "cat";
    assert NewLetters([], "cat") == "cat";
    CoveredWordIsWon("cat", MaxWrong, showHint, "cat", 3);
  }

  /** One correct letter and then eight letters not in "cat" lose it, with or without the hint shown. */
  lemma CatIsLost(showHint: bool)
    ensures var e := Run("cat", MaxWrong, Start(showHint), "cbdefghij"); e.outcome == Lost && e.final.wrongGuesses == MaxWrong
  {
    var typed := "cbdefghij";
    assert typed[..9] == typed;
    CatTyped();
    CatNotCovered();
    CatMisses();
    UncoveredWordIsLost("cat", MaxWrong, showHint, typed, 9);
  }

  /** Every character of "cbdefghij" is a lower-case letter. */
  lemma CatAllLower()
    ensures forall i :: 0 <= i < |"cbdefghij"| ==> IsLower("cbdefghij"[i])
  {
  }

  /** "cbdefghij" holds only lower-case letters, so each is taken as typed. */
  lemma CatLowercase()
    ensures LetterGuesses("cbdefghij") == "cbdefghij"
  {
    CatAllLower();
    LowercaseGuesses("cbdefghij");
  }

  /** No letter of "cbdefghij" appears twice. */
  lemma CatDistinct()
    ensures Distinct("cbdefghij")
  {
  }

  /** "cbdefghij" is tried as typed, each letter once. */
  lemma CatTyped()
    ensures LetterGuesses("cbdefghij") == "cbdefghij" && NewLetters([], "cbdefghij") == "cbdefghij"
  {
    CatLowercase();
    CatDistinct();
    NewLettersOfDistinct([], "cbdefghij");
  }

  /** "cbdefghij" has no 'a', so it does not cover "cat". */
  lemma CatNotCovered()
    ensures !IsWordGuessed("cat", "cbdefghij")
  {
    assert "cat"[1] !in "cbdefghij";
  }

  /** The hit 'c' adds nothing to the missed letters of "cat". */
  lemma CatHitNotMissed()
    ensures MissedLetters("cat", "cbdefghij") == MissedLetters("cat", "bdefghij")
  {
  }

  /** The letters after the hit all miss "cat". */
  lemma CatMissedLetters()
    ensures MissedLetters("cat", "cbdefghij") == "bdefghij"
  {
    MissedLettersOfMisses("cat", "bdefghij");
    CatHitNotMissed();
  }

  /** Eight of the letters of "cbdefghij" miss "cat". */
  lemma CatMisses()
    ensures |MissedLetters("cat", "cbdefghij")| == 8
  {
    CatMissedLetters();
    assert |"bdefghij"| == 8;
  }
}
