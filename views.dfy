/**
 * The read-only queries of a round: whether the word is fully revealed,
 * the masked word shown to the player, and the list of missed letters.
 */
module Views {

  /** No two positions of `s` hold the same character. */
  ghost predicate Distinct(s: seq<char>) {
    forall i, j :: 0 <= i < j < |s| ==> s[i] != s[j]
  }

  /** `idx` lists, in increasing order, positions of `b` that spell out `a`. */
  ghost predicate Embeds(idx: seq<int>, a: seq<char>, b: seq<char>) {
    && |idx| == |a|
    && (forall k :: 0 <= k < |idx| ==> 0 <= idx[k] < |b| && b[idx[k]] == a[k])
    && (forall k, l :: 0 <= k < l < |idx| ==> idx[k] < idx[l])
  }

  /** `a` is obtained from `b` by deleting some of its elements, keeping the order of the rest. */
  ghost predicate IsSubsequence(a: seq<char>, b: seq<char>) {
    exists idx :: Embeds(idx, a, b)
  }

  /** The character that stands in for a letter not yet guessed. */
  const Blank: char := '_'

  /** `isWordGuessed`: every character of the word has been guessed. */
  function IsWordGuessed(word: string, guessed: seq<char>): (b: bool)
    ensures b <==> forall i :: 0 <= i < |word| ==> word[i] in guessed
  {
    if word == [] then true
    else word[0] in guessed && IsWordGuessed(word[1..], guessed)
  }

  /** One cell of the masked word. */
  function Cell(c: char, guessed: seq<char>): char {
    if c in guessed then c else Blank
  }

  /** The masked word `printCurrentState` shows, one cell per character of the word. */
  function MaskedView(word: string, guessed: seq<char>): (m: seq<char>)
    ensures |m| == |word|
    ensures forall i :: 0 <= i < |word| ==> m[i] == if word[i] in guessed then word[i] else Blank
  {
    if word == [] then [] else [Cell(word[0], guessed)] + MaskedView(word[1..], guessed)
  }

  /** The letters `printMissedLetters` lists: the guesses that do not occur in the word, in guess order. */
  function MissedLetters(word: string, guessed: seq<char>): (r: seq<char>)
    ensures |r| <= |guessed|
    ensures forall c :: c in r <==> c in guessed && c !in word
  {
    if guessed == [] then []
    else (if guessed[0] in word then [] else [guessed[0]]) + MissedLetters(word, guessed[1..])
  }

  /** An embedding of `a` into `b[1..]`, shifted by one, embeds `a` into `b`; with `b[0]` in front it embeds `[b[0]] + a`. */
  lemma EmbedsShift(idx: seq<int>, a: seq<char>, b: seq<char>)
    requires b != [] && Embeds(idx, a, b[1..])
    ensures var shifted := seq(|idx|, k requires 0 <= k < |idx| => idx[k] + 1);
      Embeds(shifted, a, b) && Embeds([0] + shifted, [b[0]] + a, b)
  {
  }

  /** The missed letters keep the guess order: they are a subsequence of the guesses. */
  lemma {:induction false} MissedLettersIsSubsequence(word: string, guessed: seq<char>)
    ensures IsSubsequence(MissedLetters(word, guessed), guessed)
  {
    var r := MissedLetters(word, guessed);
    if guessed == [] {
      assert Embeds([], r, guessed);
    } else {
      var rest := MissedLetters(word, guessed[1..]);
      MissedLettersIsSubsequence(word, guessed[1..]);
      var idx :| Embeds(idx, rest, guessed[1..]);
      EmbedsShift(idx, rest, guessed);
      var shifted := seq(|idx|, k requires 0 <= k < |idx| => idx[k] + 1);
      if guessed[0] in word {
        assert Embeds(shifted, r, guessed);
      } else {
        assert Embeds([0] + shifted, r, guessed);
      }
    }
  }

  /** A guess added at the end shows up at the end of the missed letters exactly when it misses. */
  lemma {:induction false} MissedLettersAppend(word: string, guessed: seq<char>, c: char)
    ensures MissedLetters(word, guessed + [c]) == MissedLetters(word, guessed) + (if c in word then [] else [c])
  {
    if guessed == [] {
      assert guessed + [c] == [c];
    } else {
      assert (guessed + [c])[1..] == guessed[1..] + [c];
      MissedLettersAppend(word, guessed[1..], c);
    }
  }

  /** Guesses none of which occurs in the word are all missed letters. */
  lemma {:induction false} MissedLettersOfMisses(word: string, guessed: seq<char>)
    requires forall i :: 0 <= i < |guessed| ==> guessed[i] !in word
    ensures MissedLetters(word, guessed) == guessed
  {
    if guessed != [] {
      MissedLettersOfMisses(word, guessed[1..]);
      assert [guessed[0]] + guessed[1..] == guessed;
    }
  }

  /** Guesses that are all different give missed letters that are all different. */
  lemma {:induction false} MissedLettersDistinct(word: string, guessed: seq<char>)
    requires Distinct(guessed)
    ensures Distinct(MissedLetters(word, guessed))
  {
    if guessed != [] {
      MissedLettersDistinct(word, guessed[1..]);
      assert guessed[0] !in guessed[1..];
    }
  }

  /** With no blank in the word, the mask has no blank left exactly when the word is guessed. */
  lemma MaskedViewShowsWin(word: string, guessed: seq<char>)
    requires Blank !in word
    ensures Blank !in MaskedView(word, guessed) <==> IsWordGuessed(word, guessed)
  {
  }

  /** A new guess reveals exactly the cells holding that letter and leaves every other cell as it was. */
  lemma MaskedViewAfterGuess(word: string, guessed: seq<char>, c: char)
    ensures var before, after := MaskedView(word, guessed), MaskedView(word, guessed + [c]);
      forall i :: 0 <= i < |word| ==> after[i] == if word[i] == c then c else before[i]
  {
  }
}
