/** Properties of whole rounds, stated over the specification `Round.Run`. */
module RoundProps {
  import opened Letters
  import opened Views
  import opened Scoring
  import opened Round

  /** The letters the player tries, in order: each input lowercased, keeping only letters. */
  function LetterGuesses(inputs: seq<char>): seq<char>
    decreases |inputs|
  {
    if inputs == [] then []
    else (if IsAlpha(ToLower(inputs[0])) then [ToLower(inputs[0])] else []) + LetterGuesses(inputs[1..])
  }

  /** The inputs with every character dropped that is neither a letter nor the hint request. */
  function DropNonLetters(inputs: seq<char>): seq<char>
    decreases |inputs|
  {
    if inputs == [] then []
    else
      var g := ToLower(inputs[0]);
      (if IsAlpha(g) || g == HintRequest then [inputs[0]] else []) + DropNonLetters(inputs[1..])
  }

  /** A won new letter that misses can only complete the empty word. */
  lemma MissNeverWins(word: string, s: State, input: char)
    requires word != [] && Open(word, s)
    requires Classify(word, s.guessed, ToLower(input)).Miss?
    ensures !IsWordGuessed(word, Next(word, s, input).guessed)
  {
  }

  /**
   * How a round run from an open state ends: a win has the word fully
   * guessed and, for a non-empty word, the budget not used up; a loss has
   * the budget used up and, for a positive budget, the word not guessed;
   * an unfinished round is still open. The invariant holds at the end and
   * the guesses only ever grow.
   */
  lemma {:induction false} RunEnds(word: string, maxWrong: int, s: State, inputs: seq<char>)
    requires Inv(word, maxWrong, s) && Open(word, s)
    ensures var e := Run(word, maxWrong, s, inputs);
      && Inv(word, maxWrong, e.final)
      && s.guessed <= e.final.guessed
      && (e.outcome.Won? ==> IsWordGuessed(word, e.final.guessed) && e.final.guessed != []
                              && (word != [] ==> e.final.wrongGuesses < maxWrong))
      && (e.outcome.Lost? ==> e.final.wrongGuesses >= maxWrong
                              && (0 <= maxWrong ==> e.final.wrongGuesses == maxWrong)
                              && (0 < maxWrong ==> !IsWordGuessed(word, e.final.guessed)))
      && (e.outcome.Unfinished? ==> e.final.wrongGuesses < maxWrong && Open(word, e.final))
    decreases |inputs|
  {
    if s.wrongGuesses < maxWrong && inputs != [] {
      var c := inputs[0];
      NextKeepsInv(word, maxWrong, s, c);
      if WinsOn(word, s, c) {
        if word != [] && Classify(word, s.guessed, ToLower(c)).Miss? {
          MissNeverWins(word, s, c);
        }
      } else {
        NextKeepsOpen(word, s, c);
        RunEnds(word, maxWrong, Next(word, s, c), inputs[1..]);
      }
    }
  }

  /** From the start of a round: the two ends of `RunEnds`, never both. */
  lemma RoundEnds(word: string, maxWrong: int, showHint: bool, inputs: seq<char>)
    ensures var e := Run(word, maxWrong, Start(showHint), inputs);
      && Inv(word, maxWrong, e.final)
      && (e.outcome.Won? ==> IsWordGuessed(word, e.final.guessed) && (word != [] ==> e.final.wrongGuesses < maxWrong))
      && (e.outcome.Lost? ==> (0 <= maxWrong ==> e.final.wrongGuesses == maxWrong)
                              && (0 < maxWrong ==> !IsWordGuessed(word, e.final.guessed)))
  {
    StartInv(word, maxWrong, showHint);
    RunEnds(word, maxWrong, Start(showHint), inputs);
  }

  /**
   * The letters of `xs` not in `seen`, each kept at its first occurrence:
   * the letters a round records when `seen` have been guessed already.
   */
  function NewLetters(seen: seq<char>, xs: seq<char>): (r: seq<char>)
    ensures forall c :: c in r <==> c in xs && c !in seen
    ensures Distinct(r)
    decreases |xs|
  {
    if xs == [] then []
    else if xs[0] in seen then NewLetters(seen, xs[1..])
    else
      var rest := NewLetters(seen + [xs[0]], xs[1..]);
      assert xs[0] !in rest;
      [xs[0]] + rest
  }

  /**
   * One input moves its letter, if new, from the letters still to be recorded
   * to the recorded ones, and its miss, if any, from the misses still to come
   * to the wrong-guess count.
   */
  lemma NewLettersStep(word: string, s: State, inputs: seq<char>)
    requires inputs != []
    ensures var t, later := Next(word, s, inputs[0]), LetterGuesses(inputs[1..]);
      && t.guessed + NewLetters(t.guessed, later) == s.guessed + NewLetters(s.guessed, LetterGuesses(inputs))
      && t.wrongGuesses + |MissedLetters(word, NewLetters(t.guessed, later))|
         == s.wrongGuesses + |MissedLetters(word, NewLetters(s.guessed, LetterGuesses(inputs)))|
  {
    var g := ToLower(inputs[0]);
    var later := LetterGuesses(inputs[1..]);
    if IsAlpha(g) {
      assert LetterGuesses(inputs) == [g] + later;
      assert ([g] + later)[1..] == later;
      if g !in s.guessed {
        var recorded := NewLetters(s.guessed + [g], later);
        assert NewLetters(s.guessed, [g] + later) == [g] + recorded;
        assert ([g] + recorded)[1..] == recorded;
        assert (s.guessed + [g]) + recorded == s.guessed + ([g] + recorded);
      }
    } else {
      assert LetterGuesses(inputs) == later;
    }
  }

  /** One input keeps every character of the word among the guesses made or still to come. */
  lemma CoverStep(word: string, s: State, inputs: seq<char>)
    requires inputs != []
    requires IsWordGuessed(word, s.guessed + LetterGuesses(inputs))
    ensures IsWordGuessed(word, Next(word, s, inputs[0]).guessed + LetterGuesses(inputs[1..]))
  {
  }

  /** One input keeps some character of the word outside the guesses made and still to come. */
  lemma UncoverStep(word: string, s: State, inputs: seq<char>)
    requires inputs != []
    requires !IsWordGuessed(word, s.guessed + LetterGuesses(inputs))
    ensures !IsWordGuessed(word, Next(word, s, inputs[0]).guessed + LetterGuesses(inputs[1..]))
    ensures !IsWordGuessed(word, Next(word, s, inputs[0]).guessed)
  {
    var g := ToLower(inputs[0]);
    var t, later := Next(word, s, inputs[0]), LetterGuesses(inputs[1..]);
    var i :| 0 <= i < |word| && word[i] !in s.guessed + LetterGuesses(inputs);
    if IsAlpha(g) {
      assert LetterGuesses(inputs) == [g] + later;
    } else {
      assert LetterGuesses(inputs) == later;
    }
    assert word[i] !in t.guessed + later;
  }

  /** Once a round has returned, further input changes nothing. */
  lemma {:induction false} RunPrefix(word: string, maxWrong: int, s: State, inputs: seq<char>, more: seq<char>)
    requires !Run(word, maxWrong, s, inputs).outcome.Unfinished?
    ensures Run(word, maxWrong, s, inputs + more) == Run(word, maxWrong, s, inputs)
    decreases |inputs|
  {
    if s.wrongGuesses < maxWrong {
      assert (inputs + more)[0] == inputs[0];
      assert (inputs + more)[1..] == inputs[1..] + more;
      if !WinsOn(word, s, inputs[0]) {
        RunPrefix(word, maxWrong, Next(word, s, inputs[0]), inputs[1..], more);
      }
    }
  }

  /**
   * Guesses are always lowercased, so a word holding any character that is
   * not a lowercase letter (a capital, a digit, a space) can never be won.
   */
  lemma UnguessableWordIsNeverWon(word: string, maxWrong: int, showHint: bool, inputs: seq<char>, i: int)
    requires 0 <= i < |word| && !IsLower(word[i])
    ensures !Run(word, maxWrong, Start(showHint), inputs).outcome.Won?
  {
    var e := Run(word, maxWrong, Start(showHint), inputs);
    RoundEnds(word, maxWrong, showHint, inputs);
    assert word[i] !in e.final.guessed;
    assert !IsWordGuessed(word, e.final.guessed);
  }

  lemma {:induction false} CoveredWordIsWonFrom(word: string, maxWrong: int, s: State, inputs: seq<char>)
    requires word != []
    requires Inv(word, maxWrong, s) && !IsWordGuessed(word, s.guessed)
    requires IsWordGuessed(word, s.guessed + LetterGuesses(inputs))
    requires s.wrongGuesses + |MissedLetters(word, NewLetters(s.guessed, LetterGuesses(inputs)))| < maxWrong
    ensures Run(word, maxWrong, s, inputs).outcome == Won
    decreases |inputs|
  {
    if inputs == [] {
      assert false;
    }
    if !WinsOn(word, s, inputs[0]) {
      CoveredStep(word, maxWrong, s, inputs);
      CoveredWordIsWonFrom(word, maxWrong, Next(word, s, inputs[0]), inputs[1..]);
    }
  }

  /** An input that does not win keeps the conditions of `CoveredWordIsWonFrom`. */
  lemma CoveredStep(word: string, maxWrong: int, s: State, inputs: seq<char>)
    requires inputs != [] && !WinsOn(word, s, inputs[0])
    requires Inv(word, maxWrong, s) && !IsWordGuessed(word, s.guessed)
    requires IsWordGuessed(word, s.guessed + LetterGuesses(inputs))
    requires s.wrongGuesses + |MissedLetters(word, NewLetters(s.guessed, LetterGuesses(inputs)))| < maxWrong
    ensures var t := Next(word, s, inputs[0]);
      && Inv(word, maxWrong, t) && !IsWordGuessed(word, t.guessed)
      && IsWordGuessed(word, t.guessed + LetterGuesses(inputs[1..]))
      && t.wrongGuesses + |MissedLetters(word, NewLetters(t.guessed, LetterGuesses(inputs[1..])))| < maxWrong
  {
    NextKeepsInv(word, maxWrong, s, inputs[0]);
    CoverStep(word, s, inputs);
    NewLettersStep(word, s, inputs);
  }

  /**
   * A round is won once the letters typed cover the (non-empty) word while
   * the distinct misses among them stay below the budget; whatever is typed
   * afterwards does not matter. By `PlayGame` it adds exactly one win.
   */
  lemma CoveredWordIsWon(word: string, maxWrong: int, showHint: bool, inputs: seq<char>, n: int)
    requires word != [] && 0 <= n <= |inputs|
    requires IsWordGuessed(word, LetterGuesses(inputs[..n]))
    requires |MissedLetters(word, NewLetters([], LetterGuesses(inputs[..n])))| < maxWrong
    ensures Run(word, maxWrong, Start(showHint), inputs).outcome == Won
  {
    StartInv(word, maxWrong, showHint);
    assert [] + LetterGuesses(inputs[..n]) == LetterGuesses(inputs[..n]);
    CoveredWordIsWonFrom(word, maxWrong, Start(showHint), inputs[..n]);
    RunPrefix(word, maxWrong, Start(showHint), inputs[..n], inputs[n..]);
    assert inputs[..n] + inputs[n..] == inputs;
  }

  lemma {:induction false} UncoveredWordIsLostFrom(word: string, maxWrong: int, s: State, inputs: seq<char>)
    requires 0 <= maxWrong
    requires Inv(word, maxWrong, s)
    requires !IsWordGuessed(word, s.guessed + LetterGuesses(inputs))
    requires s.wrongGuesses + |MissedLetters(word, NewLetters(s.guessed, LetterGuesses(inputs)))| >= maxWrong
    ensures var e := Run(word, maxWrong, s, inputs); e.outcome == Lost && e.final.wrongGuesses == maxWrong
    decreases |inputs|
  {
    if s.wrongGuesses < maxWrong {
      if inputs == [] {
        assert false;
      }
      NextKeepsInv(word, maxWrong, s, inputs[0]);
      UncoverStep(word, s, inputs);
      NewLettersStep(word, s, inputs);
      UncoveredWordIsLostFrom(word, maxWrong, Next(word, s, inputs[0]), inputs[1..]);
    }
  }

  /**
   * A round is lost, with the budget exactly used up, once the letters typed
   * hold `maxWrong` distinct misses while not covering the word; whatever is
   * typed afterwards does not matter. By `PlayGame` it adds exactly one loss.
   */
  lemma UncoveredWordIsLost(word: string, maxWrong: int, showHint: bool, inputs: seq<char>, n: int)
    requires 0 <= maxWrong && 0 <= n <= |inputs|
    requires !IsWordGuessed(word, LetterGuesses(inputs[..n]))
    requires |MissedLetters(word, NewLetters([], LetterGuesses(inputs[..n])))| >= maxWrong
    ensures var e := Run(word, maxWrong, Start(showHint), inputs); e.outcome == Lost && e.final.wrongGuesses == maxWrong
  {
    StartInv(word, maxWrong, showHint);
    assert [] + LetterGuesses(inputs[..n]) == LetterGuesses(inputs[..n]);
    UncoveredWordIsLostFrom(word, maxWrong, Start(showHint), inputs[..n]);
    RunPrefix(word, maxWrong, Start(showHint), inputs[..n], inputs[n..]);
    assert inputs[..n] + inputs[n..] == inputs;
  }

  /** Characters that are neither letters nor the hint request have no effect on the round. */
  lemma {:induction false} NonLettersIgnored(word: string, maxWrong: int, s: State, inputs: seq<char>)
    ensures Run(word, maxWrong, s, inputs) == Run(word, maxWrong, s, DropNonLetters(inputs))
    decreases |inputs|
  {
    if s.wrongGuesses < maxWrong && inputs != [] {
      var c, rest := inputs[0], inputs[1..];
      var g := ToLower(c);
      if IsAlpha(g) || g == HintRequest {
        assert DropNonLetters(inputs) == [c] + DropNonLetters(rest);
        assert ([c] + DropNonLetters(rest))[1..] == DropNonLetters(rest);
        NonLettersIgnored(word, maxWrong, Next(word, s, c), rest);
      } else {
        assert Next(word, s, c) == s && !WinsOn(word, s, c);
        assert DropNonLetters(inputs) == DropNonLetters(rest);
        NonLettersIgnored(word, maxWrong, s, rest);
      }
    }
  }

  /** Typing a letter that was already guessed is the same as not typing it. */
  lemma RepeatedLetterIgnored(word: string, maxWrong: int, s: State, c: char, rest: seq<char>)
    requires s.wrongGuesses < maxWrong
    requires IsAlpha(c) && ToLower(c) in s.guessed
    ensures Run(word, maxWrong, s, [c] + rest) == Run(word, maxWrong, s, rest)
  {
  }

  /** Asking for the hint only turns the hint on. */
  lemma HintOnlyShowsHint(word: string, maxWrong: int, s: State, rest: seq<char>)
    requires s.wrongGuesses < maxWrong
    ensures Run(word, maxWrong, s, [HintRequest] + rest) == Run(word, maxWrong, s.(showHint := true), rest)
  {
  }

  /** Lowercase letters are tried exactly as typed. */
  lemma {:induction false} LowercaseGuesses(inputs: seq<char>)
    requires forall i :: 0 <= i < |inputs| ==> IsLower(inputs[i])
    ensures LetterGuesses(inputs) == inputs
    decreases |inputs|
  {
    if inputs != [] {
      LowercaseGuesses(inputs[1..]);
      assert [inputs[0]] + inputs[1..] == inputs;
    }
  }

  /** Distinct letters none of which was seen before are all recorded, in order. */
  lemma {:induction false} NewLettersOfDistinct(seen: seq<char>, xs: seq<char>)
    requires Distinct(xs) && forall i :: 0 <= i < |xs| ==> xs[i] !in seen
    ensures NewLetters(seen, xs) == xs
    decreases |xs|
  {
    if xs != [] {
      NewLettersOfDistinct(seen + [xs[0]], xs[1..]);
      assert [xs[0]] + xs[1..] == xs;
    }
  }

}
