/**
 * One round of the game: the guess loop of `playGame`, first as a
 * specification over values (`Next`, `Run`), then as the object the loop
 * updates in place (`Round`) and the driver that feeds it the player's input
 * (`PlayGame`).
 */
module Round {
  import opened Letters
  import opened Views
  import opened Scoring

  /** The number of gallows pictures in `hangmanStates`. */
  const HangmanStageCount: nat := 9

  /** The wrong-guess budget every caller passes: one less than the number of pictures. */
  const MaxWrong: int := HangmanStageCount - 1

  /** The input that asks for the hint. */
  const HintRequest: char := '!'

  /** The variables of the guess loop. */
  datatype State = State(guessed: seq<char>, wrongGuesses: int, showHint: bool)

  function Start(showHint: bool): State {
    State([], 0, showHint)
  }

  /** What the loop makes of one (already lowercased) guess. */
  datatype GuessKind = HintRequested | NotALetter | AlreadyGuessed | Hit | Miss

  /**
   * The checks of the loop body in order. A guess is recorded exactly when it
   * is a letter not guessed before, and it counts as wrong exactly when it is
   * also absent from the word.
   */
  function Classify(word: string, guessed: seq<char>, guess: char): (k: GuessKind)
    ensures k.HintRequested? <==> guess == HintRequest
    ensures IsNewLetter(k) <==> IsAlpha(guess) && guess !in guessed
    ensures k.Miss? <==> IsAlpha(guess) && guess !in guessed && guess !in word
  {
    if guess == HintRequest then HintRequested
    else if !IsAlpha(guess) then NotALetter
    else if guess in guessed then AlreadyGuessed
    else if guess in word then Hit
    else Miss
  }

  predicate IsNewLetter(k: GuessKind) {
    k.Hit? || k.Miss?
  }

  /**
   * The loop variables after one input character: the guesses grow by at
   * most one letter at the end, the wrong-guess count grows exactly as the
   * missed letters do, and the hint flag is turned on by `!` and never off.
   */
  function Next(word: string, s: State, input: char): (t: State)
    ensures s.guessed <= t.guessed && |t.guessed| <= |s.guessed| + 1
    ensures t.wrongGuesses - s.wrongGuesses
         == |MissedLetters(word, t.guessed)| - |MissedLetters(word, s.guessed)|
    ensures t.showHint == (s.showHint || ToLower(input) == HintRequest)
  {
    var guess := ToLower(input);
    MissedLettersAppend(word, s.guessed, guess);
    match Classify(word, s.guessed, guess)
    case HintRequested => s.(showHint := true)
    case NotALetter => s
    case AlreadyGuessed => s
    case Hit => s.(guessed := s.guessed + [guess])
    case Miss => s.(guessed := s.guessed + [guess], wrongGuesses := s.wrongGuesses + 1)
  }

  /** The input is a new letter after which every character of the word has been guessed. */
  predicate WinsOn(word: string, s: State, input: char)
    ensures WinsOn(word, s, input) <==>
      var guess := ToLower(input);
      IsAlpha(guess) && guess !in s.guessed && IsWordGuessed(word, s.guessed + [guess])
  {
    IsNewLetter(Classify(word, s.guessed, ToLower(input)))
    && IsWordGuessed(word, Next(word, s, input).guessed)
  }

  datatype RoundEnd = RoundEnd(outcome: Outcome, final: State)

  /**
   * The guess loop run from `s` on the characters `inputs`, until it returns
   * or the input runs out. The guesses only grow and the wrong-guess count
   * never goes down; a loss is reached only with the budget used up, a win
   * only with the word guessed, and the input runs out only within budget.
   */
  function Run(word: string, maxWrong: int, s: State, inputs: seq<char>): (e: RoundEnd)
    ensures s.guessed <= e.final.guessed
    ensures s.wrongGuesses - |MissedLetters(word, s.guessed)|
         == e.final.wrongGuesses - |MissedLetters(word, e.final.guessed)|
    ensures e.outcome.Lost? ==> e.final.wrongGuesses >= maxWrong
    ensures e.outcome.Won? ==> IsWordGuessed(word, e.final.guessed) && e.final.guessed != []
    ensures e.outcome.Unfinished? ==> e.final.wrongGuesses < maxWrong
    decreases |inputs|
  {
    if s.wrongGuesses >= maxWrong then RoundEnd(Lost, s)
    else if inputs == [] then RoundEnd(Unfinished, s)
    else if WinsOn(word, s, inputs[0]) then RoundEnd(Won, Next(word, s, inputs[0]))
    else Run(word, maxWrong, Next(word, s, inputs[0]), inputs[1..])
  }

  /**
   * What holds of the loop variables throughout the round: the guesses are
   * distinct lowercase letters, the wrong-guess count is the number of missed
   * letters, and it stays within the budget.
   */
  ghost predicate Inv(word: string, maxWrong: int, s: State) {
    && Distinct(s.guessed)
    && (forall i :: 0 <= i < |s.guessed| ==> IsLower(s.guessed[i]))
    && s.wrongGuesses == |MissedLetters(word, s.guessed)|
    && (s.wrongGuesses == 0 || s.wrongGuesses <= maxWrong)
  }

  /** The round has not been won: the word is not guessed, unless no letter has been tried yet. */
  predicate Open(word: string, s: State) {
    s.guessed == [] || !IsWordGuessed(word, s.guessed)
  }

  lemma StartInv(word: string, maxWrong: int, showHint: bool)
    ensures Inv(word, maxWrong, Start(showHint)) && Open(word, Start(showHint))
  {
  }

  /** One input keeps the invariant, as long as the loop was still running. */
  lemma NextKeepsInv(word: string, maxWrong: int, s: State, input: char)
    requires Inv(word, maxWrong, s) && s.wrongGuesses < maxWrong
    ensures Inv(word, maxWrong, Next(word, s, input))
  {
    var guess := ToLower(input);
    if IsNewLetter(Classify(word, s.guessed, guess)) {
      MissedLettersAppend(word, s.guessed, guess);
    }
  }

  /** An input that does not win leaves the round open. */
  lemma NextKeepsOpen(word: string, s: State, input: char)
    requires Open(word, s) && !WinsOn(word, s, input)
    ensures Open(word, Next(word, s, input))
  {
  }

  /** What one pass of the loop puts on the screen. */
  datatype Screen = Screen(stage: nat, masked: seq<char>, missed: seq<char>, guessed: seq<char>, hintShown: bool)

  /** The screen for state `s`; `stage` indexes `hangmanStates`, so it must be one of its nine pictures. */
  function Display(word: string, s: State): Screen
    requires 0 <= s.wrongGuesses < HangmanStageCount
  {
    Screen(s.wrongGuesses, MaskedView(word, s.guessed), MissedLetters(word, s.guessed), s.guessed, s.showHint)
  }

  /** Under the invariant the picture shown has one part per missed letter. */
  lemma DisplayAgrees(word: string, maxWrong: int, s: State)
    requires Inv(word, maxWrong, s) && maxWrong <= MaxWrong
    ensures 0 <= s.wrongGuesses < HangmanStageCount
    ensures Display(word, s).stage == |Display(word, s).missed|
  {
  }

  /** The local variables of `playGame`, with the word and budget it was given. */
  class Round {
    const word: string
    const maxWrong: int
    var guessed: seq<char>
    var wrongGuesses: int
    var showHint: bool

    function Current(): State
      reads this
    {
      State(guessed, wrongGuesses, showHint)
    }

    ghost predicate Valid()
      reads this
    {
      maxWrong <= MaxWrong && Inv(word, maxWrong, Current()) && Open(word, Current())
    }

    constructor (word: string, maxWrong: int, showHint: bool)
      requires maxWrong <= MaxWrong
      ensures this.word == word && this.maxWrong == maxWrong
      ensures Current() == Start(showHint) && Valid()
    {
      this.word, this.maxWrong := word, maxWrong;
      guessed, wrongGuesses, this.showHint := [], 0, showHint;
    }

    /** The screen drawn at the top of each pass of the loop. */
    function View(): (v: Screen)
      reads this
      requires Valid()
      ensures v.stage < HangmanStageCount && v.stage == |v.missed| && |v.masked| == |word|
      ensures v == Display(word, Current())
    {
      DisplayAgrees(word, maxWrong, Current());
      Display(word, Current())
    }

    /**
     * The body of the guess loop after the character is read: lowercase it,
     * then show the hint, reject a non-letter or a repeated letter, or record
     * a new letter (counting it if it misses) and settle a win.
     */
    method Step(input: char, score: Score) returns (won: bool)
      requires Valid() && wrongGuesses < maxWrong
      modifies this, score
      ensures Current() == Next(word, old(Current()), input)
      ensures won == WinsOn(word, old(Current()), input)
      ensures score.Value() == if won then AfterWin(old(score.Value())) else old(score.Value())
      ensures Inv(word, maxWrong, Current()) && maxWrong <= MaxWrong
      ensures !won ==> Valid()
      ensures var k := Classify(word, old(guessed), ToLower(input));
        && (k.HintRequested? ==> guessed == old(guessed) && wrongGuesses == old(wrongGuesses) && showHint)
        && (k.NotALetter? || k.AlreadyGuessed? ==> Current() == old(Current()))
        && (IsNewLetter(k) ==> guessed == old(guessed) + [ToLower(input)] && showHint == old(showHint))
        && (wrongGuesses == old(wrongGuesses) + if k.Miss? then 1 else 0)
    {
      ghost var s := Current();
      NextKeepsInv(word, maxWrong, s, input);
      var guess := ToLower(input);
      if guess == HintRequest {
        showHint := true;
        return false;
      }
      if !IsAlpha(guess) {
        return false;
      }
      if guess in guessed {
        return false;
      }
      guessed := guessed + [guess];
      if guess !in word {
        wrongGuesses := wrongGuesses + 1;
      }
      if IsWordGuessed(word, guessed) {
        score.wins := score.wins + 1;
        if score.wins > score.highScore {
          score.highScore := score.wins;
        }
        return true;
      }
      return false;
    }
  }

  /**
   * `playGame`: run the guess loop on the player's characters `inputs`,
   * returning how the round ended, the final loop variables and the screens
   * drawn, and record a win or a loss in `score`.
   */
  method PlayGame(word: string, maxWrong: int, score: Score, showHint: bool, inputs: seq<char>)
    returns (outcome: Outcome, final: State, screens: seq<Screen>)
    requires maxWrong <= MaxWrong
    modifies score
    ensures RoundEnd(outcome, final) == Run(word, maxWrong, Start(showHint), inputs)
    ensures score.Value() == Settle(old(score.Value()), outcome)
    ensures screens != []
    ensures forall v :: v in screens ==> v.stage < HangmanStageCount && v.stage == |v.missed| && |v.masked| == |word|
  {
    var round := new Round(word, maxWrong, showHint);
    var i := 0;
    screens := [];
    while round.wrongGuesses < maxWrong
      invariant 0 <= i <= |inputs|
      invariant fresh(round) && round.word == word && round.maxWrong == maxWrong && round.Valid()
      invariant Run(word, maxWrong, Start(showHint), inputs) == Run(word, maxWrong, round.Current(), inputs[i..])
      invariant score.Value() == old(score.Value())
      invariant forall v :: v in screens ==> v.stage < HangmanStageCount && v.stage == |v.missed| && |v.masked| == |word|
      decreases |inputs| - i
    {
      var v := round.View();
      screens := screens + [v];
      if i == |inputs| {
        return Unfinished, round.Current(), screens;
      }
      assert inputs[i..][1..] == inputs[i + 1..];
      var won := round.Step(inputs[i], score);
      i := i + 1;
      if won {
        return Won, round.Current(), screens;
      }
    }
    var v := round.View();
    screens := screens + [v];
    score.losses := score.losses + 1;
    return Lost, round.Current(), screens;
  }
}
