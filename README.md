# Hangman guess round, modelled in Dafny

This project models the one piece of logic in the terminal Hangman game (`hangman.cpp`):
a guessing round. The player guesses letters of a hidden word. The round tracks the
letters tried so far, counts the wrong ones against a budget of eight (one less than
the nine gallows pictures), and records a win or a loss in a `Score` record passed by
reference.

Files and modules:

- `letters.dfy`, module `Letters`: `isalpha` and `tolower` as the C locale defines them (ASCII only).
- `views.dfy`, module `Views`: the read-only queries, written as pure recursive functions.
  They are `isWordGuessed`, the masked word drawn by `printCurrentState` and the list
  printed by `printMissedLetters`, plus lemmas about them.
- `scoring.dfy`, module `Scoring`: the `Score` class and its value `Tally`. It also holds
  the win and loss updates, and a lemma about any history of rounds.
- `round.dfy`, module `Round`: the guess loop of `playGame`, in two forms.
  - As values: `State`, `Classify`, `Next` for one input, and `Run` for a whole input sequence.
  - Imperatively: class `Round` holds the loop variables and its `Step` method updates
    them in place. `PlayGame` is the driver loop that reads the input and updates the score.
- `round_props.dfy`, module `RoundProps`: lemmas about whole rounds over `Run`.
- `round_examples.dfy`, module `RoundExamples`: two worked rounds on the word "cat".

The player's keyboard becomes a finite sequence of characters: the ones `cin >> guess`
delivers, with whitespace already skipped. The real loop blocks for more input. When the
modelled sequence runs out first, the round ends as `Unfinished` and the score is left alone.

Behaviour of the code that the model keeps as written:

- The win check runs only after a new letter. So an empty word is won by the first
  letter typed, and that letter also counts as a wrong guess. Words coming from the menu
  are never empty, because `cin >>` cannot read one.
- Every guess is lowercased before it is compared. A word holding a capital, a digit or
  any other non-lowercase character can therefore never be won
  (`RoundProps.UnguessableWordIsNeverWon`). Custom words are typed by a person, so this can happen.
- `maxWrong` is an `int` parameter, as in the source. The only requirement is
  `maxWrong <= 8`, so that `hangmanStates[wrongGuesses]` stays in bounds. A budget of zero
  or less loses at once, since the loop body never runs.

## Model

| member | source | states |
|---|---|---|
| `Letters.IsAlpha` | hangman.cpp:159 | the 52 ASCII letters; `Letters.ToLower` keeps a character a letter exactly when it was one, and `RoundProps.NonLettersIgnored` shows every other character is dropped by the round |
| `Letters.ToLower` | hangman.cpp:153 | a letter comes out lowercase, a non-letter comes out unchanged and stays a non-letter; capitals move by the ASCII case offset |
| `Views.IsWordGuessed` | hangman.cpp:57-63 | true exactly when every character of the word occurs among the guesses (so true for the empty word) |
| `Views.MaskedView` | hangman.cpp:36-45 | one cell per character of the word; cell i is the character when it has been guessed and `_` otherwise |
| `Views.MaskedViewShowsWin` | hangman.cpp:36-63 | for a word without `_`, the mask has no blank left exactly when `IsWordGuessed` holds |
| `Views.MaskedViewAfterGuess` | hangman.cpp:36-45 | one more guess reveals exactly the cells holding that letter and leaves every other cell as it was |
| `Views.MissedLetters` | hangman.cpp:47-55 | a character is listed exactly when it was guessed and does not occur in the word; the list is no longer than the guesses |
| `Views.MissedLettersIsSubsequence` | hangman.cpp:47-55 | the missed letters keep guess order: an increasing choice of positions of the guesses spells them out |
| `Views.MissedLettersAppend` | hangman.cpp:47-55 | a guess added at the end extends the missed letters by itself exactly when it is not in the word |
| `Views.MissedLettersDistinct` | hangman.cpp:47-55 | distinct guesses give distinct missed letters |
| `Views.MissedLettersOfMisses` | hangman.cpp:47-55 | when no guess occurs in the word, every guess is listed, in order |
| `Scoring.AfterWin` | hangman.cpp:176-177 | a win adds one to wins, keeps losses, and makes the high score the larger of the old high score and the new wins |
| `Scoring.AfterLoss` | hangman.cpp:184 | a loss adds one to losses and leaves wins and the high score alone, so it keeps highScore >= wins; `Scoring.ScoreHistory` sums it over many rounds |
| `Scoring.ScoreHistory` | hangman.cpp:174-185 | over any sequence of rounds, wins and losses grow by the rounds won and lost, and the high score never decreases; after a win it is the larger of the starting high score and the wins, and highScore >= wins is kept |
| `Scoring.Score.constructor` | hangman.cpp:18-22 | a new score record has every field zero |
| `Round.Classify` | hangman.cpp:153-170 | the guess is the hint request exactly when it is `!`; it is a new letter exactly when it is a letter not yet guessed, and a miss exactly when it is also not in the word |
| `Round.Next` | hangman.cpp:153-173 | one input adds at most one guess and keeps the old ones; wrongGuesses grows by exactly the growth of the missed letters; the hint flag turns on exactly on `!`; `Round.NextKeepsInv` keeps the invariant |
| `Round.WinsOn` | hangman.cpp:167-174 | the win fires exactly on a new letter that, appended to the guesses, covers the word |
| `Round.Run` | hangman.cpp:138-185 | the guesses only grow and the wrong-guess count moves with the missed letters; a loss only with the budget used up, a win only with a non-empty guess list covering the word, an unfinished round only within budget; `RoundProps.RunEnds` adds the invariant |
| `Round.StartInv` | hangman.cpp:134-136 | the empty guess list with zero wrong guesses satisfies the round invariant and the round is open |
| `Round.NextKeepsInv` | hangman.cpp:153-173 | while the loop runs, one input keeps the guesses distinct lowercase letters, keeps wrongGuesses equal to the number of missed letters, and keeps it within the budget |
| `Round.NextKeepsOpen` | hangman.cpp:174-180 | an input that does not trigger the win leaves the round unwon |
| `Round.DisplayAgrees` | hangman.cpp:138-143 | under the invariant with a budget of at most 8, the picture index is in bounds and equals the number of missed letters |
| `Round.Round.constructor` | hangman.cpp:134-136 | a round starts with no guesses and zero wrong guesses, with the hint flag as given |
| `Round.Round.View` | hangman.cpp:139-149 | the screen at the top of each pass has an in-bounds picture index equal to the missed-letter count, and a mask as long as the word |
| `Round.Round.Step` | hangman.cpp:153-180 | one pass: the state becomes `Next` of the old state. `!` only sets the hint flag. A non-letter or repeated letter changes nothing. A new letter is appended and adds one wrong guess exactly when it misses. A win happens exactly on a new letter that completes the word, and then applies `AfterWin` to the score |
| `Round.PlayGame` | hangman.cpp:133-186 | the round ends as `Run` says; the score gets `AfterWin` on a win, one more loss on a loss, and nothing otherwise; every picture index drawn, including the final one after a loss, is in bounds |
| `RoundProps.MissNeverWins` | hangman.cpp:168-174 | in an unwon round a letter missing a non-empty word cannot complete it |
| `RoundProps.RunEnds` | hangman.cpp:138-185 | from an open state: a win has the word guessed and, for a non-empty word, the budget not exhausted; a loss has wrongGuesses == maxWrong and, for a positive budget, the word not guessed; the guesses only grow and the invariant holds at the end |
| `RoundProps.RoundEnds` | hangman.cpp:133-186 | the same two end conditions from the start of a round, which never both hold |
| `RoundProps.UnguessableWordIsNeverWon` | hangman.cpp:153-174 | a word with any character that is not a lowercase letter is never won |
| `RoundProps.NewLetters` | hangman.cpp:163-167 | the letters a round records from typed letters when some were guessed already: exactly the typed letters not seen before, none twice |
| `RoundProps.NewLettersStep` | hangman.cpp:153-173 | one input moves its letter, if new, from the letters still to be recorded to the recorded ones, and its miss, if any, from the misses still to come to the wrong-guess count |
| `RoundProps.UncoverStep` | hangman.cpp:153-174 | when the guesses made and still to come leave a character of the word uncovered, one input keeps that so and does not win |
| `RoundProps.RunPrefix` | hangman.cpp:138-185 | once the loop has returned on some input, anything typed after it changes neither the outcome nor the final state |
| `RoundProps.CoveredStep` | hangman.cpp:153-179 | an input that does not win keeps the round unwon, its letters still to come covering the word, and its misses still to come below the budget |
| `RoundProps.CoveredWordIsWonFrom` | hangman.cpp:138-179 | from an unwon state, if the guesses so far plus the letters still to come cover the word and the wrong guesses so far plus the distinct misses still to come stay below the budget, the round is won |
| `RoundProps.CoveredWordIsWon` | hangman.cpp:138-179 | if some prefix of the input covers a non-empty word while its distinct missed letters (repeats ignored) stay below the budget, the round is won, whatever comes after |
| `RoundProps.UncoveredWordIsLostFrom` | hangman.cpp:138-185 | from any in-budget state, if the guesses made plus the letters still to come never cover the word and the wrong guesses plus the distinct misses still to come reach the budget, the round is lost with the budget exactly used up |
| `RoundProps.UncoveredWordIsLost` | hangman.cpp:138-185 | if some prefix of the input does not cover the word and holds maxWrong distinct missed letters (hits and repeats allowed), the round is lost with wrongGuesses == maxWrong, whatever comes after |
| `RoundProps.NonLettersIgnored` | hangman.cpp:159-162 | removing every input that is neither a letter nor `!` does not change how the round ends or its final state |
| `RoundProps.RepeatedLetterIgnored` | hangman.cpp:163-166 | typing an already-guessed letter is the same as not typing it |
| `RoundProps.HintOnlyShowsHint` | hangman.cpp:154-158 | typing `!` is the same as turning the hint flag on and not typing it |
| `RoundProps.LowercaseGuesses` | hangman.cpp:153-162 | lowercase letters are tried exactly as typed |
| `RoundProps.NewLettersOfDistinct` | hangman.cpp:163-167 | distinct letters none of which was guessed before are all recorded, in order |
| `RoundExamples.CatIsWon` | hangman.cpp:174-179 | with the budget of eight and either hint setting, typing c, a, t wins the word "cat" |
| `RoundExamples.CatIsLost` | hangman.cpp:182-185 | with the budget of eight and either hint setting, typing "cbdefghij" (one hit, then eight misses) loses "cat" with eight wrong guesses |

## Left out

- Console output: the prompts, messages and ASCII-art text are left out. The screens are
  returned as `Screen` values instead. The picture is represented by its index into
  `hangmanStates`, and the art strings are not modelled.
- Console input: `cin >> guess` becomes a finite input sequence. End of input and stream
  failure are not modelled beyond the `Unfinished` outcome.
- `clearScreen` and its `system` calls are left out, because they have no effect on the round.
- `saveScore` and `loadScore` (file `score.txt`) are left out, because they are file I/O.
  The `Score` constructor stands for the zero score `loadScore` returns when there is no file.
- `getRandomWord`, the random category choice in `mainMenu`, and `srand`/`time` are left
  out, because they are nondeterministic. The word is a parameter instead.
- `getWordsByCategory`, `getCategories`, `mainMenu` and `playCustomWord` are left out,
  because they are static data and menu dispatch over console I/O. Only the budget they
  pass, `hangmanStates.size() - 1` = 8, is kept, as `Round.MaxWrong`.
- The hint text is left out. Only the `showHint` flag is modelled.
- `Scoring.AfterWin`: C++ `int` overflow of `wins`/`losses` is not modelled; the fields are unbounded integers, since overflow needs more than two billion rounds.
- `Letters.ToLower`: only the C locale is modelled. Locale-dependent behaviour of
  `tolower`/`isalpha`, and the undefined behaviour for negative `char` values, are left out.
