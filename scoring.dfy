/** The win/loss record a round updates when it ends. */
module Scoring {

  /** How a round ended; `Unfinished` when the player's input ran out first. */
  datatype Outcome = Won | Lost | Unfinished

  /** The value held by a `Score` record. */
  datatype Tally = Tally(wins: int, losses: int, highScore: int)

  function Max(a: int, b: int): int { if a < b then b else a }

  /** A won round: one more win, and the high score raised to the wins if they pass it. */
  function AfterWin(t: Tally): (r: Tally)
    ensures r.wins == t.wins + 1 && r.losses == t.losses
    ensures r.highScore >= r.wins && r.highScore >= t.highScore
    ensures r.highScore == t.highScore || r.highScore == r.wins
  {
    var wins := t.wins + 1;
    Tally(wins, t.losses, if wins > t.highScore then wins else t.highScore)
  }

  /** A lost round: one more loss, nothing else changes. */
  function AfterLoss(t: Tally): (r: Tally)
    ensures r.losses == t.losses + 1 && r.wins == t.wins && r.highScore == t.highScore
    ensures t.highScore >= t.wins ==> r.highScore >= r.wins
  {
    t.(losses := t.losses + 1)
  }

  /** The score after a round with outcome `o`. */
  function Settle(t: Tally, o: Outcome): Tally {
    match o
    case Won => AfterWin(t)
    case Lost => AfterLoss(t)
    case Unfinished => t
  }

  /** The score after a sequence of rounds, played in order. */
  function SettleAll(t: Tally, rounds: seq<Outcome>): Tally
    decreases |rounds|
  {
    if rounds == [] then t else SettleAll(Settle(t, rounds[0]), rounds[1..])
  }

  function Count(rounds: seq<Outcome>, o: Outcome): nat
    decreases |rounds|
  {
    if rounds == [] then 0 else (if rounds[0] == o then 1 else 0) + Count(rounds[1..], o)
  }

  /**
   * Over any sequence of rounds: wins and losses go up by the number of
   * rounds won and lost, the high score never goes down, and once there is
   * a win it is the larger of the starting high score and the wins; so a
   * score with highScore >= wins keeps it.
   */
  lemma {:induction false} ScoreHistory(t: Tally, rounds: seq<Outcome>)
    ensures var r := SettleAll(t, rounds);
      && r.wins == t.wins + Count(rounds, Won)
      && r.losses == t.losses + Count(rounds, Lost)
      && r.highScore >= t.highScore
      && r.highScore == (if Count(rounds, Won) == 0 then t.highScore else Max(t.highScore, r.wins))
      && (t.highScore >= t.wins ==> r.highScore >= r.wins)
    decreases |rounds|
  {
    if rounds != [] {
      ScoreHistory(Settle(t, rounds[0]), rounds[1..]);
    }
  }

  /** The `Score` record, which a round updates through a reference. */
  class Score {
    var wins: int
    var losses: int
    var highScore: int

    /** A record with every field zero, as `loadScore` yields when there is no saved score. */
    constructor ()
      ensures wins == 0 && losses == 0 && highScore == 0
    {
      wins, losses, highScore := 0, 0, 0;
    }

    function Value(): Tally
      reads this
    {
      Tally(wins, losses, highScore)
    }
  }
}
