/**
 The per-entry scoring rule of match creation: which team won, and what one
 participation adds to a player's counters.
 */
module Scoring {
  import opened Models

  const Blue: string := "blue"
  const Red: string := "red"

  /** The winner is decided by a strict comparison, so a tie goes to red. */
  function WinningTeam(scoreBlue: int, scoreRed: int): (w: string)
    ensures w == Blue <==> scoreBlue > scoreRed
    ensures w == Red <==> scoreBlue <= scoreRed
  {
    if scoreBlue > scoreRed then Blue else Red
  }

  /** The increments one participation row applies to its player's totals,
      given the header of its match. A row wins exactly when its team label
      equals the winning label; rounds are read from the blue score when the
      label is "blue" and from the red score for any other label. */
  function Contribution(row: MatchPlayer, m: Match): Stats
  {
    var won := row.team == WinningTeam(m.scoreBlue, m.scoreRed);
    Stats(
      1,
      if won then 1 else 0,
      if won then 0 else 1,
      row.kills,
      row.deaths,
      row.assists,
      if row.team == Blue then m.scoreBlue else m.scoreRed,
      if row.team == Blue then m.scoreRed else m.scoreBlue)
  }

  /** What one participation adds: one match, exactly one of a win or a
      loss (a win exactly when the label is the winning one), both scores
      split between rounds won and lost with the row's own side read from
      blue only for the label "blue", and the row's kills, deaths and assists. */
  lemma ContributionShape(row: MatchPlayer, m: Match)
    ensures var d := Contribution(row, m);
      && d.matches == 1
      && 0 <= d.wins <= 1 && d.wins + d.losses == d.matches
      && (d.wins == 1 <==> row.team == WinningTeam(m.scoreBlue, m.scoreRed))
      && d.roundsWon + d.roundsLost == m.scoreBlue + m.scoreRed
      && d.roundsWon == (if row.team == Blue then m.scoreBlue else m.scoreRed)
      && d.kills == row.kills && d.deaths == row.deaths && d.assists == row.assists
  {
  }

  /** How each kind of team label fares: "blue" wins exactly when blue
      scored strictly more, "red" wins on a tie as well, and any other label
      is always a loss while still being credited with the red score. */
  lemma TeamOutcomes(row: MatchPlayer, m: Match)
    ensures row.team == Blue ==>
      (Contribution(row, m).wins == 1 <==> m.scoreBlue > m.scoreRed)
    ensures row.team == Red ==>
      (Contribution(row, m).wins == 1 <==> m.scoreBlue <= m.scoreRed)
    ensures row.team != Blue && row.team != Red ==>
      && Contribution(row, m).wins == 0
      && Contribution(row, m).losses == 1
      && Contribution(row, m).roundsWon == m.scoreRed
      && Contribution(row, m).roundsLost == m.scoreBlue
  {
  }

  /** On equal scores every "red" row wins and every "blue" row loses. */
  lemma TieGoesToRed(row: MatchPlayer, m: Match)
    requires m.scoreBlue == m.scoreRed
    ensures row.team == Red ==> Contribution(row, m).wins == 1
    ensures row.team == Blue ==> Contribution(row, m).losses == 1
  {
  }
}
