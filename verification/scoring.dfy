/** The two small scoring rules that produce the scores a payout is decided on:
    a manager's net score for one gameweek, and the league points a
    head-to-head match awards to each of its two managers. */
module Scoring {

  /** Net score of one gameweek: the points scored minus the cost of the
      transfers made that week. */
  function GameweekScore(points: int, transferCost: int): (s: int)
    ensures s + transferCost == points
    ensures transferCost >= 0 ==> s <= points
    ensures transferCost == 0 ==> s == points
  {
    points - transferCost
  }

  /** The two gameweeks recorded for a manager: 10 points with no transfer
      cost, then 10 points with an 8-point transfer cost. */
  lemma GameweekScoreExamples()
    ensures GameweekScore(10, 0) == 10
    ensures GameweekScore(10, 8) == 2
  {
  }

  /** League points awarded for one head-to-head match, given the two
      managers' gameweek scores: a draw is worth 1 each, a win 3 to the
      winner and 0 to the loser. */
  function HeadToHeadPoints(score1: int, score2: int): (r: (nat, nat))
    ensures r.0 == r.1 <==> score1 == score2
    ensures r.0 > r.1 <==> score1 > score2
    ensures r.0 + r.1 == (if score1 == score2 then 2 else 3)
    ensures r.0 in {0, 1, 3} && r.1 in {0, 1, 3}
  {
    if score1 == score2 then (1, 1)
    else if score1 > score2 then (3, 0)
    else (0, 3)
  }

  /** The rule does not depend on which manager is listed first. */
  lemma {:induction false} HeadToHeadPointsSymmetric(score1: int, score2: int)
    ensures HeadToHeadPoints(score2, score1) == (HeadToHeadPoints(score1, score2).1, HeadToHeadPoints(score1, score2).0)
  {
  }

  /** A match always awards 2 or 3 points in total, and the winner takes 3. */
  lemma {:induction false} HeadToHeadWinnerTakesThree(score1: int, score2: int)
    requires score1 != score2
    ensures var r := HeadToHeadPoints(score1, score2);
      (r.0 == 3 && r.1 == 0) || (r.0 == 0 && r.1 == 3)
  {
  }
}
