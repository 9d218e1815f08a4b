/** The scoring rule of `calculate_points`. */
module Scoring {

  const SessionWeight := 10
  const AssessmentWeight := 20

  /** Ten points per session attended, twenty per assessment submitted, plus bonus. */
  function CalculatePoints(sessions: int, assessments: int, bonus: int): int
  {
    sessions * SessionWeight + assessments * AssessmentWeight + bonus
  }

  /** Raising any one of the three counts never lowers the score. */
  lemma PointsMonotone(s: int, a: int, b: int, s': int, a': int, b': int)
    requires s <= s' && a <= a' && b <= b'
    ensures CalculatePoints(s, a, b) <= CalculatePoints(s', a', b')
    ensures (s < s' || a < a' || b < b') ==> CalculatePoints(s, a, b) < CalculatePoints(s', a', b')
  {
  }

  /** The score is non-negative when the counts are; the routes never check that they are. */
  lemma PointsNonNegative(s: int, a: int, b: int)
    requires 0 <= s && 0 <= a && 0 <= b
    ensures 0 <= CalculatePoints(s, a, b)
  {
  }

  /** The score adds up component-wise, so a score of 0 from non-negative counts means all of them are 0. */
  lemma ZeroScoreMeansNoActivity(s: int, a: int, b: int)
    requires 0 <= s && 0 <= a && 0 <= b
    ensures CalculatePoints(s, a, b) == 0 <==> s == 0 && a == 0 && b == 0
  {
  }
}
