/** Score bookkeeping and difficulty: one point per surviving tick, a displayed score
    of one fifth of it, and a speed step every 50 points. */
module Scoring {
  const StartSpeed: real := 2.0
  const SpeedIncrement: real := 0.1
  const SpeedInterval: int := 50
  const PointsPerDisplayed: int := 5

  /** The displayed score: the raw score divided by 5, rounded down. */
  function DisplayScore(score: nat): (d: nat)
    ensures d * PointsPerDisplayed <= score < d * PointsPerDisplayed + PointsPerDisplayed
  {
    score / PointsPerDisplayed
  }

  /** The displayed score never goes down as the raw score grows. */
  lemma DisplayScoreMonotone(a: nat, b: nat)
    requires a <= b
    ensures DisplayScore(a) <= DisplayScore(b)
  {
  }

  /** The speed after the tick that brought the score to `score`: one step up when
      the score is a positive multiple of 50, otherwise unchanged; never lower. */
  function SpeedAfterPoint(speed: real, score: int): (r: real)
    ensures speed <= r <= speed + SpeedIncrement
    ensures r != speed <==> score > 0 && score % SpeedInterval == 0
  {
    if score > 0 && score % SpeedInterval == 0 then speed + SpeedIncrement else speed
  }

  /** The speed after `score` points since the start: the start speed plus one step
      for every completed block of 50 points. */
  function SpeedAt(score: nat): (s: real)
    ensures StartSpeed <= s
    ensures score < SpeedInterval ==> s == StartSpeed
  {
    StartSpeed + (score / SpeedInterval) as real * SpeedIncrement
  }

  /** The per-tick rule and the closed form agree: applying SpeedAfterPoint once per
      point from the start speed yields SpeedAt. */
  lemma SpeedAtStep(n: nat)
    ensures SpeedAfterPoint(SpeedAt(n), n + 1) == SpeedAt(n + 1)
  {
  }
}
