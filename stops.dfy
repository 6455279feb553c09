/**
 * The three stop-distance policies, one per script. The distance is the
 * price offset used for both stop loss and take profit.
 */
module Stops {

  /** The stop is this many standard deviations wide in the first script. */
  const StdevMultiplier: real := 2.0

  /** The broker minimum used when the symbol reports none. */
  const MinStopDefault: real := 0.0005

  /** The smallest stop the second script accepts. */
  const VarianceFloor: real := 30.0

  /**
   * The broker's minimum stop distance in price units: the symbol's stop
   * level (in points) times its point size, or the default when that product
   * is not positive. It is always positive.
   */
  function BrokerMinStop(stopsLevel: int, point: real): (m: real)
    ensures m > 0.0
    ensures m == stopsLevel as real * point || m == MinStopDefault
    ensures stopsLevel as real * point > 0.0 ==> m == stopsLevel as real * point
  {
    var product := stopsLevel as real * point;
    if product <= 0.0 then MinStopDefault else product
  }

  /**
   * First script: the larger of two standard deviations and the broker
   * minimum, that is, the least value that is at least both.
   */
  function StdevStop(sd: real, brokerMin: real): (d: real)
    ensures d >= StdevMultiplier * sd && d >= brokerMin
    ensures d == StdevMultiplier * sd || d == brokerMin
  {
    var defaultStop := StdevMultiplier * sd;
    if defaultStop >= brokerMin then defaultStop else brokerMin
  }

  /**
   * Second script: the variance, raised to the floor when it is below it,
   * that is, the larger of the variance and the floor.
   */
  function FloorStop(variance: real): (d: real)
    ensures d >= VarianceFloor && d >= variance
    ensures d == variance || d == VarianceFloor
  {
    if variance >= VarianceFloor then variance else VarianceFloor
  }

  /** Widening the volatility input never narrows the first script's stop. */
  lemma {:induction false} StdevStopIsMonotone(sd1: real, sd2: real, brokerMin: real)
    requires sd1 <= sd2
    ensures StdevStop(sd1, brokerMin) <= StdevStop(sd2, brokerMin)
  {
  }

  /** Widening the variance never narrows the second script's stop. */
  lemma {:induction false} FloorStopIsMonotone(v1: real, v2: real)
    requires v1 <= v2
    ensures FloorStop(v1) <= FloorStop(v2)
  {
  }
}
