/**
 * From slope to trade direction. A slope strictly above the threshold is a
 * bullish trend and a buy signal, one strictly below its negation a bearish
 * trend and a sell signal; everything in between, bounds included, is
 * neutral and places no order.
 */
module Signals {
  import opened Options

  const SlopeThreshold: real := 0.0001

  datatype Trend = Bullish | Bearish | Neutral

  datatype Side = Buy | Sell

  /** The trend label of a slope. */
  function Classify(slope: real): (t: Trend)
    ensures t == Bullish <==> slope > SlopeThreshold
    ensures t == Bearish <==> slope < -SlopeThreshold
    ensures t == Neutral <==> -SlopeThreshold <= slope <= SlopeThreshold
  {
    if slope > SlopeThreshold then Bullish
    else if slope < -SlopeThreshold then Bearish
    else Neutral
  }

  /**
   * The order side a trend label calls for: a buy for a bullish trend, a
   * sell for a bearish one, and none for a neutral one.
   */
  function TrendSignal(t: Trend): (r: Option<Side>)
    ensures r.Some? <==> t != Neutral
    ensures r == Some(Buy) <==> t == Bullish
    ensures r == Some(Sell) <==> t == Bearish
  {
    match t
    case Bullish => Some(Buy)
    case Bearish => Some(Sell)
    case Neutral => None
  }

  /**
   * The order side read straight off the slope, without going through the
   * trend label. It agrees with the label-based decision on every slope.
   */
  function SlopeSignal(slope: real): (r: Option<Side>)
    ensures r == TrendSignal(Classify(slope))
  {
    if slope > SlopeThreshold then Some(Buy)
    else if slope < -SlopeThreshold then Some(Sell)
    else None
  }

  /** The opposite trend label. */
  function Mirror(t: Trend): Trend
  {
    match t
    case Bullish => Bearish
    case Bearish => Bullish
    case Neutral => Neutral
  }

  /** Negating the slope swaps bullish and bearish and keeps neutral. */
  lemma {:induction false} ClassifyIsSymmetric(slope: real)
    ensures Classify(-slope) == Mirror(Classify(slope))
  {
  }

  /** Position of a label on the bearish-to-bullish scale. */
  function Rank(t: Trend): int
  {
    match t
    case Bearish => -1
    case Neutral => 0
    case Bullish => 1
  }

  /** A larger slope never gives a more bearish label. */
  lemma {:induction false} ClassifyIsMonotone(s1: real, s2: real)
    requires s1 <= s2
    ensures Rank(Classify(s1)) <= Rank(Classify(s2))
  {
  }

  /** Any signal at all needs a slope that is not zero. */
  lemma {:induction false} SignalNeedsNonzeroSlope(slope: real)
    requires SlopeSignal(slope).Some?
    ensures slope != 0.0
    ensures SlopeSignal(slope) == Some(Buy) <==> slope > 0.0
  {
  }
}
