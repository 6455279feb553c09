/**
 * The per-iteration decision shared by the three scripts, as a function of
 * the window content. The scripts differ in the window capacity, the symbol
 * and the stop-distance policy; `Variant` names the script.
 */
module Engine {
  import opened Options
  import opened Statistics
  import opened Signals
  import opened Stops
  import opened Orders

  /**
   * Which script runs. The first carries the symbol's stop level (in points)
   * and point size, read once from the broker at start-up.
   */
  datatype Variant =
    | Hft1(stopsLevel: int, point: real)
    | Hft2
    | RawVariance

  /** Size of the rolling buffer. */
  function Capacity(v: Variant): (n: nat)
    ensures n >= 2
  {
    match v
    case Hft1(_, _) => 30
    case Hft2 => 30
    case RawVariance => 500
  }

  function Symbol(v: Variant): string
  {
    if v.RawVariance? then "XAUUSD.sml" else "BTCUSD"
  }

  /** Volume of every order. */
  const LotSize: real := 0.01

  /** Number of fetch-and-decide iterations in one run. */
  const LoopIterations: nat := 100

  /** The statistics of a full window. */
  datatype Snapshot = Snapshot(variance: real, slope: real, trend: Trend)

  function Analyse(prices: seq<real>): (s: Snapshot)
    requires |prices| >= 2
    ensures s.variance >= 0.0
    ensures s.trend == Classify(s.slope)
  {
    var slope := Slope(prices);
    Snapshot(Variance(prices), slope, Classify(slope))
  }

  /**
   * The stop distance of each script for a full window. `sd` is the window's
   * standard deviation as the first script computes it; the other two use
   * the variance. The first two scripts' distances are always positive, the
   * second's at least the floor; the third's is the variance itself and so
   * never negative.
   */
  function StopDistance(v: Variant, prices: seq<real>, sd: real): (d: real)
    requires |prices| > 0
    ensures d >= 0.0
    ensures v.Hft1? ==> d >= BrokerMinStop(v.stopsLevel, v.point) && d >= StdevMultiplier * sd
    ensures v.Hft2? ==> d >= VarianceFloor && d >= Variance(prices)
    ensures v.Hft2? && Variance(prices) >= VarianceFloor ==> d == Variance(prices)
    ensures v.RawVariance? ==> d == Variance(prices)
  {
    match v
    case Hft1(level, point) => StdevStop(sd, BrokerMinStop(level, point))
    case Hft2 => FloorStop(Variance(prices))
    case RawVariance => Variance(prices)
  }

  /**
   * The order side: the second script goes through the trend label, the
   * other two compare the slope directly.
   */
  function Signal(v: Variant, slope: real): Option<Side>
  {
    if v.Hft2? then TrendSignal(Classify(slope)) else SlopeSignal(slope)
  }

  /** The outcome of one order attempt. */
  datatype Decision =
    | NotFull
    | Evaluated(snapshot: Snapshot, order: Option<OrderRequest>)

  /**
   * One order attempt: nothing unless the window is full; otherwise the
   * window statistics and, when the slope calls for it, a market order at
   * the newest price.
   */
  function Decide(v: Variant, prices: seq<real>, sd: real): (d: Decision)
    ensures d.Evaluated? <==> |prices| == Capacity(v)
  {
    if |prices| != Capacity(v) then NotFull
    else
      var snap := Analyse(prices);
      match Signal(v, snap.slope)
      case None => Evaluated(snap, None)
      case Some(side) =>
        var entry := prices[|prices| - 1];
        Evaluated(snap, Some(BuildOrder(Symbol(v), LotSize, side, entry, StopDistance(v, prices, sd))))
  }

  /** An order is placed by this decision. */
  predicate Places(d: Decision)
  {
    d.Evaluated? && d.order.Some?
  }

  /**
   * A full window is evaluated with its variance, slope and strict trend;
   * an order is placed exactly when the slope is beyond the threshold, to
   * buy above it and to sell below it, for the symbol's lot size at the
   * newest price.
   */
  lemma {:induction false} DecisionOfFullWindow(v: Variant, prices: seq<real>, sd: real)
    requires |prices| == Capacity(v)
    ensures Decide(v, prices, sd).snapshot == Snapshot(Variance(prices), Slope(prices), Classify(Slope(prices)))
    ensures Places(Decide(v, prices, sd)) <==> (Slope(prices) > SlopeThreshold || Slope(prices) < -SlopeThreshold)
    ensures Places(Decide(v, prices, sd)) ==>
              var r := Decide(v, prices, sd).order.value;
              && (r.side == Buy <==> Slope(prices) > SlopeThreshold)
              && r.price == prices[|prices| - 1]
              && r.symbol == Symbol(v)
              && r.volume == LotSize
              && StopOf(r) == StopDistance(v, prices, sd)
  {
    var slope := Slope(prices);
    assert Signal(v, slope) == TrendSignal(Classify(slope));
    if Places(Decide(v, prices, sd)) {
      var r := Decide(v, prices, sd).order.value;
      StopRoundTrip(Symbol(v), LotSize, r.side, prices[|prices| - 1], StopDistance(v, prices, sd));
    }
  }

  /** An order needs a slope away from zero, hence a window whose prices are not all equal. */
  lemma {:induction false} OrderNeedsPriceMovement(v: Variant, prices: seq<real>, sd: real)
    requires Places(Decide(v, prices, sd))
    ensures Slope(prices) != 0.0
    ensures !Flat(prices)
    ensures Variance(prices) > 0.0
  {
    DecisionOfFullWindow(v, prices, sd);
    NonzeroSlopeHasPositiveVariance(prices);
    VarianceZeroIffFlat(prices);
  }

  /**
   * No policy ever sends a zero-width stop: every order placed has a positive
   * stop distance, so its stop loss and take profit lie on opposite sides of
   * the entry. For the raw-variance policy this rests on the variance being
   * positive whenever the slope is not zero.
   */
  lemma {:induction false} OrderedStopIsPositive(v: Variant, prices: seq<real>, sd: real)
    requires Places(Decide(v, prices, sd))
    ensures StopDistance(v, prices, sd) > 0.0
    ensures StopsStraddle(Decide(v, prices, sd).order.value)
  {
    DecisionOfFullWindow(v, prices, sd);
    OrderNeedsPriceMovement(v, prices, sd);
    var r := Decide(v, prices, sd).order.value;
    PositiveStopStraddles(r.symbol, r.volume, r.side, r.price, StopDistance(v, prices, sd));
  }

  /**
   * First script: with `sd` the window's standard deviation, the stop is the
   * larger of two deviations and the broker minimum; it is the broker
   * minimum on a window without spread.
   */
  lemma {:induction false} StdevStopCoversBrokerMin(level: int, point: real, prices: seq<real>, sd: real)
    requires |prices| > 0
    requires 0.0 <= sd && Square(sd) == Variance(prices)
    ensures StopDistance(Hft1(level, point), prices, sd) >= StdevMultiplier * sd
    ensures StopDistance(Hft1(level, point), prices, sd) >= BrokerMinStop(level, point) > 0.0
    ensures Variance(prices) == 0.0 ==> StopDistance(Hft1(level, point), prices, sd) == BrokerMinStop(level, point)
  {
    if Variance(prices) == 0.0 {
      assert sd == 0.0;
    }
  }

  /**
   * Second script: the stop is the larger of the variance and the floor,
   * so stop loss and take profit are always at least the floor away from
   * the entry.
   */
  lemma {:induction false} FloorStopKeepsDistance(prices: seq<real>, sd: real)
    requires Places(Decide(Hft2, prices, sd))
    ensures StopDistance(Hft2, prices, sd) >= VarianceFloor
    ensures Variance(prices) >= VarianceFloor ==> StopDistance(Hft2, prices, sd) == Variance(prices)
    ensures var r := Decide(Hft2, prices, sd).order.value;
            r.tp - r.price >= VarianceFloor || r.price - r.tp >= VarianceFloor
    ensures var r := Decide(Hft2, prices, sd).order.value;
            r.sl - r.price >= VarianceFloor || r.price - r.sl >= VarianceFloor
  {
    DecisionOfFullWindow(Hft2, prices, sd);
  }

  /** Third script: the stop is the window's variance, with no floor. */
  lemma {:induction false} RawStopIsVariance(prices: seq<real>, sd: real)
    requires Places(Decide(RawVariance, prices, sd))
    ensures StopOf(Decide(RawVariance, prices, sd).order.value) == Variance(prices) > 0.0
  {
    DecisionOfFullWindow(RawVariance, prices, sd);
    OrderNeedsPriceMovement(RawVariance, prices, sd);
  }

  /** A full window of equal prices is neutral and never trades. */
  lemma {:induction false} FlatWindowNeverTrades(v: Variant, prices: seq<real>, sd: real)
    requires |prices| == Capacity(v) && Flat(prices)
    ensures Decide(v, prices, sd) == Evaluated(Snapshot(0.0, 0.0, Neutral), None)
  {
    FlatSlopeIsZero(prices);
    VarianceZeroIffFlat(prices);
  }

  /**
   * A full window whose prices rise throughout has a positive slope and so
   * never sells; one whose prices fall throughout never buys.
   */
  lemma {:induction false} TrendingWindowNeverTradesAgainstIt(v: Variant, prices: seq<real>, sd: real)
    requires |prices| == Capacity(v)
    ensures Rising(prices) ==> Decide(v, prices, sd).snapshot.slope > 0.0
    ensures Rising(prices) && Places(Decide(v, prices, sd)) ==> Decide(v, prices, sd).order.value.side == Buy
    ensures Falling(prices) ==> Decide(v, prices, sd).snapshot.slope < 0.0
    ensures Falling(prices) && Places(Decide(v, prices, sd)) ==> Decide(v, prices, sd).order.value.side == Sell
  {
    DecisionOfFullWindow(v, prices, sd);
    if Rising(prices) {
      RisingSlopeIsPositive(prices);
    }
    if Falling(prices) {
      FallingSlopeIsNegative(prices);
    }
  }

  /**
   * A full window that moves by a constant step per tick has that step as
   * its slope: it buys when the step is above the threshold, sells when it
   * is below its negation and stays out otherwise.
   */
  lemma {:induction false} SteadyWindowFollowsStep(v: Variant, prices: seq<real>, a: real, step: real, sd: real)
    requires |prices| == Capacity(v) && Linear(prices, a, step)
    ensures Decide(v, prices, sd).snapshot.slope == step
    ensures step > SlopeThreshold ==> Places(Decide(v, prices, sd)) && Decide(v, prices, sd).order.value.side == Buy
    ensures step < -SlopeThreshold ==> Places(Decide(v, prices, sd)) && Decide(v, prices, sd).order.value.side == Sell
    ensures -SlopeThreshold <= step <= SlopeThreshold ==> !Places(Decide(v, prices, sd))
  {
    LinearSlopeIsStep(prices, a, step);
    DecisionOfFullWindow(v, prices, sd);
  }

  /**
   * The three scripts agree on whether and which way to trade on the same
   * full window; they differ only in the stop distance and the symbol.
   */
  lemma {:induction false} VariantsAgreeOnSide(v1: Variant, v2: Variant, prices: seq<real>, sd1: real, sd2: real)
    requires |prices| == Capacity(v1) == Capacity(v2)
    ensures Places(Decide(v1, prices, sd1)) <==> Places(Decide(v2, prices, sd2))
    ensures Places(Decide(v1, prices, sd1)) ==>
              Decide(v1, prices, sd1).order.value.side == Decide(v2, prices, sd2).order.value.side
              && Decide(v1, prices, sd1).order.value.price == Decide(v2, prices, sd2).order.value.price
  {
    DecisionOfFullWindow(v1, prices, sd1);
    DecisionOfFullWindow(v2, prices, sd2);
  }
}
