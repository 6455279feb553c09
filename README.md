# Slope-trading MetaTrader 5 agent: a verified model of the decision engine

The repository holds three near-identical polling scripts for a MetaTrader 5
trading bot: `HFT_1.py`, `HFT_2.py` and `remove30_use_RawCalculatedVar.py`.
Each script runs a fixed number of iterations, 100 in all three. One iteration
does two things:

1. It fetches the ticks that arrived since a fetch mark. Each tick's price
   goes into a rolling buffer of the newest N prices, and the mark moves past
   every tick already seen.
2. When the buffer is full, the script computes the buffer's population
   variance and its least-squares slope against the arrival index. A slope
   beyond ±0.0001 sends a market order at the newest price. The stop loss and
   the take profit sit one stop distance on either side of that price. An
   order the broker accepts is logged.

The scripts differ in:
- the buffer size (30, 30, 500);
- the symbol;
- the order filling mode (IOC, IOC, FOK);
- what each tick row logs (only the first script adds the buffer's statistics);
- whether `previous_slope` is updated (only the second script does it);
- the stop-distance policy:

| script | stop distance |
|---|---|
| `HFT_1.py` | the larger of two standard deviations and the broker's minimum stop |
| `HFT_2.py` | the variance, raised to a floor of 30 when it is smaller |
| `remove30_use_RawCalculatedVar.py` | the raw variance, with no floor |

The model is one Dafny project. The `Engine.Variant` datatype selects the
script. The modules follow the engine's structure:

- `Statistics` (`statistics.dfy`) defines the population variance and the
  least-squares slope over the reals by their formulas. It proves that:
  - the variance is zero exactly on a window of equal prices;
  - such a window has slope zero;
  - a window that moves by a constant step per tick has that step as its
    slope;
  - a window whose prices rise throughout has a positive slope, and one
    whose prices fall throughout a negative one.
- `PriceWindows` (`window.dfy`) models the bounded FIFO buffer. The class
  `PriceWindow` has an `Append` method that is proved against the
  specification function `LastN`.
- `Ticks` (`ticks.dfy`) holds the price chosen for a tick and the fetch mark
  (`latest_tick_time`), stated in integer microseconds.
- `Signals` (`signals.dfy`) maps a slope to a trend label and to an order
  side.
- `Stops` (`stops.dfy`) holds the three stop-distance policies and the
  broker-minimum fallback.
- `Orders` (`orders.dfy`) builds the order request from a side, an entry
  price and a distance. It also covers the broker's reply and the order log
  row.
- `Engine` (`engine.dfy`) holds the decision taken on one buffer, `Decide`,
  and the properties the three scripts promise about it.
- `Agents` (`agent.dfy`) holds the agent's state as a class with a
  `PriceWindow`, the fetch mark, the second script's `previous_slope` and the
  order log. Its methods are the per-tick loop (`IngestTicks`), one order
  attempt, one round, and the main loop (`Run`). Each method is proved against
  specification functions: the buffer equals `LastN` of all prices seen, the
  mark equals `HighWater` of all ticks seen, the decisions equal the
  per-round `Decide` calls, and the log equals `LogOf`.

The broker is not part of the model. What it hands back becomes an input:
- the tick batches, with a failed fetch as an empty batch;
- the reply to each order;
- the symbol's stop level and point size.

The square root used for the first script's standard deviation is also an
input (`sqrt` in `Agents`, `sd` in `Engine`).

## Model

| member | source | states |
|---|---|---|
| `Statistics.Variance` | HFT_1.py:254 | The population variance of the window is never negative. |
| `Statistics.IndexSqDevPositive` | HFT_1.py:256 | With two or more points, the slope's denominator, the sum of squared deviations of the x values 0..N-1, is positive, so the slope is always defined. |
| `Statistics.IndexMeanClosedForm` | HFT_1.py:256 | The mean of the regression's x values 0..N-1 is (N-1)/2. |
| `Statistics.VarianceZeroIffFlat` | HFT_1.py:254 | The variance is zero if and only if every price in the window is the same. |
| `Statistics.FlatSlopeIsZero` | HFT_1.py:256 | A window of equal prices has slope exactly zero. |
| `Statistics.NonzeroSlopeHasPositiveVariance` | remove30_use_RawCalculatedVar.py:222-224 | A window whose slope is not zero has a strictly positive variance. |
| `Statistics.Slope` | HFT_1.py:287 | The least-squares slope is positive exactly when the prices co-vary positively with the arrival index, and negative exactly when they co-vary negatively. |
| `Statistics.LinearSlopeIsStep` | HFT_1.py:287 | A window whose prices rise or fall by a constant step d per tick has slope exactly d. |
| `Statistics.RisingSlopeIsPositive` | HFT_1.py:287 | A window whose every price is above all earlier ones has a slope strictly above zero. |
| `Statistics.FallingSlopeIsNegative` | HFT_1.py:287 | A window whose every price is below all earlier ones has a slope strictly below zero. |
| `PriceWindows.LastN` | HFT_1.py:70 | The buffer holds all prices seen while there are at most N of them, and exactly N afterwards. |
| `PriceWindows.LastNIsSuffix` | HFT_1.py:243 | The buffer is the newest part of the price history, in arrival order. |
| `PriceWindows.LastNConcat` | HFT_1.py:243 | Evicting after every append gives the same buffer as evicting once after a run of appends. |
| `PriceWindows.AppendToFull` | HFT_1.py:243 | Appending to a full buffer drops exactly the oldest price and keeps the others in order. |
| `PriceWindows.WindowLength` | HFT_1.py:46 | The buffer never holds more than its capacity, and it is full exactly when that many prices have arrived. |
| `PriceWindows.NewestIsLastAppended` | HFT_1.py:296 | The newest buffer element, the order's entry price, is the last price appended. |
| `PriceWindows.PriceWindow.constructor` | HFT_1.py:70 | A new buffer is empty and has the given capacity. |
| `PriceWindows.PriceWindow.Append` | HFT_1.py:243 | Appending keeps the buffer within capacity and leaves it equal to the newest `capacity` prices of old content plus the new price. |
| `Ticks.InstantOnWholeSecond` | HFT_1.py:233-235 | Tick instants fall on whole seconds, and the mark set one microsecond past a tick does not. |
| `Ticks.TickPrice` | HFT_1.py:238-240 | A positive last-trade price is buffered unchanged. Without one, the buffered price is the bid/ask midpoint, equidistant from both quotes whatever they are (crossed or one-sided quotes included), and between them when bid ≤ ask. |
| `Ticks.PriceIsPositive` | remove30_use_RawCalculatedVar.py:205-207 | A tick with a positive trade price or positive quotes yields a positive buffered price. |
| `Ticks.Advance` | HFT_1.py:234-235 | The mark never decreases. It changes only when a tick is newer, and then becomes that tick's instant plus one microsecond. |
| `Ticks.HighWater` | HFT_2.py:181-184 | The mark after a run of ticks is never before where it started. |
| `Ticks.HighWaterCoversAll` | HFT_2.py:181-184 | The mark after a run of ticks is at or after every tick in the run. |
| `Ticks.HighWaterIsAttained` | HFT_2.py:181-184 | The mark after a run of ticks is its start or one microsecond past one of the ticks. |
| `Ticks.HighWaterConcat` | HFT_1.py:227-235 | Processing two fetched batches one after the other moves the mark as processing their concatenation does. |
| `Ticks.HighWaterPassesAll` | remove30_use_RawCalculatedVar.py:199-203 | A mark off a whole second ends strictly after every tick seen and stays off a whole second, so the next fetch starts after them. |
| `Signals.Classify` | HFT_1.py:258-263 | Bullish if and only if slope > 0.0001, Bearish if and only if slope < -0.0001, Neutral otherwise, bounds included. |
| `Signals.TrendSignal` | HFT_2.py:228-234 | A Bullish label calls for a buy, a Bearish one for a sell, and a Neutral one for no order, in both directions. |
| `Signals.SlopeSignal` | HFT_1.py:297-303 | Reading the side straight off the slope, as the first script does, agrees with going through the trend label on every slope. |
| `Signals.ClassifyIsSymmetric` | HFT_2.py:207-212 | Negating the slope swaps Bullish and Bearish and keeps Neutral. |
| `Signals.ClassifyIsMonotone` | HFT_2.py:207-212 | A larger slope never gives a more bearish label. |
| `Signals.SignalNeedsNonzeroSlope` | remove30_use_RawCalculatedVar.py:227-235 | A signal needs a non-zero slope. It is BUY exactly when the slope is positive. |
| `Stops.BrokerMinStop` | HFT_1.py:162-165 | The broker minimum is the stop level times the point size when that is positive, and the default 0.0005 otherwise. Either way it is positive. |
| `Stops.StdevStop` | HFT_1.py:280-284 | The first script's stop is the larger of 2·sd and the broker minimum: at least both, and equal to one of them. |
| `Stops.FloorStop` | HFT_2.py:137 | The second script's stop is the larger of the variance and 30: at least both, and equal to one of them. |
| `Stops.StdevStopIsMonotone` | HFT_1.py:282-284 | A wider standard deviation never narrows the first script's stop. |
| `Stops.FloorStopIsMonotone` | HFT_2.py:137 | A larger variance never narrows the second script's stop. |
| `Orders.BuildOrder` | HFT_1.py:189-207 | The request keeps the symbol, volume, side and price. Its stop loss and take profit are equidistant from the price, the take profit `stop` above it for a buy and `stop` below it for a sell. |
| `Orders.StopRoundTrip` | HFT_1.py:189-198 | The stop distance an order was built with can be read back from it. |
| `Orders.PositiveStopStraddles` | HFT_1.py:182-198 | A buy has its stop loss below and its take profit above the price, and a sell the reverse, if and only if the distance is positive. |
| `Orders.SellMirrorsBuy` | HFT_2.py:139-146 | A sell's stop loss is the buy's take profit and vice versa, at the same price and distance. |
| `Orders.LoggedProfit` | HFT_2.py:246 | The logged profit is the reply's profit when it has one, and 0.0 otherwise. |
| `Orders.Logged` | HFT_1.py:308-328 | An attempt writes one order row when the reply exists and its retcode is 10009 (done), and none otherwise. The row carries the ticket, the attempt number, the symbol, the side, the volume, the entry price and the logged profit. |
| `Engine.Capacity` | remove30_use_RawCalculatedVar.py:40 | Each script's buffer holds at least two prices, so the slope is defined on a full buffer. |
| `Engine.Analyse` | HFT_2.py:201-212 | A full buffer's statistics have a non-negative variance and the trend label of their slope. |
| `Engine.StopDistance` | HFT_1.py:279-284 | The stop distance is never negative. The first script's is at least 2·sd and the broker minimum. The second script's is at least 30 and the variance, and equals the variance when that is at least 30. The third script's is the variance. |
| `Engine.Decide` | HFT_1.py:276-306 | The buffer is evaluated if and only if it is full. |
| `Engine.DecisionOfFullWindow` | HFT_1.py:277-306 | A full buffer gets its variance, slope and trend. An order is placed if and only if \|slope\| > 0.0001, to buy exactly when slope > 0.0001, for the symbol's lot size, at the newest price, with the script's stop distance. |
| `Engine.OrderNeedsPriceMovement` | remove30_use_RawCalculatedVar.py:220-260 | An order is placed only on a buffer whose prices are not all equal, so its slope is non-zero and its variance positive. |
| `Engine.OrderedStopIsPositive` | remove30_use_RawCalculatedVar.py:157-166 | Every order has a positive stop distance, so its stop loss and take profit lie on opposite sides of the entry. This holds for the raw-variance policy too. |
| `Engine.StdevStopCoversBrokerMin` | HFT_1.py:279-284 | With sd the standard deviation, the first script's stop is at least 2·sd and at least the positive broker minimum. It is the broker minimum on a buffer without spread. |
| `Engine.FloorStopKeepsDistance` | HFT_2.py:137-148 | The second script's stop is at least 30 and equals the variance when that is at least 30. Stop loss and take profit lie at least 30 away from the entry. |
| `Engine.RawStopIsVariance` | remove30_use_RawCalculatedVar.py:258-260 | The third script's order carries the buffer's variance as its stop distance, and that variance is positive. |
| `Engine.FlatWindowNeverTrades` | HFT_1.py:277-303 | A full buffer of equal prices has variance 0, slope 0 and a neutral trend, and places no order. |
| `Engine.SteadyWindowFollowsStep` | HFT_1.py:287-301 | A full buffer that moves by a constant step per tick buys when the step exceeds 0.0001, sells when it is below -0.0001, and places nothing otherwise. |
| `Engine.TrendingWindowNeverTradesAgainstIt` | HFT_1.py:287-303 | A full buffer whose prices rise throughout has a positive slope and never sells. One whose prices fall throughout has a negative slope and never buys. |
| `Engine.VariantsAgreeOnSide` | HFT_2.py:227-239 | The trend-label decision of the second script and the direct slope test of the others place an order on the same buffers, with the same side and entry price. |
| `Agents.Prices` | HFT_1.py:237-243 | A run of ticks contributes exactly one buffered price per tick. |
| `Agents.PricesOfTicks` | HFT_1.py:232-243 | The price buffered for each tick of a run is that tick's chosen price, in order. |
| `Agents.RowStats` | HFT_1.py:246-266 | A tick's logged statistics are "N/A" while the buffer is not full. Once it is full they are the buffer's variance, slope and strict trend label, and only the first script logs them. |
| `Agents.LogOf` | HFT_1.py:305-328 | The order log has no more rows than there were attempts. That each attempt has at most one row follows from `LogOfIsOrdered`. |
| `Agents.LogOfRecordsAcceptedOrders` | HFT_1.py:305-328 | Every order row stems from an attempt that placed an order the broker accepted. It carries that attempt's ticket, side and entry price. |
| `Agents.LogOfIsOrdered` | HFT_1.py:227-314 | Order rows appear in the order of the attempts that wrote them. |
| `Agents.LastEvaluatedSlopeIsEvaluated` | HFT_2.py:236 | The recorded previous slope is its initial value or the slope of some decision taken on a full buffer. |
| `Agents.RoundStopIsStdevStop` | HFT_1.py:279-284 | When `sqrt` is a true square root, an order of the first script in round k carries the stop max(2·sd, broker minimum), with sd non-negative and squaring to the buffer's variance. |
| `Agents.DecisionOfRound` | HFT_2.py:177-201 | Round k decides on the buffer as the first k batches left it, whether or not batch k brought any ticks. |
| `Agents.Agent.constructor` | HFT_2.py:111-114 | A new agent has an empty buffer of its script's capacity, the fetch mark at the start time, a previous slope of 0.0 and an empty order log. |
| `Agents.Agent.IngestTick` | HFT_1.py:232-266 | One tick advances the mark as `Advance` says and appends its chosen price to the buffer. It returns the log row with the statistics of the updated buffer. |
| `Agents.Agent.IngestTicks` | HFT_1.py:230-272 | After a batch, the buffer is the newest N of old content plus the batch's prices, and the mark is `HighWater` over the batch. Row i is the log row of tick i. The order log and previous slope are untouched. |
| `Agents.Agent.AttemptOrder` | HFT_2.py:200-264 | The decision depends only on the buffer. The order log grows by the attempt's row exactly when an order was placed and accepted. Only the second script records the slope. The mark is unchanged. |
| `Agents.Agent.Round` | HFT_1.py:228-306 | One iteration takes in the batch and returns the log row of each of its ticks. It then decides on the updated buffer, with sd the given `sqrt` of that buffer's variance, and logs an accepted order. Only the second script records the slope of an evaluated decision as the previous slope. |
| `Agents.Agent.Run` | HFT_1.py:227-333 | After the 100 iterations, the buffer is the newest N of all prices seen, in order, and the mark is `HighWater` of all ticks fetched. Decision k is `Decide` on the buffer after k batches, and the order log is extended by exactly the rows of accepted orders, in attempt order. The second script's previous slope is the slope of its last evaluated decision; the others leave it untouched. |

## Left out

- The MetaTrader 5 terminal is not modelled: `initialize`, `symbol_select`, `symbol_info`, `terminal_info`, `copy_ticks_from`, `order_send`, `last_error` and `shutdown` are foreign calls. What they return is an input of the model: the tick batches, the order replies, and the stop level and point size of the symbol.
- A fetch that returns `None` is modelled as an empty batch. The two cases lead to the same behaviour in all three scripts.
- Which ticks `copy_ticks_from` returns for a given mark is the terminal's business. The model takes any batch, including ticks older than the mark.
- CSV files, the `os.path.exists` checks, and all `logging` output are I/O and are left out. The tick log row and the order log row are modelled as values. The per-iteration aggregated row of the second and third scripts is modelled through the snapshot in `Engine.Decision`.
- String formatting of prices and comments, the `;`-joined price list, and `strftime` rendering are presentation only. The `comment`, `deviation`, `type_time`, `type_filling` and `action` request fields are left out because they are constant within each script or only formatted. `type_filling` is IOC in `HFT_1.py` and `HFT_2.py`, and FOK in `remove30_use_RawCalculatedVar.py`.
- `time.sleep`, the `KeyboardInterrupt` handler, and `finally: mt5.shutdown()` are process plumbing and are left out.
- Floating-point rounding in numpy and scipy is not modelled. Variance and slope are stated over the reals by their formulas, and the values `linregress` returns besides the slope are not used.
- The square root is not modelled. The first script's standard deviation is an input: `sd` in `Engine`, and `sqrt` in `Agents`. `Engine.StdevStopCoversBrokerMin` and `Agents.RoundStopIsStdevStop` assume `sd`, or `sqrt`, gives a non-negative value that squares to the variance.
- `datetime.fromtimestamp` and time zones are not modelled. Tick times are whole seconds, and the fetch mark is integer microseconds since the epoch. The start of the fetch window (now minus two minutes) is an input.
- Wall-clock times in the order log row are not modelled.
- The 200-tick cap of a fetch is not modelled. A batch may be any length.
- `previous_slope` is updated by the second script and read by none. The model keeps the field and proves that decisions do not depend on it.
- `Agents.Agent.Run`: states only how many tick log rows a run produces. Their content is stated batch by batch by `Agents.Agent.Round` and `Agents.Agent.IngestTicks`.
- The second and third scripts log each raw tick with its time and price only. Their tick rows carry no statistics (`RowStats` is `None` for them).
- `Orders.LoggedProfit`: the first script reads `result.profit` without a default. The model requires the reply to carry a profit there (`ProfitReadable`) and does not model the exception a missing attribute would raise.
