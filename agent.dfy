/**
 * The polling agent: its rolling buffer, its fetch mark and its order log,
 * and the main loop that, for a fixed number of iterations, takes in the
 * ticks fetched since the mark and then makes one order attempt.
 *
 * The broker is not modelled. The ticks each fetch returns and the reply to
 * each order request are inputs (a failed fetch is an empty batch), as is
 * the square root the first script uses for the standard deviation.
 */
module Agents {
  import opened Options
  import opened Statistics
  import opened PriceWindows
  import opened Ticks
  import opened Orders
  import opened Engine

  /**
   * A tick as the agent logs it. `stats` is the first script's per-tick
   * statistics: None ("N/A") while the buffer is not full, and always None
   * in the other two scripts, which log raw ticks only.
   */
  datatype TickRow = TickRow(instant: int, price: real, stats: Option<Snapshot>)

  /** The buffered prices of a run of ticks, in order. */
  function Prices(ts: seq<Tick>): (ps: seq<real>)
    ensures |ps| == |ts|
  {
    if ts == [] then [] else Prices(ts[..|ts| - 1]) + [TickPrice(ts[|ts| - 1])]
  }

  /** Each buffered price is the price chosen for the tick at the same position. */
  lemma {:induction false} PricesOfTicks(ts: seq<Tick>)
    ensures forall i :: 0 <= i < |ts| ==> Prices(ts)[i] == TickPrice(ts[i])
  {
    if ts != [] {
      var init := ts[..|ts| - 1];
      PricesOfTicks(init);
      forall i | 0 <= i < |ts| - 1
        ensures Prices(ts)[i] == TickPrice(ts[i])
      {
        assert ts[i] == init[i];
      }
    }
  }

  /** All fetched batches, one after the other. */
  function Flatten(batches: seq<seq<Tick>>): (ts: seq<Tick>)
  {
    if batches == [] then [] else Flatten(batches[..|batches| - 1]) + batches[|batches| - 1]
  }

  /** The per-tick statistics logged after a tick has entered `window`. */
  function RowStats(v: Variant, window: seq<real>): (r: Option<Snapshot>)
    ensures r.Some? <==> v.Hft1? && |window| == Capacity(v)
    ensures r.Some? ==> r.value.variance == Variance(window) && r.value.slope == Slope(window)
    ensures r.Some? ==> r.value.trend == Signals.Classify(r.value.slope)
  {
    if v.Hft1? && |window| == Capacity(v) then Some(Analyse(window)) else None
  }

  /**
   * The log row of tick i of a batch that arrived at a buffer holding
   * `start`: its instant, its price and the statistics of the buffer it has
   * just entered.
   */
  function LoggedTick(v: Variant, start: seq<real>, ticks: seq<Tick>, i: nat): TickRow
    requires i < |ticks|
  {
    var window := LastN(start + Prices(ticks[..i + 1]), Capacity(v));
    TickRow(Instant(ticks[i]), TickPrice(ticks[i]), RowStats(v, window))
  }

  /** The standard deviation the first script passes to its stop policy; unused by the others. */
  function StdevFor(v: Variant, window: seq<real>, sqrt: real -> real): real
  {
    if v.Hft1? && |window| == Capacity(v) then sqrt(Variance(window)) else 0.0
  }

  /** Replies whose profit the script can read on every accepted order. */
  predicate RepliesReadable(strict: bool, replies: seq<SendReply>)
  {
    forall k :: 0 <= k < |replies| ==> ProfitReadable(strict, replies[k])
  }

  /**
   * The order log rows written by a run of attempts: attempt k (counted
   * from 1) writes a row when it placed an order and the reply to it was
   * accepted.
   */
  function LogOf(strict: bool, decisions: seq<Decision>, replies: seq<SendReply>): (log: seq<OrderRow>)
    requires |decisions| == |replies| && RepliesReadable(strict, replies)
    ensures |log| <= |decisions|
  {
    if decisions == [] then []
    else
      var n := |decisions|;
      var d := decisions[n - 1];
      LogOf(strict, decisions[..n - 1], replies[..n - 1])
        + (if Places(d) then Logged(strict, n, d.order.value, replies[n - 1]) else [])
  }

  /** The replies to the first k attempts are readable when all of them are. */
  lemma {:induction false} ReadablePrefix(strict: bool, replies: seq<SendReply>, k: nat)
    requires k <= |replies| && RepliesReadable(strict, replies)
    ensures RepliesReadable(strict, replies[..k])
  {
    forall j | 0 <= j < k
      ensures ProfitReadable(strict, replies[..k][j])
    {
      assert replies[..k][j] == replies[j];
    }
  }

  /**
   * `row` was written by attempt `row.orderNum` (counted from 1): that
   * attempt placed an order, the broker accepted it, and the row carries the
   * broker's ticket and the order's side and entry price.
   */
  predicate WrittenBy(row: OrderRow, decisions: seq<Decision>, replies: seq<SendReply>)
    requires |decisions| == |replies|
  {
    var k := row.orderNum;
    && 1 <= k <= |decisions|
    && Places(decisions[k - 1]) && Accepted(replies[k - 1])
    && row.ticket == replies[k - 1].ticket
    && row.side == decisions[k - 1].order.value.side
    && row.price == decisions[k - 1].order.value.price
  }

  /** Every logged row stems from an attempt that placed an order the broker accepted. */
  lemma {:induction false} LogOfRecordsAcceptedOrders(strict: bool, decisions: seq<Decision>, replies: seq<SendReply>)
    requires |decisions| == |replies| && RepliesReadable(strict, replies)
    ensures forall row :: row in LogOf(strict, decisions, replies) ==> WrittenBy(row, decisions, replies)
  {
    if decisions != [] {
      var n := |decisions|;
      var ds := decisions[..n - 1];
      var rs := replies[..n - 1];
      ReadablePrefix(strict, replies, n - 1);
      LogOfRecordsAcceptedOrders(strict, ds, rs);
      forall row | row in LogOf(strict, ds, rs)
        ensures WrittenBy(row, decisions, replies)
      {
        assert WrittenBy(row, ds, rs);
        assert decisions[row.orderNum - 1] == ds[row.orderNum - 1];
        assert replies[row.orderNum - 1] == rs[row.orderNum - 1];
      }
    }
  }

  /** Rows are logged in the order of the attempts that wrote them. */
  lemma {:induction false} LogOfIsOrdered(strict: bool, decisions: seq<Decision>, replies: seq<SendReply>)
    requires |decisions| == |replies| && RepliesReadable(strict, replies)
    ensures forall i, j :: 0 <= i < j < |LogOf(strict, decisions, replies)| ==>
              LogOf(strict, decisions, replies)[i].orderNum < LogOf(strict, decisions, replies)[j].orderNum
  {
    if decisions != [] {
      var n := |decisions|;
      var ds := decisions[..n - 1];
      var rs := replies[..n - 1];
      ReadablePrefix(strict, replies, n - 1);
      LogOfIsOrdered(strict, ds, rs);
      LogOfRecordsAcceptedOrders(strict, ds, rs);
      var prefix := LogOf(strict, ds, rs);
      var log := LogOf(strict, decisions, replies);
      forall i, j | 0 <= i < j < |log|
        ensures log[i].orderNum < log[j].orderNum
      {
        if j >= |prefix| {
          assert prefix[i] in prefix;
          assert WrittenBy(prefix[i], ds, rs);
        }
      }
    }
  }

  /**
   * The agent's state. `window` is the rolling buffer, `latestTickTime` the
   * fetch mark, `previousSlope` the last evaluated slope (kept by the second
   * script only, and never read) and `orderLog` the rows of accepted orders.
   */
  class Agent {
    const variant: Variant
    const window: PriceWindow
    var latestTickTime: int
    var previousSlope: real
    var orderLog: seq<OrderRow>

    ghost predicate Valid()
      reads this, window
    {
      window.Valid() && window.capacity == Capacity(variant)
    }

    /** A fresh agent: empty buffer, fetch mark at `start`, slope zero, empty log. */
    constructor (variant: Variant, start: int)
      ensures Valid() && fresh(window)
      ensures this.variant == variant && window.prices == []
      ensures latestTickTime == start && previousSlope == 0.0 && orderLog == []
    {
      this.variant := variant;
      window := new PriceWindow(Capacity(variant));
      latestTickTime := start;
      previousSlope := 0.0;
      orderLog := [];
    }

    /**
     * One tick: advance the fetch mark past it if it is newer, append its
     * price to the buffer and return its log row, which in the first script
     * carries the statistics of the buffer the price has just entered.
     */
    method IngestTick(tick: Tick) returns (row: TickRow)
      requires Valid()
      modifies this, window
      ensures Valid()
      ensures window.prices == LastN(old(window.prices) + [TickPrice(tick)], window.capacity)
      ensures latestTickTime == Advance(old(latestTickTime), tick)
      ensures previousSlope == old(previousSlope) && orderLog == old(orderLog)
      ensures row == TickRow(Instant(tick), TickPrice(tick), RowStats(variant, window.prices))
    {
      if Instant(tick) > latestTickTime {
        latestTickTime := Instant(tick) + 1;
      }
      var price := tick.last;
      if price <= 0.0 {
        price := (tick.bid + tick.ask) / 2.0;
      }
      window.Append(price);
      var stats := None;
      if variant.Hft1? && window.IsFull() {
        stats := Some(Analyse(window.prices));
      }
      row := TickRow(Instant(tick), price, stats);
    }

    /** The per-tick loop over one fetched batch. */
    method IngestTicks(ticks: seq<Tick>) returns (rows: seq<TickRow>)
      requires Valid()
      modifies this, window
      ensures Valid()
      ensures window.prices == LastN(old(window.prices) + Prices(ticks), window.capacity)
      ensures latestTickTime == HighWater(old(latestTickTime), ticks)
      ensures previousSlope == old(previousSlope) && orderLog == old(orderLog)
      ensures |rows| == |ticks|
      ensures forall i :: 0 <= i < |ticks| ==> rows[i] == LoggedTick(variant, old(window.prices), ticks, i)
    {
      rows := [];
      for i := 0 to |ticks|
        invariant Valid()
        invariant window.prices == LastN(old(window.prices) + Prices(ticks[..i]), window.capacity)
        invariant latestTickTime == HighWater(old(latestTickTime), ticks[..i])
        invariant previousSlope == old(previousSlope) && orderLog == old(orderLog)
        invariant |rows| == i
        invariant forall j :: 0 <= j < i ==> rows[j] == LoggedTick(variant, old(window.prices), ticks, j)
      {
        HighWaterStep(old(latestTickTime), ticks, i);
        WindowStep(old(window.prices), ticks, i, window.capacity);
        var row := IngestTick(ticks[i]);
        ExtendRows(variant, old(window.prices), ticks, rows, row);
        rows := rows + [row];
      }
      assert ticks[..|ticks|] == ticks;
    }

    /**
     * One order attempt on the current buffer. When an order is placed, the
     * broker's `reply` decides whether a row is logged; the second script
     * also records the evaluated slope. The decision reads nothing but the
     * buffer, so the recorded slope has no effect on later attempts.
     */
    method AttemptOrder(orderNum: int, sd: real, reply: SendReply) returns (d: Decision)
      requires Valid() && ProfitReadable(variant.Hft1?, reply)
      modifies this
      ensures d == Decide(variant, window.prices, sd)
      ensures orderLog == old(orderLog) + (if Places(d) then Logged(variant.Hft1?, orderNum, d.order.value, reply) else [])
      ensures previousSlope == if variant.Hft2? && d.Evaluated? then d.snapshot.slope else old(previousSlope)
      ensures latestTickTime == old(latestTickTime)
    {
      d := Decide(variant, window.prices, sd);
      if variant.Hft2? && d.Evaluated? {
        previousSlope := d.snapshot.slope;
      }
      if Places(d) {
        orderLog := orderLog + Logged(variant.Hft1?, orderNum, d.order.value, reply);
      }
    }

    /**
     * One round of the main loop: take in the fetched batch, then attempt an
     * order on the buffer as it now stands, with the first script's standard
     * deviation taken of the full buffer.
     */
    method Round(orderNum: int, batch: seq<Tick>, reply: SendReply, sqrt: real -> real)
      returns (d: Decision, rows: seq<TickRow>)
      requires Valid() && ProfitReadable(variant.Hft1?, reply)
      modifies this, window
      ensures Valid()
      ensures window.prices == LastN(old(window.prices) + Prices(batch), window.capacity)
      ensures latestTickTime == HighWater(old(latestTickTime), batch)
      ensures d == Decide(variant, window.prices, StdevFor(variant, window.prices, sqrt))
      ensures orderLog == old(orderLog) + (if Places(d) then Logged(variant.Hft1?, orderNum, d.order.value, reply) else [])
      ensures previousSlope == if variant.Hft2? && d.Evaluated? then d.snapshot.slope else old(previousSlope)
      ensures |rows| == |batch|
      ensures forall i :: 0 <= i < |batch| ==> rows[i] == LoggedTick(variant, old(window.prices), batch, i)
    {
      rows := IngestTicks(batch);
      var sd := 0.0;
      if variant.Hft1? && window.IsFull() {
        sd := sqrt(Variance(window.prices));
      }
      d := AttemptOrder(orderNum, sd, reply);
    }

    /**
     * The main loop: `LoopIterations` rounds of taking in the fetched batch
     * and then attempting an order, whether or not the batch was empty.
     * `batches[k]` and `replies[k]` are what the broker returns in round
     * k + 1; a reply is consulted only when that round places an order.
     */
    method Run(batches: seq<seq<Tick>>, replies: seq<SendReply>, sqrt: real -> real)
      returns (decisions: seq<Decision>, tickRows: seq<TickRow>)
      requires Valid()
      requires |batches| == LoopIterations && |replies| == LoopIterations
      requires RepliesReadable(variant.Hft1?, replies)
      modifies this, window
      ensures Valid()
      ensures window.prices == BufferAfter(variant, old(window.prices), batches, LoopIterations)
      ensures latestTickTime == HighWater(old(latestTickTime), Flatten(batches))
      ensures decisions == Decisions(variant, old(window.prices), batches, LoopIterations, sqrt)
      ensures orderLog == old(orderLog) + LogOf(variant.Hft1?, decisions, replies)
      ensures previousSlope == if variant.Hft2? then LastEvaluatedSlope(decisions, old(previousSlope)) else old(previousSlope)
      ensures |tickRows| == |Flatten(batches)|
    {
      decisions := [];
      tickRows := [];
      for k := 0 to LoopIterations
        invariant Valid()
        invariant window.prices == BufferAfter(variant, old(window.prices), batches, k)
        invariant latestTickTime == HighWater(old(latestTickTime), Flatten(batches[..k]))
        invariant decisions == Decisions(variant, old(window.prices), batches, k, sqrt)
        invariant RepliesReadable(variant.Hft1?, replies[..k])
        invariant orderLog == old(orderLog) + LogOf(variant.Hft1?, decisions, replies[..k])
        invariant previousSlope == if variant.Hft2? then LastEvaluatedSlope(decisions, old(previousSlope)) else old(previousSlope)
        invariant |tickRows| == |Flatten(batches[..k])|
      {
        var d, rows := Round(k + 1, batches[k], replies[k], sqrt);
        tickRows := tickRows + rows;
        RoundStep(variant, old(window.prices), old(latestTickTime), batches, k);
        LogStep(variant.Hft1?, old(orderLog), decisions, d, replies, k);
        SlopeStep(decisions, d, old(previousSlope));
        decisions := decisions + [d];
      }
      assert batches[..LoopIterations] == batches;
      assert replies[..LoopIterations] == replies;
    }
  }

  /** The buffer after the first k rounds, starting from `start`. */
  function BufferAfter(v: Variant, start: seq<real>, batches: seq<seq<Tick>>, k: nat): seq<real>
    requires k <= |batches|
  {
    LastN(start + Prices(Flatten(batches[..k])), Capacity(v))
  }

  /** The decision of round k (counted from 1), made on the buffer after k rounds. */
  function DecisionAfter(v: Variant, start: seq<real>, batches: seq<seq<Tick>>, k: nat, sqrt: real -> real): Decision
    requires k <= |batches|
  {
    var w := BufferAfter(v, start, batches, k);
    Decide(v, w, StdevFor(v, w, sqrt))
  }

  /**
   * The slope the second script holds in `previous_slope` after a run of
   * attempts: that of the last attempt that evaluated a full buffer, or
   * `initial` when none did.
   */
  function LastEvaluatedSlope(decisions: seq<Decision>, initial: real): real
  {
    if decisions == [] then initial
    else
      var d := decisions[|decisions| - 1];
      if d.Evaluated? then d.snapshot.slope else LastEvaluatedSlope(decisions[..|decisions| - 1], initial)
  }

  /** The recorded slope is the initial one or the slope of some evaluated attempt. */
  lemma {:induction false} LastEvaluatedSlopeIsEvaluated(decisions: seq<Decision>, initial: real)
    ensures LastEvaluatedSlope(decisions, initial) == initial
         || exists k :: 0 <= k < |decisions| && decisions[k].Evaluated?
                        && LastEvaluatedSlope(decisions, initial) == decisions[k].snapshot.slope
  {
    if decisions != [] && !decisions[|decisions| - 1].Evaluated? {
      var init := decisions[..|decisions| - 1];
      LastEvaluatedSlopeIsEvaluated(init, initial);
      if LastEvaluatedSlope(init, initial) != initial {
        var k :| 0 <= k < |init| && init[k].Evaluated? && LastEvaluatedSlope(init, initial) == init[k].snapshot.slope;
        assert decisions[k] == init[k];
      }
    }
  }

  /** The recorded slope after one more attempt. */
  lemma {:induction false} SlopeStep(decisions: seq<Decision>, d: Decision, initial: real)
    ensures LastEvaluatedSlope(decisions + [d], initial)
         == if d.Evaluated? then d.snapshot.slope else LastEvaluatedSlope(decisions, initial)
  {
    assert (decisions + [d])[..|decisions|] == decisions;
  }

  /** `sqrt` is the square root on the non-negative reals. */
  ghost predicate IsSqrt(sqrt: real -> real)
  {
    forall x :: x >= 0.0 ==> sqrt(x) >= 0.0 && Square(sqrt(x)) == x
  }

  /**
   * With `sqrt` the square root, the first script's order in round k has as
   * its stop the larger of two standard deviations of the buffer and the
   * broker minimum, where the standard deviation is non-negative and squares
   * to the buffer's variance.
   */
  lemma {:induction false} RoundStopIsStdevStop(level: int, point: real, start: seq<real>, batches: seq<seq<Tick>>,
                                              k: nat, sqrt: real -> real)
    requires k <= |batches| && IsSqrt(sqrt)
    requires Places(DecisionAfter(Hft1(level, point), start, batches, k, sqrt))
    ensures var w := BufferAfter(Hft1(level, point), start, batches, k);
            var sd := StdevFor(Hft1(level, point), w, sqrt);
            && 0.0 <= sd && Square(sd) == Variance(w)
            && StopOf(DecisionAfter(Hft1(level, point), start, batches, k, sqrt).order.value)
               == Stops.StdevStop(sd, Stops.BrokerMinStop(level, point))
  {
    var w := BufferAfter(Hft1(level, point), start, batches, k);
    DecisionOfFullWindow(Hft1(level, point), w, StdevFor(Hft1(level, point), w, sqrt));
  }

  /** The log rows of the first i ticks of a batch, followed by that of tick i. */
  lemma {:induction false} ExtendRows(v: Variant, start: seq<real>, ticks: seq<Tick>, rows: seq<TickRow>, row: TickRow)
    requires |rows| < |ticks|
    requires forall j :: 0 <= j < |rows| ==> rows[j] == LoggedTick(v, start, ticks, j)
    requires row == LoggedTick(v, start, ticks, |rows|)
    ensures forall j :: 0 <= j < |rows| + 1 ==> (rows + [row])[j] == LoggedTick(v, start, ticks, j)
  {
  }

  /** The decisions of the first k rounds, in order. */
  function Decisions(v: Variant, start: seq<real>, batches: seq<seq<Tick>>, k: nat, sqrt: real -> real): (ds: seq<Decision>)
    requires k <= |batches|
    ensures |ds| == k
  {
    if k == 0 then [] else Decisions(v, start, batches, k - 1, sqrt) + [DecisionAfter(v, start, batches, k, sqrt)]
  }

  /**
   * Round k (counted from 1) decides on the buffer as the first k batches
   * left it, whether or not batch k brought any ticks.
   */
  lemma {:induction false} DecisionOfRound(v: Variant, start: seq<real>, batches: seq<seq<Tick>>, k: nat, sqrt: real -> real)
    requires k <= |batches|
    ensures forall j :: 0 <= j < k ==> Decisions(v, start, batches, k, sqrt)[j] == DecisionAfter(v, start, batches, j + 1, sqrt)
  {
    if k > 0 {
      DecisionOfRound(v, start, batches, k - 1, sqrt);
    }
  }

  /** Buffer, fetch mark and tick count after one more round. */
  lemma {:induction false} RoundStep(v: Variant, start: seq<real>, mark: int, batches: seq<seq<Tick>>, k: nat)
    requires k < |batches|
    ensures LastN(BufferAfter(v, start, batches, k) + Prices(batches[k]), Capacity(v))
         == BufferAfter(v, start, batches, k + 1)
    ensures HighWater(HighWater(mark, Flatten(batches[..k])), batches[k]) == HighWater(mark, Flatten(batches[..k + 1]))
    ensures |Flatten(batches[..k + 1])| == |Flatten(batches[..k])| + |batches[k]|
  {
    assert batches[..k + 1][..k] == batches[..k];
    RoundWindow(start, Flatten(batches[..k]), batches[k], Capacity(v));
    HighWaterConcat(mark, Flatten(batches[..k]), batches[k]);
  }

  /** The order log after one more attempt, following the rows `earlier` logged before the run. */
  lemma {:induction false} LogStep(strict: bool, earlier: seq<OrderRow>, decisions: seq<Decision>, d: Decision,
                replies: seq<SendReply>, k: nat)
    requires k == |decisions| < |replies| && RepliesReadable(strict, replies)
    ensures RepliesReadable(strict, replies[..k]) && RepliesReadable(strict, replies[..k + 1])
    ensures earlier + LogOf(strict, decisions + [d], replies[..k + 1])
         == earlier + LogOf(strict, decisions, replies[..k])
            + (if Places(d) then Logged(strict, k + 1, d.order.value, replies[k]) else [])
  {
    ReadablePrefix(strict, replies, k);
    ReadablePrefix(strict, replies, k + 1);
    assert (decisions + [d])[..k] == decisions;
    assert replies[..k + 1][..k] == replies[..k];
  }

  /** The fetch mark after one more tick of a batch. */
  lemma {:induction false} HighWaterStep(mark: int, ticks: seq<Tick>, i: nat)
    requires i < |ticks|
    ensures HighWater(mark, ticks[..i + 1]) == Advance(HighWater(mark, ticks[..i]), ticks[i])
  {
    assert ticks[..i + 1][..i] == ticks[..i];
  }

  /** The buffer after one more tick of a batch. */
  lemma {:induction false} WindowStep(start: seq<real>, ticks: seq<Tick>, i: nat, capacity: nat)
    requires i < |ticks|
    ensures LastN(LastN(start + Prices(ticks[..i]), capacity) + [TickPrice(ticks[i])], capacity)
         == LastN(start + Prices(ticks[..i + 1]), capacity)
  {
    assert ticks[..i + 1][..i] == ticks[..i];
    LastNRegroup(start, Prices(ticks[..i]), [TickPrice(ticks[i])], Prices(ticks[..i + 1]), capacity);
  }

  /** The buffered prices of two runs of ticks are those of each run, concatenated. */
  lemma {:induction false} PricesConcat(a: seq<Tick>, b: seq<Tick>)
    ensures Prices(a + b) == Prices(a) + Prices(b)
  {
    if b != [] {
      var b' := b[..|b| - 1];
      PricesConcat(a, b');
      assert (a + b)[..|a + b| - 1] == a + b';
    } else {
      assert a + b == a;
    }
  }

  /**
   * The buffer after one more batch: trimming the buffer, then appending the
   * batch's prices and trimming again, is trimming the whole price history.
   */
  lemma {:induction false} RoundWindow(start: seq<real>, seen: seq<Tick>, batch: seq<Tick>, capacity: nat)
    ensures LastN(LastN(start + Prices(seen), capacity) + Prices(batch), capacity)
         == LastN(start + Prices(seen + batch), capacity)
  {
    PricesConcat(seen, batch);
    LastNRegroup(start, Prices(seen), Prices(batch), Prices(seen + batch), capacity);
  }
}
