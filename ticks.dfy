/**
 * Ticks as the broker returns them and the two things the agent takes from
 * each one: the price it buffers and the fetch mark (`latest_tick_time`) it
 * advances so that the next fetch starts after the ticks already seen.
 *
 * Times are integers. A tick's `time` field is whole seconds since the
 * epoch; the fetch mark is a date-time with microsecond resolution, modelled
 * as microseconds since the epoch.
 */
module Ticks {

  /** One row of the broker's tick array: `time`, `last`, `bid`, `ask`. */
  datatype Tick = Tick(time: int, last: real, bid: real, ask: real)

  /** The tick's time as a microsecond instant (`fromtimestamp(tick["time"])`): one second is 10^6 µs. */
  function Instant(t: Tick): int
  {
    t.time * 1_000_000
  }

  /** An instant that falls exactly on a whole second. */
  predicate OnWholeSecond(m: int)
  {
    m % 1_000_000 == 0
  }

  /** Tick instants fall on whole seconds; one microsecond past one does not. */
  lemma {:induction false} InstantOnWholeSecond(t: Tick)
    ensures OnWholeSecond(Instant(t)) && !OnWholeSecond(Instant(t) + 1)
  {
  }

  /**
   * The buffered price: a positive last trade price is taken as it is;
   * otherwise the bid/ask midpoint, at equal distance from both quotes
   * whatever they are (crossed or one-sided quotes included), and between
   * them when they are ordered.
   */
  function TickPrice(t: Tick): (p: real)
    ensures t.last > 0.0 ==> p == t.last
    ensures t.last <= 0.0 ==> p - t.bid == t.ask - p
    ensures t.last <= 0.0 && t.bid <= t.ask ==> t.bid <= p <= t.ask
  {
    if t.last <= 0.0 then (t.bid + t.ask) / 2.0 else t.last
  }

  /** A tick with a positive trade price or positive quotes yields a positive price. */
  lemma {:induction false} PriceIsPositive(t: Tick)
    requires t.last > 0.0 || (t.bid > 0.0 && t.ask > 0.0)
    ensures TickPrice(t) > 0.0
  {
  }

  /**
   * One step of the fetch mark: a tick later than the mark moves it to one
   * microsecond past the tick; any other tick leaves it where it is.
   */
  function Advance(mark: int, t: Tick): (m: int)
    ensures m >= mark && m >= Instant(t)
    ensures m == mark || m == Instant(t) + 1
    ensures m != mark <==> Instant(t) > mark
    ensures Instant(t) > mark ==> m > Instant(t)
  {
    if Instant(t) > mark then Instant(t) + 1 else mark
  }

  /**
   * The fetch mark after a run of ticks, processed in order. It never moves
   * backwards.
   */
  function HighWater(mark: int, ts: seq<Tick>): (m: int)
    ensures m >= mark
  {
    if ts == [] then mark else Advance(HighWater(mark, ts[..|ts| - 1]), ts[|ts| - 1])
  }

  /** The mark ends at or after every tick processed. */
  lemma {:induction false} HighWaterCoversAll(mark: int, ts: seq<Tick>)
    ensures forall i :: 0 <= i < |ts| ==> Instant(ts[i]) <= HighWater(mark, ts)
  {
    if ts != [] {
      var init := ts[..|ts| - 1];
      HighWaterCoversAll(mark, init);
      forall i | 0 <= i < |ts| - 1
        ensures Instant(ts[i]) <= HighWater(mark, ts)
      {
        assert ts[i] == init[i];
      }
    }
  }

  /** The mark is either where it started or one microsecond past some tick. */
  lemma {:induction false} HighWaterIsAttained(mark: int, ts: seq<Tick>)
    ensures HighWater(mark, ts) == mark
         || exists i :: 0 <= i < |ts| && HighWater(mark, ts) == Instant(ts[i]) + 1
  {
    if ts != [] {
      var init := ts[..|ts| - 1];
      HighWaterIsAttained(mark, init);
      if HighWater(mark, ts) != mark && HighWater(mark, ts) != Instant(ts[|ts| - 1]) + 1 {
        var i :| 0 <= i < |init| && HighWater(mark, init) == Instant(init[i]) + 1;
        assert ts[i] == init[i];
      }
    }
  }

  /** Processing two runs of ticks one after the other is processing their concatenation. */
  lemma {:induction false} HighWaterConcat(mark: int, a: seq<Tick>, b: seq<Tick>)
    ensures HighWater(mark, a + b) == HighWater(HighWater(mark, a), b)
  {
    if b == [] {
      assert a + b == a;
    } else {
      var b' := b[..|b| - 1];
      HighWaterConcat(mark, a, b');
      assert (a + b)[..|a + b| - 1] == a + b';
    }
  }

  /**
   * A mark that is not on a whole second ends strictly after every tick
   * processed, and again off a whole second: the next fetch starts after
   * every tick already seen.
   */
  lemma {:induction false} HighWaterPassesAll(mark: int, ts: seq<Tick>)
    requires !OnWholeSecond(mark)
    ensures !OnWholeSecond(HighWater(mark, ts))
    ensures forall i :: 0 <= i < |ts| ==> Instant(ts[i]) < HighWater(mark, ts)
  {
    if ts != [] {
      var init := ts[..|ts| - 1];
      HighWaterPassesAll(mark, init);
      InstantOnWholeSecond(ts[|ts| - 1]);
      forall i | 0 <= i < |ts| - 1
        ensures Instant(ts[i]) < HighWater(mark, ts)
      {
        assert ts[i] == init[i];
      }
    }
  }
}
