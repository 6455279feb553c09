/**
 * The rolling price buffer: a `deque(maxlen=N)` that keeps the N most recent
 * prices, evicting the oldest one when a price is appended to a full buffer.
 */
module PriceWindows {

  /** The last n elements of t, or all of t when it is shorter. */
  function LastN<T>(t: seq<T>, n: nat): (r: seq<T>)
    ensures |r| == if |t| <= n then |t| else n
  {
    if |t| <= n then t else t[|t| - n..]
  }

  /** The window is the newest part of the history, in arrival order. */
  lemma {:induction false} LastNIsSuffix<T>(t: seq<T>, n: nat)
    ensures forall i :: 0 <= i < |LastN(t, n)| ==> LastN(t, n)[i] == t[|t| - |LastN(t, n)| + i]
  {
  }

  /**
   * Trimming between appends changes nothing: trimming once after a longer
   * run of appends gives the same window as trimming after every append.
   */
  lemma {:induction false} LastNConcat<T>(t: seq<T>, u: seq<T>, n: nat)
    ensures LastN(LastN(t, n) + u, n) == LastN(t + u, n)
  {
    var w := LastN(t, n);
    assert t == t[..|t| - |w|] + w;
    assert t + u == t[..|t| - |w|] + (w + u);
  }

  /** LastNConcat with the appended part given in two pieces. */
  lemma {:induction false} LastNRegroup<T>(s: seq<T>, t: seq<T>, u: seq<T>, tu: seq<T>, n: nat)
    requires tu == t + u
    ensures LastN(LastN(s + t, n) + u, n) == LastN(s + tu, n)
  {
    LastNConcat(s + t, u, n);
    assert s + t + u == s + tu;
  }

  /** Appending to a full window drops exactly its oldest element. */
  lemma {:induction false} AppendToFull<T>(t: seq<T>, p: T, n: nat)
    requires |t| == n > 0
    ensures LastN(t + [p], n) == t[1..] + [p]
  {
  }

  /** A window is never longer than its capacity, and it is full once n elements have arrived. */
  lemma {:induction false} WindowLength<T>(t: seq<T>, n: nat)
    ensures |LastN(t, n)| <= n
    ensures |LastN(t, n)| == n <==> |t| >= n
  {
  }

  /** The newest element of a non-empty window is the last element appended. */
  lemma {:induction false} NewestIsLastAppended<T>(t: seq<T>, p: T, n: nat)
    requires n > 0
    ensures LastN(t + [p], n)[|LastN(t + [p], n)| - 1] == p
  {
  }

  /**
   * The rolling buffer. `prices` is the deque's content, oldest first; the
   * buffer never grows past `capacity`.
   */
  class PriceWindow {
    const capacity: nat
    var prices: seq<real>

    ghost predicate Valid()
      reads this
    {
      0 < capacity && |prices| <= capacity
    }

    /** An empty buffer of the given capacity. */
    constructor (capacity: nat)
      requires capacity > 0
      ensures Valid()
      ensures this.capacity == capacity && prices == []
    {
      this.capacity := capacity;
      prices := [];
    }

    /** The deque is full: `len(tick_buffer) == TICK_BUFFER_SIZE`. */
    predicate IsFull()
      reads this
    {
      |prices| == capacity
    }

    /** `tick_buffer.append(price)`: append, evicting the oldest price when full. */
    method Append(p: real)
      requires Valid()
      modifies this
      ensures Valid()
      ensures prices == LastN(old(prices) + [p], capacity)
    {
      if |prices| == capacity {
        AppendToFull(prices, p, capacity);
        prices := prices[1..] + [p];
      } else {
        prices := prices + [p];
      }
    }
  }
}
