/**
 * The window statistics the agent computes once its price window is full:
 * the population variance (numpy's `var`, which divides by N) and the
 * ordinary-least-squares slope of price against arrival index 0..N-1
 * (the slope that scipy's `linregress` returns). Both are stated over the
 * reals by their defining formulas; floating-point rounding is not modelled.
 */
module Statistics {

  /** Sum of the first k values of s. */
  function Sum(s: seq<real>, k: nat): real
    requires k <= |s|
  {
    if k == 0 then 0.0 else Sum(s, k - 1) + s[k - 1]
  }

  /** Arithmetic mean of a non-empty sequence. */
  function Mean(s: seq<real>): real
    requires |s| > 0
  {
    Sum(s, |s|) / (|s| as real)
  }

  /** The identity on reals; see Square. */
  function Copy(x: real): real
  {
    x
  }

  /**
   * x * x. The second factor goes through Copy so that the solver treats the
   * term as a product of two factors rather than as a square, which it
   * reasons about more reliably. A square is never negative.
   */
  function Square(x: real): (r: real)
    ensures r >= 0.0
  {
    x * Copy(x)
  }

  /** A square is zero only at zero. */
  lemma {:induction false} SquarePositive(x: real)
    requires x != 0.0
    ensures Square(x) > 0.0
  {
  }

  /** Sum of squared deviations from m over the first k values of s. */
  function SqDev(s: seq<real>, m: real, k: nat): (r: real)
    requires k <= |s|
    ensures r >= 0.0
  {
    if k == 0 then 0.0 else SqDev(s, m, k - 1) + Square(s[k - 1] - m)
  }

  /** Population variance: squared deviations from the mean, divided by N. */
  function Variance(s: seq<real>): (v: real)
    requires |s| > 0
    ensures v >= 0.0
  {
    SqDev(s, Mean(s), |s|) / (|s| as real)
  }

  /** 0 + 1 + ... + (k - 1): the sum of the regression's x values. */
  function IndexSum(k: nat): real
  {
    if k == 0 then 0.0 else IndexSum(k - 1) + (k - 1) as real
  }

  /** Mean of the x values 0..n-1. */
  function IndexMean(n: nat): real
    requires n > 0
  {
    IndexSum(n) / (n as real)
  }

  /** Sum of (i - m)^2 over i = 0..k-1. */
  function IndexSqDev(m: real, k: nat): (r: real)
    ensures r >= 0.0
  {
    if k == 0 then 0.0
    else
      IndexSqDev(m, k - 1) + Square((k - 1) as real - m)
  }

  /**
   * With two or more points the sum of squared index deviations is positive
   * whatever m is, so the slope's denominator never vanishes.
   */
  lemma {:induction false} IndexSqDevPositive(m: real, k: nat)
    requires k >= 2
    ensures IndexSqDev(m, k) > 0.0
  {
    if k == 2 {
      if m != 0.0 {
        SquarePositive(0.0 - m);
      } else {
        SquarePositive(1.0 - m);
      }
    } else {
      IndexSqDevPositive(m, k - 1);
    }
  }

  /** Sum of (i - mx) * (s[i] - my) over i = 0..k-1. */
  function CoDev(s: seq<real>, mx: real, my: real, k: nat): real
    requires k <= |s|
  {
    if k == 0 then 0.0
    else CoDev(s, mx, my, k - 1) + ((k - 1) as real - mx) * (s[k - 1] - my)
  }

  /**
   * OLS slope of s against x = 0..|s|-1: sum (x - x̄)(y - ȳ) / sum (x - x̄)^2.
   * The denominator is positive, so the slope has the sign of the
   * numerator.
   */
  function Slope(s: seq<real>): (r: real)
    requires |s| >= 2
    ensures r > 0.0 <==> CoDev(s, IndexMean(|s|), Mean(s), |s|) > 0.0
    ensures r < 0.0 <==> CoDev(s, IndexMean(|s|), Mean(s), |s|) < 0.0
  {
    var mx := IndexMean(|s|);
    IndexSqDevPositive(mx, |s|);
    CoDev(s, mx, Mean(s), |s|) / IndexSqDev(mx, |s|)
  }

  /** All values of s are equal. */
  predicate Flat(s: seq<real>)
  {
    forall i :: 0 <= i < |s| ==> s[i] == s[0]
  }

  /** s[i] == a + d * i for every index: a window rising or falling by a constant step d. */
  predicate Linear(s: seq<real>, a: real, d: real)
  {
    forall i :: 0 <= i < |s| ==> s[i] == a + d * (i as real)
  }

  // ---------------------------------------------------------------------------
  // The x values: closed forms
  // ---------------------------------------------------------------------------

  lemma {:induction false} IndexSumClosedForm(k: nat)
    ensures IndexSum(k) == (k as real) * ((k as real) - 1.0) / 2.0
  {
    if k > 0 {
      IndexSumClosedForm(k - 1);
    }
  }

  /** The mean of 0..n-1 is the constant (n - 1) / 2. */
  lemma {:induction false} IndexMeanClosedForm(n: nat)
    requires n > 0
    ensures IndexMean(n) == ((n as real) - 1.0) / 2.0
  {
    IndexSumClosedForm(n);
    var r := n as real;
    var c := (r - 1.0) / 2.0;
    assert IndexSum(n) == r * c;
    assert (r * c) / r == c;
  }

  // ---------------------------------------------------------------------------
  // Flat windows
  // ---------------------------------------------------------------------------

  lemma {:induction false} SumOfConstant(s: seq<real>, c: real, k: nat)
    requires k <= |s|
    requires forall i :: 0 <= i < k ==> s[i] == c
    ensures Sum(s, k) == (k as real) * c
  {
    if k > 0 {
      SumOfConstant(s, c, k - 1);
    }
  }

  /** The mean of a flat window is its common value. */
  lemma {:induction false} MeanOfFlat(s: seq<real>)
    requires |s| > 0 && Flat(s)
    ensures Mean(s) == s[0]
  {
    SumOfConstant(s, s[0], |s|);
  }

  lemma {:induction false} SqDevOfConstant(s: seq<real>, c: real, k: nat)
    requires k <= |s|
    requires forall i :: 0 <= i < k ==> s[i] == c
    ensures SqDev(s, c, k) == 0.0
  {
    if k > 0 {
      SqDevOfConstant(s, c, k - 1);
    }
  }

  /** A zero sum of squared deviations means every value equals the centre. */
  lemma {:induction false} ZeroSqDevForcesCentre(s: seq<real>, m: real, k: nat)
    requires k <= |s|
    requires SqDev(s, m, k) == 0.0
    ensures forall i :: 0 <= i < k ==> s[i] == m
  {
    if k > 0 {
      if s[k - 1] != m {
        SquarePositive(s[k - 1] - m);
      }
      ZeroSqDevForcesCentre(s, m, k - 1);
    }
  }

  lemma {:induction false} CoDevOfConstant(s: seq<real>, mx: real, my: real, k: nat)
    requires k <= |s|
    requires forall i :: 0 <= i < k ==> s[i] == my
    ensures CoDev(s, mx, my, k) == 0.0
  {
    if k > 0 {
      CoDevOfConstant(s, mx, my, k - 1);
      var y := s[k - 1] - my;
      assert y == 0.0;
      assert ((k - 1) as real - mx) * y == 0.0;
    }
  }

  /** The variance is zero exactly when every price in the window is the same. */
  lemma {:induction false} VarianceZeroIffFlat(s: seq<real>)
    requires |s| > 0
    ensures Variance(s) == 0.0 <==> Flat(s)
  {
    var n := |s| as real;
    if Flat(s) {
      MeanOfFlat(s);
      SqDevOfConstant(s, s[0], |s|);
    }
    if Variance(s) == 0.0 {
      assert SqDev(s, Mean(s), |s|) == Variance(s) * n;
      ZeroSqDevForcesCentre(s, Mean(s), |s|);
    }
  }

  /** A flat window has slope zero. */
  lemma {:induction false} FlatSlopeIsZero(s: seq<real>)
    requires |s| >= 2 && Flat(s)
    ensures Slope(s) == 0.0
  {
    MeanOfFlat(s);
    CoDevOfConstant(s, IndexMean(|s|), s[0], |s|);
    IndexSqDevPositive(IndexMean(|s|), |s|);
  }

  /**
   * A non-zero slope forces a positive variance: any window that can produce
   * a trade signal has prices that are not all equal.
   */
  lemma {:induction false} NonzeroSlopeHasPositiveVariance(s: seq<real>)
    requires |s| >= 2 && Slope(s) != 0.0
    ensures Variance(s) > 0.0
  {
    if Variance(s) == 0.0 {
      VarianceZeroIffFlat(s);
      FlatSlopeIsZero(s);
    }
  }

  // ---------------------------------------------------------------------------
  // Windows that move by a constant step
  // ---------------------------------------------------------------------------

  lemma {:induction false} SumOfLinear(s: seq<real>, a: real, d: real, k: nat)
    requires k <= |s| && Linear(s, a, d)
    ensures Sum(s, k) == (k as real) * a + d * IndexSum(k)
  {
    if k > 0 {
      SumOfLinear(s, a, d, k - 1);
      assert s[k - 1] == a + d * ((k - 1) as real);
    }
  }

  lemma {:induction false} MeanOfLinear(s: seq<real>, a: real, d: real)
    requires |s| > 0 && Linear(s, a, d)
    ensures Mean(s) == a + d * IndexMean(|s|)
  {
    var n := |s| as real;
    SumOfLinear(s, a, d, |s|);
    DivideAffine(n, a, d, IndexSum(|s|));
  }

  lemma {:induction false} DivideAffine(n: real, a: real, d: real, t: real)
    requires n > 0.0
    ensures (n * a + d * t) / n == a + d * (t / n)
  {
  }

  lemma {:induction false} Quotient(c: real, q: real, d: real)
    requires q > 0.0
    requires c == d * q
    ensures c / q == d
  {
  }

  /** Adding a term that is d times another keeps a sum d times the other sum. */
  lemma {:induction false} ScaledSum(d: real, c0: real, q0: real, t: real, sq: real, c: real, q: real)
    requires c0 == d * q0 && t == d * sq && c == c0 + t && q == q0 + sq
    ensures c == d * q
  {
  }

  /** One term of the co-deviation sum of a linear window. */
  lemma {:induction false} LinearTerm(a: real, d: real, x: real, y: real, mx: real, my: real)
    requires y == a + d * x && my == a + d * mx
    ensures (x - mx) * (y - my) == d * Square(x - mx)
  {
    assert y - my == d * (x - mx);
  }

  lemma {:induction false} CoDevStep(s: seq<real>, mx: real, my: real, k: nat)
    requires 0 < k <= |s|
    ensures CoDev(s, mx, my, k) == CoDev(s, mx, my, k - 1) + ((k - 1) as real - mx) * (s[k - 1] - my)
  {
  }

  lemma {:induction false} IndexSqDevStep(mx: real, k: nat)
    requires 0 < k
    ensures IndexSqDev(mx, k) == IndexSqDev(mx, k - 1) + Square((k - 1) as real - mx)
  {
  }

  /** One step of CoDevOfLinear: the identity survives adding the k-th term. */
  lemma {:induction false} CoDevOfLinearStep(s: seq<real>, a: real, d: real, mx: real, my: real, k: nat)
    requires 0 < k <= |s| && s[k - 1] == a + d * ((k - 1) as real) && my == a + d * mx
    requires CoDev(s, mx, my, k - 1) == d * IndexSqDev(mx, k - 1)
    ensures CoDev(s, mx, my, k) == d * IndexSqDev(mx, k)
  {
    CoDevStep(s, mx, my, k);
    IndexSqDevStep(mx, k);
    LinearTerm(a, d, (k - 1) as real, s[k - 1], mx, my);
    ScaledSum(d, CoDev(s, mx, my, k - 1), IndexSqDev(mx, k - 1),
              ((k - 1) as real - mx) * (s[k - 1] - my), Square((k - 1) as real - mx),
              CoDev(s, mx, my, k), IndexSqDev(mx, k));
  }

  /**
   * For a window that moves by d per index, and my the linear value at mx,
   * the co-deviation sum is d times the index deviation sum.
   */
  lemma {:induction false} CoDevOfLinear(s: seq<real>, a: real, d: real, mx: real, my: real, k: nat)
    requires k <= |s| && Linear(s, a, d) && my == a + d * mx
    ensures CoDev(s, mx, my, k) == d * IndexSqDev(mx, k)
  {
    if k > 0 {
      CoDevOfLinear(s, a, d, mx, my, k - 1);
      CoDevOfLinearStep(s, a, d, mx, my, k);
    } else {
      ScaledSum(d, 0.0, 0.0, 0.0, 0.0, CoDev(s, mx, my, k), IndexSqDev(mx, k));
    }
  }

  /** When the slope's numerator c is d times its denominator q, the slope is d. */
  lemma {:induction false} SlopeOfScaledCoDev(s: seq<real>, c: real, q: real, d: real)
    requires |s| >= 2
    requires c == CoDev(s, IndexMean(|s|), Mean(s), |s|)
    requires q == IndexSqDev(IndexMean(|s|), |s|)
    requires c == d * q
    ensures Slope(s) == d
  {
    IndexSqDevPositive(IndexMean(|s|), |s|);
    Quotient(c, q, d);
  }

  /** A window that moves by a constant step d per tick has slope exactly d. */
  lemma {:induction false} LinearSlopeIsStep(s: seq<real>, a: real, d: real)
    requires |s| >= 2 && Linear(s, a, d)
    ensures Slope(s) == d
  {
    MeanOfLinear(s, a, d);
    CoDevOfLinear(s, a, d, IndexMean(|s|), Mean(s), |s|);
    SlopeOfScaledCoDev(s, CoDev(s, IndexMean(|s|), Mean(s), |s|), IndexSqDev(IndexMean(|s|), |s|), d);
  }

  // ---------------------------------------------------------------------------
  // Windows that rise or fall throughout
  // ---------------------------------------------------------------------------

  /** Every price is above all earlier ones. */
  predicate Rising(s: seq<real>)
  {
    forall i, j :: 0 <= i < j < |s| ==> s[i] < s[j]
  }

  /** Every price is below all earlier ones. */
  predicate Falling(s: seq<real>)
  {
    forall i, j :: 0 <= i < j < |s| ==> s[i] > s[j]
  }

  lemma {:induction false} ShiftTerm(x: real, y: real, my: real, c: real)
    ensures x * (y - my) == x * (y - c) + (c - my) * x
  {
  }

  lemma {:induction false} Distribute(a: real, b: real, t: real)
    ensures a * (b + t) == a * b + a * t
  {
  }

  /**
   * Moving the y centre from my to c changes the co-deviation sum by
   * (c - my) times the sum of the x deviations.
   */
  lemma {:induction false} CoDevShift(s: seq<real>, mx: real, my: real, c: real, k: nat)
    requires k <= |s|
    ensures CoDev(s, mx, my, k) == CoDev(s, mx, c, k) + (c - my) * (IndexSum(k) - (k as real) * mx)
  {
    if k > 0 {
      CoDevShift(s, mx, my, c, k - 1);
      CoDevStep(s, mx, my, k);
      CoDevStep(s, mx, c, k);
      ShiftTerm((k - 1) as real - mx, s[k - 1], my, c);
      Distribute(c - my, IndexSum(k - 1) - ((k - 1) as real) * mx, (k - 1) as real - mx);
    }
  }

  /** The x deviations from their mean sum to zero. */
  lemma {:induction false} IndexDeviationsCancel(n: nat)
    requires n > 0
    ensures IndexSum(n) - (n as real) * IndexMean(n) == 0.0
  {
  }


  /** The middle index m of 0..n-1: the x mean lies in [m, m + 1). */
  lemma {:induction false} MiddleIndex(n: nat)
    requires n >= 2
    ensures (((n - 1) / 2) as real) <= IndexMean(n) < (((n - 1) / 2) as real) + 1.0
    ensures (n - 1) / 2 < n - 1
  {
    IndexMeanClosedForm(n);
  }

  lemma {:induction false} ProductSign(a: real, b: real)
    ensures a > 0.0 && b > 0.0 ==> a * b > 0.0
    ensures a < 0.0 && b < 0.0 ==> a * b > 0.0
    ensures a > 0.0 && b < 0.0 ==> a * b < 0.0
    ensures a < 0.0 && b > 0.0 ==> a * b < 0.0
    ensures b == 0.0 ==> a * b == 0.0
  {
  }

  /** Centred at the middle price m of a rising window, the term of index i is non-negative. */
  lemma {:induction false} RisingTerm(s: seq<real>, mx: real, m: nat, i: nat)
    requires Rising(s) && m < |s| - 1 && (m as real) <= mx < (m as real) + 1.0 && i < |s|
    ensures ((i as real) - mx) * (s[i] - s[m]) >= 0.0
  {
    if i < m {
      assert s[i] < s[m];
      assert (i as real) - mx < 0.0;
    } else if i > m {
      assert s[m] < s[i];
      assert (i as real) - mx > 0.0;
    }
    ProductSign((i as real) - mx, s[i] - s[m]);
  }

  /** The mirror of RisingTerm: the term of index i of a falling window is non-positive. */
  lemma {:induction false} FallingTerm(s: seq<real>, mx: real, m: nat, i: nat)
    requires Falling(s) && m < |s| - 1 && (m as real) <= mx < (m as real) + 1.0 && i < |s|
    ensures ((i as real) - mx) * (s[i] - s[m]) <= 0.0
  {
    if i < m {
      assert s[i] > s[m];
      assert (i as real) - mx < 0.0;
    } else if i > m {
      assert s[m] > s[i];
      assert (i as real) - mx > 0.0;
    }
    ProductSign((i as real) - mx, s[i] - s[m]);
  }

  /** Centred at the middle price, every partial co-deviation sum of a rising window is non-negative. */
  lemma {:induction false} RisingPartialCoDev(s: seq<real>, mx: real, m: nat, k: nat)
    requires Rising(s) && m < |s| - 1 && (m as real) <= mx < (m as real) + 1.0 && k <= |s|
    ensures CoDev(s, mx, s[m], k) >= 0.0
  {
    if k > 0 {
      RisingPartialCoDev(s, mx, m, k - 1);
      RisingTerm(s, mx, m, k - 1);
      CoDevStep(s, mx, s[m], k);
    }
  }

  /** The newest term of a rising window's sum, centred at the middle price, is positive. */
  lemma {:induction false} RisingLastTerm(s: seq<real>, mx: real, m: nat)
    requires Rising(s) && m < |s| - 1 && (m as real) <= mx < (m as real) + 1.0
    ensures ((|s| - 1) as real - mx) * (s[|s| - 1] - s[m]) > 0.0
  {
    assert s[m] < s[|s| - 1];
    assert (|s| - 1) as real - mx > 0.0;
    ProductSign((|s| - 1) as real - mx, s[|s| - 1] - s[m]);
  }

  /** Centred at the middle price, every partial co-deviation sum of a falling window is non-positive. */
  lemma {:induction false} FallingPartialCoDev(s: seq<real>, mx: real, m: nat, k: nat)
    requires Falling(s) && m < |s| - 1 && (m as real) <= mx < (m as real) + 1.0 && k <= |s|
    ensures CoDev(s, mx, s[m], k) <= 0.0
  {
    if k > 0 {
      FallingPartialCoDev(s, mx, m, k - 1);
      FallingTerm(s, mx, m, k - 1);
      CoDevStep(s, mx, s[m], k);
    }
  }

  /** The newest term of a falling window's sum, centred at the middle price, is negative. */
  lemma {:induction false} FallingLastTerm(s: seq<real>, mx: real, m: nat)
    requires Falling(s) && m < |s| - 1 && (m as real) <= mx < (m as real) + 1.0
    ensures ((|s| - 1) as real - mx) * (s[|s| - 1] - s[m]) < 0.0
  {
    assert s[m] > s[|s| - 1];
    assert (|s| - 1) as real - mx > 0.0;
    ProductSign((|s| - 1) as real - mx, s[|s| - 1] - s[m]);
  }

  /** Centring the prices at any value c leaves the co-deviation sum unchanged. */
  lemma {:induction false} CentreAnywhere(s: seq<real>, c: real)
    requires |s| >= 2
    ensures CoDev(s, IndexMean(|s|), Mean(s), |s|) == CoDev(s, IndexMean(|s|), c, |s|)
  {
    CoDevShift(s, IndexMean(|s|), Mean(s), c, |s|);
    IndexDeviationsCancel(|s|);
    ProductSign(c - Mean(s), IndexSum(|s|) - (|s| as real) * IndexMean(|s|));
  }

  /** A rising window's co-deviation sum, centred at its middle price, is positive. */
  lemma {:induction false} RisingCoDev(s: seq<real>)
    requires |s| >= 2 && Rising(s)
    ensures CoDev(s, IndexMean(|s|), s[(|s| - 1) / 2], |s|) > 0.0
  {
    var m := (|s| - 1) / 2;
    MiddleIndex(|s|);
    RisingPartialCoDev(s, IndexMean(|s|), m, |s| - 1);
    RisingLastTerm(s, IndexMean(|s|), m);
    CoDevStep(s, IndexMean(|s|), s[m], |s|);
  }

  /** A falling window's co-deviation sum, centred at its middle price, is negative. */
  lemma {:induction false} FallingCoDev(s: seq<real>)
    requires |s| >= 2 && Falling(s)
    ensures CoDev(s, IndexMean(|s|), s[(|s| - 1) / 2], |s|) < 0.0
  {
    var m := (|s| - 1) / 2;
    MiddleIndex(|s|);
    FallingPartialCoDev(s, IndexMean(|s|), m, |s| - 1);
    FallingLastTerm(s, IndexMean(|s|), m);
    CoDevStep(s, IndexMean(|s|), s[m], |s|);
  }

  /** A window whose prices rise throughout has a positive slope. */
  lemma {:induction false} RisingSlopeIsPositive(s: seq<real>)
    requires |s| >= 2 && Rising(s)
    ensures Slope(s) > 0.0
  {
    RisingCoDev(s);
    CentreAnywhere(s, s[(|s| - 1) / 2]);
  }

  /** A window whose prices fall throughout has a negative slope. */
  lemma {:induction false} FallingSlopeIsNegative(s: seq<real>)
    requires |s| >= 2 && Falling(s)
    ensures Slope(s) < 0.0
  {
    FallingCoDev(s);
    CentreAnywhere(s, s[(|s| - 1) / 2]);
  }
}
