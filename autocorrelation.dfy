/** The sample autocorrelation function: for each lag, the covariance of the
    series with itself shifted by that lag, over the series' variance. */
module Autocorrelation {
  import opened Series

  /** One point of the correlogram. */
  datatype AcfEntry = AcfEntry(lag: int, correlation: real)

  /** The population variance: the mean squared deviation from the mean. */
  function Variance(v: seq<real>): (r: real)
    requires |v| > 0
    ensures r >= 0.0
    ensures (|v| as real) * r == Sum(Squares(Deviations(v, Mean(v))))
  {
    var ss := Sum(Squares(Deviations(v, Mean(v))));
    SumOfSquaresNonNeg(Deviations(v, Mean(v)));
    NonNegRatio(ss, |v| as real);
    ss / (|v| as real)
  }

  /** A non-negative number over a positive one is non-negative, and
      multiplying back gives the number. */
  lemma NonNegRatio(s: real, n: real)
    requires s >= 0.0 && n > 0.0
    ensures s / n >= 0.0 && n * (s / n) == s
  {
  }

  /** The products d[i]·d[i + lag] of the terms lag apart, for every i whose
      partner is still inside the sequence. */
  function LaggedProducts(d: seq<real>, lag: nat): seq<real>
    requires lag <= |d|
  {
    seq(|d| - lag, i requires 0 <= i < |d| - lag => d[i] * d[i + lag])
  }

  /** The autocovariance at a lag: the lagged products of the deviations from
      the mean, summed and divided by the full length n (not by n − lag). */
  function Autocovariance(v: seq<real>, lag: nat): real
    requires lag < |v|
  {
    Sum(LaggedProducts(Deviations(v, Mean(v)), lag)) / (|v| as real)
  }

  /** Covariance over variance, with 0 in place of the quotient when the
      variance is exactly zero. */
  function CorrelationOf(covariance: real, variance: real): real
  {
    if variance == 0.0 then 0.0 else covariance / variance
  }

  /** The autocorrelation of v at a lag. */
  function Correlation(v: seq<real>, lag: nat): real
    requires lag < |v|
  {
    CorrelationOf(Autocovariance(v, lag), Variance(v))
  }

  /** The last lag reported: the smaller of maxLag and n − 1. */
  function LastLag(n: nat, maxLag: int): (r: int)
    ensures r <= maxLag && r <= n - 1
    ensures r == maxLag || r == n - 1
  {
    if maxLag < n - 1 then maxLag else n - 1
  }

  /** The number of lags 0, 1, …, min(maxLag, n − 1) that are reported. */
  function LagCount(n: nat, maxLag: int): (r: nat)
    ensures r <= n
    ensures r == 0 <==> n == 0 || maxLag < 0
  {
    var last := LastLag(n, maxLag);
    if last < 0 then 0 else last + 1
  }

  /** The correlogram of `values` for lags 0 through min(maxLag, n − 1). */
  method CalculateACF(values: seq<real>, maxLag: int) returns (results: seq<AcfEntry>)
    ensures |results| == LagCount(|values|, maxLag)
    ensures forall k :: 0 <= k < |results| ==> results[k] == AcfEntry(k, Correlation(values, k))
  {
    var n := |values|;
    // with no values the source's mean and variance are NaN, but no lag is
    // reported, so the placeholders below are never read
    var mean := if n > 0 then Mean(values) else 0.0;
    var variance := if n > 0 then Variance(values) else 0.0;
    var last := LastLag(n, maxLag);
    results := [];
    var lag := 0;
    while lag <= last
      invariant 0 <= lag == |results|
      invariant last < 0 ==> lag == 0
      invariant last >= 0 ==> lag <= last + 1
      invariant forall k :: 0 <= k < |results| ==> results[k] == AcfEntry(k, Correlation(values, k))
    {
      var covariance := LaggedSum(values, mean, lag);
      covariance := covariance / (n as real);
      results := results + [AcfEntry(lag, CorrelationOf(covariance, variance))];
      lag := lag + 1;
    }
  }

  /** Σ (values[i] − mean)·(values[i + lag] − mean) over i < n − lag. */
  method LaggedSum(values: seq<real>, mean: real, lag: nat) returns (acc: real)
    requires lag < |values|
    ensures acc == Sum(LaggedProducts(Deviations(values, mean), lag))
  {
    ghost var terms := LaggedProducts(Deviations(values, mean), lag);
    acc := 0.0;
    var i := 0;
    while i < |values| - lag
      invariant 0 <= i <= |values| - lag
      invariant acc == SumTo(terms, i)
    {
      acc := acc + (values[i] - mean) * (values[i + lag] - mean);
      i := i + 1;
    }
  }

  /** A series with variance correlates perfectly with itself at lag 0. */
  lemma LagZeroIsOne(v: seq<real>)
    requires |v| > 0 && Variance(v) != 0.0
    ensures Correlation(v, 0) == 1.0
  {
    var d := Deviations(v, Mean(v));
    assert LaggedProducts(d, 0) == Squares(d);
    assert Autocovariance(v, 0) == Variance(v);
    SelfRatio(Variance(v));
  }

  /** A non-zero number divided by itself is one. */
  lemma SelfRatio(x: real)
    requires x != 0.0
    ensures x / x == 1.0
  {
  }

  /** A constant series has no variance and zero autocorrelation at every lag. */
  lemma ConstantSeries(v: seq<real>, lag: nat)
    requires lag < |v|
    requires forall i :: 0 <= i < |v| ==> v[i] == v[0]
    ensures Variance(v) == 0.0 && Correlation(v, lag) == 0.0
  {
    ConstantMean(v);
    var d := Deviations(v, Mean(v));
    assert forall i :: 0 <= i < |d| ==> d[i] == 0.0;
    SumOfSquaresZero(d, |d|);
  }

  /** The variance vanishes exactly for a constant series, and then every
      autocorrelation is reported as 0. */
  lemma VarianceZeroIffConstant(v: seq<real>)
    requires |v| > 0
    ensures Variance(v) == 0.0 <==> forall i :: 0 <= i < |v| ==> v[i] == v[0]
    ensures Variance(v) == 0.0 ==> forall lag :: 0 <= lag < |v| ==> Correlation(v, lag) == 0.0
  {
    if forall i :: 0 <= i < |v| ==> v[i] == v[0] {
      ConstantSeries(v, 0);
    } else {
      var i :| 0 <= i < |v| && v[i] != v[0];
      var m := Mean(v);
      var k := if v[i] != m then i else 0;
      assert Deviations(v, m)[k] != 0.0;
      SumOfSquaresPositive(Deviations(v, m), k);
      PositiveRatio(Sum(Squares(Deviations(v, m))), |v| as real);
    }
  }

  /** A positive number over a positive number is positive. */
  lemma PositiveRatio(s: real, n: real)
    requires s > 0.0 && n > 0.0
    ensures s / n > 0.0
  {
  }

  /** Every autocorrelation lies in [−1, 1]. */
  lemma CorrelationBounded(v: seq<real>, lag: nat)
    requires lag < |v|
    ensures -1.0 <= Correlation(v, lag) <= 1.0
  {
    if Variance(v) != 0.0 {
      var d := Deviations(v, Mean(v));
      var s, t := Sum(LaggedProducts(d, lag)), Sum(Squares(d));
      var n := |v| as real;
      LaggedBound(d, lag);
      SumOfSquaresNonNeg(d);
      ScaledRatio(s, t, n);
      RatioBounded(s, t);
    }
  }

  /** The lagged products of d sum to at most the sum of squares of d in
      absolute value (the Cauchy–Schwarz bound for a shifted copy). */
  lemma LaggedBound(d: seq<real>, lag: nat)
    requires lag <= |d|
    ensures -Sum(Squares(d)) <= Sum(LaggedProducts(d, lag)) <= Sum(Squares(d))
  {
    PairedBound(d, lag);
    PairedTotal(d, lag);
  }

  /** The squares of the two partners of every lagged product, added. */
  function PairedSquares(d: seq<real>, lag: nat): seq<real>
    requires lag <= |d|
  {
    seq(|d| - lag, i requires 0 <= i < |d| - lag => Squares(d)[i] + Squares(d)[i + lag])
  }

  /** Twice a lagged sum is bounded by the paired squares in absolute value. */
  lemma PairedBound(d: seq<real>, lag: nat)
    requires lag <= |d|
    ensures -Sum(PairedSquares(d, lag)) <= 2.0 * Sum(LaggedProducts(d, lag))
    ensures 2.0 * Sum(LaggedProducts(d, lag)) <= Sum(PairedSquares(d, lag))
  {
    var m := |d| - lag;
    var p, h := LaggedProducts(d, lag), PairedSquares(d, lag);
    var up := seq(m, i requires 0 <= i < m => 2.0 * p[i]);
    var down := seq(m, i requires 0 <= i < m => -2.0 * p[i]);
    forall i | 0 <= i < m
      ensures up[i] <= h[i] && down[i] <= h[i]
    {
      PairBound(d[i], d[i + lag], p[i], Squares(d)[i], Squares(d)[i + lag]);
    }
    SumScale(p, up, 2.0, m);
    SumScale(p, down, -2.0, m);
    SumMono(up, h, m);
    SumMono(down, h, m);
  }

  /** The paired squares sum to at most twice the sum of squares. */
  lemma PairedTotal(d: seq<real>, lag: nat)
    requires lag <= |d|
    ensures Sum(PairedSquares(d, lag)) <= 2.0 * Sum(Squares(d))
  {
    var sq := Squares(d);
    var m := |d| - lag;
    SumAdd(sq, sq[lag..], PairedSquares(d, lag), m);
    SquaresNonNeg(d);
    PrefixAtMostTotal(sq, m);
    SuffixAtMostTotal(sq, lag);
  }

  /** For reals p and q, |2pq| ≤ p² + q². */
  lemma PairBound(p: real, q: real, pq: real, pp: real, qq: real)
    requires pq == p * q && pp == p * p && qq == q * q
    ensures 2.0 * pq <= pp + qq && -2.0 * pq <= pp + qq
  {
    var dm, dp := p - q, p + q;
    SquareNonNeg(dm * dm, dm);
    SquareNonNeg(dp * dp, dp);
    assert dm * dm == pp - 2.0 * pq + qq;
    assert dp * dp == pp + 2.0 * pq + qq;
  }

  /** A quotient whose numerator is bounded by its positive denominator lies in
      [−1, 1]. */
  lemma RatioBounded(s: real, t: real)
    requires t > 0.0 && -t <= s <= t
    ensures -1.0 <= s / t <= 1.0
  {
    assert s / t * t == s;
  }

  /** Dividing numerator and denominator by the same n leaves the quotient. */
  lemma ScaledRatio(s: real, t: real, n: real)
    requires n > 0.0 && t != 0.0
    ensures (s / n) / (t / n) == s / t
  {
  }
}
