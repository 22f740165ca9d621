/** Classical additive decomposition of a series into trend, seasonal profile
    and residual, value = trend + seasonal + residual, followed by a
    least-squares line through the defined part of the trend. */
module Decomposition {
  import opened Series
  import opened LeastSquares

  /** One observation; the date is carried through untouched. */
  datatype DataPoint<D> = DataPoint(date: D, value: real)

  /** The outcome of a decomposition. Trend and residual are `None` at the
      edges where the moving-average window does not fit; slope and R² are
      `None` when the least-squares fit divides by zero. */
  datatype DecompositionResult<D> = DecompositionResult(
    original: seq<real>,
    trend: seq<Option<real>>,
    seasonal: seq<real>,
    residual: seq<Option<real>>,
    dates: seq<D>,
    slope: Option<real>,
    rSquared: Option<real>)

  // ---------------------------------------------------------------------
  // Trend: a centred moving average over a window of 2h + 1 points
  // ---------------------------------------------------------------------

  /** Half the width of the moving-average window, ⌊period / 2⌋. */
  function HalfWindow(period: nat): nat
  {
    period / 2
  }

  /** Whether index i is far enough from both ends for its window to fit. */
  predicate HasWindow(n: nat, period: nat, i: int)
  {
    HalfWindow(period) <= i < n - HalfWindow(period)
  }

  /** The contribution of v[j] to the window centred on i: for an even period
      the two end points count half, every other point counts fully. */
  function Term(v: seq<real>, period: nat, i: int, j: nat): real
    requires j < |v|
  {
    var h := HalfWindow(period);
    if period % 2 == 0 then v[j] * (if j == i - h || j == i + h then 0.5 else 1.0)
    else v[j]
  }

  /** The sum of the first k contributions of the window centred on i. */
  function WindowSum(v: seq<real>, period: nat, i: int, k: nat): real
    requires HalfWindow(period) <= i && i - HalfWindow(period) + k <= |v|
  {
    if k == 0 then 0.0
    else WindowSum(v, period, i, k - 1) + Term(v, period, i, i - HalfWindow(period) + k - 1)
  }

  /** The trend at index i: the weighted window sum over the period, or
      nothing where the window does not fit. */
  function TrendAt(v: seq<real>, period: nat, i: nat): Option<real>
    requires period >= 1
  {
    if HasWindow(|v|, period, i)
    then Some(WindowSum(v, period, i, 2 * HalfWindow(period) + 1) / (period as real))
    else None
  }

  /** The trend of the whole series. */
  function Trend(v: seq<real>, period: nat): seq<Option<real>>
    requires period >= 1
  {
    seq(|v|, i requires 0 <= i < |v| => TrendAt(v, period, i))
  }

  /** Fills an array with nothing and then sets every index whose window fits
      to its moving average. */
  method ComputeTrend(values: seq<real>, period: nat) returns (trend: seq<Option<real>>)
    requires period >= 1
    ensures trend == Trend(values, period)
  {
    var n := |values|;
    var slots := new Option<real>[n](_ => None);
    var h := period / 2;
    var i := h;
    while i < n - h
      invariant h <= i
      invariant n - h >= h ==> i <= n - h
      invariant n - h < h ==> i == h
      invariant forall k :: 0 <= k < n ==> slots[k] == if h <= k < i then TrendAt(values, period, k) else None
    {
      var sum := Window(values, period, i);
      slots[i] := Some(sum / (period as real));
      i := i + 1;
    }
    trend := slots[..];
  }

  /** The weighted sum of the window centred on i, one point at a time. */
  method Window(values: seq<real>, period: nat, i: nat) returns (sum: real)
    requires period >= 1 && HasWindow(|values|, period, i)
    ensures sum == WindowSum(values, period, i, 2 * HalfWindow(period) + 1)
  {
    var h := period / 2;
    sum := 0.0;
    var j := i - h;
    if period % 2 == 0 {
      while j <= i + h
        invariant i - h <= j <= i + h + 1
        invariant sum == WindowSum(values, period, i, j - (i - h))
      {
        var weight := if j == i - h || j == i + h then 0.5 else 1.0;
        sum := sum + values[j] * weight;
        j := j + 1;
      }
    } else {
      while j <= i + h
        invariant i - h <= j <= i + h + 1
        invariant sum == WindowSum(values, period, i, j - (i - h))
      {
        sum := sum + values[j];
        j := j + 1;
      }
    }
  }

  /** For an odd period the window sum is the plain sum of the window. */
  lemma {:induction false} OddWindowSum(v: seq<real>, period: nat, i: int, k: nat)
    requires period % 2 == 1
    requires HalfWindow(period) <= i && i - HalfWindow(period) + k <= |v|
    ensures WindowSum(v, period, i, k) ==
              SumTo(v, i - HalfWindow(period) + k) - SumTo(v, i - HalfWindow(period))
  {
    if k > 0 {
      OddWindowSum(v, period, i, k - 1);
    }
  }

  /** For an even period the window sum is the plain sum with the first point
      (and, once reached, the last point) counted half. */
  lemma {:induction false} EvenWindowSum(v: seq<real>, period: nat, i: int, k: nat)
    requires period % 2 == 0 && period >= 2
    requires HalfWindow(period) <= i && i - HalfWindow(period) + k <= |v|
    requires 1 <= k <= 2 * HalfWindow(period) + 1
    ensures var h := HalfWindow(period);
            WindowSum(v, period, i, k) ==
              SumTo(v, i - h + k) - SumTo(v, i - h) - 0.5 * v[i - h]
              - (if k == 2 * h + 1 then 0.5 * v[i + h] else 0.0)
  {
    var h := HalfWindow(period);
    if k > 1 {
      EvenWindowSum(v, period, i, k - 1);
    }
  }

  /** Where it is defined, the trend is the centred moving average of the
      source: for an odd period the mean of the 2h + 1 = period values around
      i; for an even period the sum of the 2h + 1 = period + 1 values around i
      with both ends halved, over the period. */
  lemma TrendIsCenteredAverage(v: seq<real>, period: nat, i: nat)
    requires period >= 1 && HasWindow(|v|, period, i)
    ensures var h := HalfWindow(period);
            var window := v[i - h..i + h + 1];
            TrendAt(v, period, i) ==
              if period % 2 == 1 then Some(Sum(window) / (period as real))
              else Some((Sum(window) - 0.5 * v[i - h] - 0.5 * v[i + h]) / (period as real))
  {
    var h := HalfWindow(period);
    if period % 2 == 1 {
      OddTrendWindow(v, period, h, i);
    } else {
      EvenTrendWindow(v, period, h, i);
    }
  }

  /** TrendIsCenteredAverage for an odd period. */
  lemma OddTrendWindow(v: seq<real>, period: nat, h: nat, i: nat)
    requires period % 2 == 1 && h == HalfWindow(period) && h <= i < |v| - h
    ensures TrendAt(v, period, i) == Some(Sum(v[i - h..i + h + 1]) / (period as real))
  {
    var w := WindowSum(v, period, i, 2 * h + 1);
    assert TrendAt(v, period, i) == Some(w / (period as real));
    WindowAsDifference(v, i - h, i + h + 1);
    OddWindowSum(v, period, i, 2 * h + 1);
  }

  /** TrendIsCenteredAverage for an even period. */
  lemma EvenTrendWindow(v: seq<real>, period: nat, h: nat, i: nat)
    requires period % 2 == 0 && period >= 1 && h == HalfWindow(period) && h <= i < |v| - h
    ensures TrendAt(v, period, i) ==
              Some((Sum(v[i - h..i + h + 1]) - 0.5 * v[i - h] - 0.5 * v[i + h]) / (period as real))
  {
    var w := WindowSum(v, period, i, 2 * h + 1);
    assert TrendAt(v, period, i) == Some(w / (period as real));
    WindowAsDifference(v, i - h, i + h + 1);
    EvenWindowSum(v, period, i, 2 * h + 1);
  }

  // ---------------------------------------------------------------------
  // Seasonal profile: detrend, bucket by phase, average, centre, repeat
  // ---------------------------------------------------------------------

  /** value − trend wherever the trend is defined. */
  function Detrend(v: seq<real>, trend: seq<Option<real>>): (d: seq<Option<real>>)
    requires |v| == |trend|
    ensures |d| == |v|
    ensures forall i :: 0 <= i < |v| ==> (d[i].Some? <==> trend[i].Some?)
    ensures forall i :: 0 <= i < |v| && trend[i].Some? ==> d[i].value + trend[i].value == v[i]
  {
    seq(|v|, i requires 0 <= i < |v| => if trend[i].Some? then Some(v[i] - trend[i].value) else None)
  }

  /** The defined values among d[0..k] whose index has phase p, in index order. */
  function BucketTo(d: seq<Option<real>>, period: nat, p: nat, k: nat): seq<real>
    requires period >= 1 && k <= |d|
  {
    if k == 0 then []
    else BucketTo(d, period, p, k - 1) +
         (if d[k - 1].Some? && (k - 1) % period == p then [d[k - 1].value] else [])
  }

  /** One bucket per phase 0 .. period − 1. */
  function Buckets(d: seq<Option<real>>, period: nat): seq<seq<real>>
    requires period >= 1
  {
    seq(period, p requires 0 <= p < period => BucketTo(d, period, p, |d|))
  }

  /** Appends every defined detrended value to the bucket of its phase. */
  method PhaseBuckets(detrended: seq<Option<real>>, period: nat) returns (buckets: seq<seq<real>>)
    requires period >= 1
    ensures buckets == Buckets(detrended, period)
  {
    var slots := new seq<real>[period](_ => []);
    for i := 0 to |detrended|
      invariant forall p :: 0 <= p < period ==> slots[p] == BucketTo(detrended, period, p, i)
    {
      if detrended[i].Some? {
        slots[i % period] := slots[i % period] + [detrended[i].value];
      }
    }
    buckets := slots[..];
  }

  /** A value is in the bucket of phase p exactly when some defined entry at an
      index of that phase holds it. */
  lemma {:induction false} BucketMembers(d: seq<Option<real>>, period: nat, p: nat, k: nat, x: real)
    requires period >= 1 && k <= |d|
    ensures x in BucketTo(d, period, p, k) <==>
            exists i :: 0 <= i < k && i % period == p && d[i] == Some(x)
  {
    if k > 0 {
      BucketMembers(d, period, p, k - 1, x);
    }
  }

  /** The mean of each bucket, or 0 for an empty one. */
  function PhaseAverages(buckets: seq<seq<real>>): (a: seq<real>)
    ensures |a| == |buckets|
    ensures forall p :: 0 <= p < |buckets| && |buckets[p]| > 0 ==> a[p] == Mean(buckets[p])
    ensures forall p :: 0 <= p < |buckets| && |buckets[p]| == 0 ==> a[p] == 0.0
  {
    seq(|buckets|, p requires 0 <= p < |buckets| =>
      if |buckets[p]| > 0 then Mean(buckets[p]) else 0.0)
  }

  /** The average of a phase that has defined detrended values lies between
      the least and the greatest of them; when they are all equal to c, it is
      c. */
  lemma PhaseAverageBounds(d: seq<Option<real>>, period: nat, p: nat, lo: real, hi: real)
    requires period >= 1 && p < period
    requires exists i :: 0 <= i < |d| && i % period == p && d[i].Some?
    requires forall i :: 0 <= i < |d| && i % period == p && d[i].Some? ==> lo <= d[i].value <= hi
    ensures lo <= PhaseAverages(Buckets(d, period))[p] <= hi
  {
    var bucket := BucketTo(d, period, p, |d|);
    var i :| 0 <= i < |d| && i % period == p && d[i].Some?;
    BucketMembers(d, period, p, |d|, d[i].value);
    forall k | 0 <= k < |bucket|
      ensures lo <= bucket[k] <= hi
    {
      BucketMembers(d, period, p, |d|, bucket[k]);
    }
    MeanBounds(bucket, lo, hi);
  }

  /** A phase without any defined detrended value averages to 0. */
  lemma EmptyPhaseAverage(d: seq<Option<real>>, period: nat, p: nat)
    requires period >= 1 && p < period
    requires forall i :: 0 <= i < |d| && i % period == p ==> d[i].None?
    ensures PhaseAverages(Buckets(d, period))[p] == 0.0
  {
    var bucket := BucketTo(d, period, p, |d|);
    if |bucket| > 0 {
      BucketMembers(d, period, p, |d|, bucket[0]);
      assert false;
    }
  }

  /** The averages shifted by their own mean: the one shift of the averages
      that sums to zero over a cycle, keeping every difference between
      phases. */
  function Centered(averages: seq<real>): (c: seq<real>)
    requires |averages| > 0
    ensures |c| == |averages|
    ensures Sum(c) == 0.0
    ensures forall p :: 0 <= p < |c| ==> c[p] - c[0] == averages[p] - averages[0]
  {
    var mean := Mean(averages);
    var c := seq(|averages|, p requires 0 <= p < |averages| => averages[p] - mean);
    SumShift(averages, c, -mean, |averages|);
    MeanTimesCount(Sum(averages), |averages| as real);
    c
  }

  /** n · (s / n) = s. */
  lemma MeanTimesCount(s: real, n: real)
    requires n > 0.0
    ensures n * (s / n) == s
  {
  }

  /** The profile repeated over n indices: it starts with the profile and
      repeats with period |profile|. */
  function Broadcast(profile: seq<real>, n: nat): (b: seq<real>)
    requires |profile| > 0
    ensures |b| == n
    ensures n <= |profile| ==> b == profile[..n]
    ensures n >= |profile| ==> b[..|profile|] == profile
    ensures forall i :: 0 <= i && i + |profile| < n ==> b[i + |profile|] == b[i]
  {
    var b := seq(n, i requires 0 <= i < n => profile[i % |profile|]);
    RepeatedProfile(profile, b);
    b
  }

  /** A sequence that takes profile[i mod |profile|] at every i starts with the
      profile and repeats with period |profile|. */
  lemma RepeatedProfile(profile: seq<real>, b: seq<real>)
    requires |profile| > 0
    requires forall i :: 0 <= i < |b| ==> b[i] == profile[i % |profile|]
    ensures forall i :: 0 <= i < |profile| && i < |b| ==> b[i] == profile[i]
    ensures forall i :: 0 <= i && i + |profile| < |b| ==> b[i + |profile|] == b[i]
  {
    forall i | 0 <= i < |profile| && i < |b|
      ensures b[i] == profile[i]
    {
      ModUnique(i, |profile|, 0, i);
    }
    forall i | 0 <= i && i + |profile| < |b|
      ensures b[i + |profile|] == b[i]
    {
      ModShift(i, |profile|);
    }
  }

  /** (i + p) mod p = i mod p. */
  lemma ModShift(i: nat, p: nat)
    requires p > 0
    ensures (i + p) % p == i % p
  {
    ModUnique(i + p, p, i / p + 1, i % p);
  }

  /** Euclidean remainders are unique: a = q·p + r with 0 ≤ r < p gives a mod p = r. */
  lemma ModUnique(a: int, p: int, q: int, r: int)
    requires p > 0 && 0 <= r < p && a == q * p + r
    ensures a % p == r
  {
    var q0, r0 := a / p, a % p;
    assert a == q0 * p + r0;
    var k := q - q0;
    assert k * p == r0 - r;
    if k > 0 {
      MulAtLeast(p, k);
    } else if k < 0 {
      MulAtLeast(p, -k);
    }
  }

  /** A positive multiple of p is at least p. */
  lemma MulAtLeast(p: int, k: int)
    requires p > 0 && k > 0
    ensures p * k >= p
  {
  }

  /** Any |profile| consecutive entries of the repeated profile sum to the sum
      of the profile. */
  lemma BroadcastCycleSum(profile: seq<real>, n: nat, s: nat)
    requires |profile| > 0 && s + |profile| <= n
    ensures Sum(Broadcast(profile, n)[s..s + |profile|]) == Sum(profile)
  {
    var b := Broadcast(profile, n);
    assert b[..|profile|] == profile;
    assert forall i :: 0 <= i < |profile| && i < |b| ==> b[i] == b[..|profile|][i];
    PeriodicWindowSum(b, profile, s);
  }

  /** In a sequence that starts with the profile and repeats with period
      |profile|, every window of |profile| entries sums to the sum of the
      profile. */
  lemma {:induction false} PeriodicWindowSum(b: seq<real>, profile: seq<real>, s: nat)
    requires |profile| > 0 && s + |profile| <= |b|
    requires forall i :: 0 <= i < |profile| && i < |b| ==> b[i] == profile[i]
    requires forall i :: 0 <= i && i + |profile| < |b| ==> b[i + |profile|] == b[i]
    ensures Sum(b[s..s + |profile|]) == Sum(profile)
  {
    var p := |profile|;
    if s == 0 {
      SumSamePrefix(b, profile, p);
      WindowAsDifference(b, 0, p);
    } else {
      PeriodicWindowSum(b, profile, s - 1);
      ShiftedWindowSum(b, s, p);
    }
  }

  /** Sliding a window of width p one step along s keeps its sum when the
      entry that leaves equals the entry that enters. */
  lemma ShiftedWindowSum(s: seq<real>, lo: nat, p: nat)
    requires lo >= 1 && lo + p <= |s| && s[lo - 1] == s[lo - 1 + p]
    ensures Sum(s[lo..lo + p]) == Sum(s[lo - 1..lo - 1 + p])
  {
    WindowAsDifference(s, lo, lo + p);
    WindowAsDifference(s, lo - 1, lo - 1 + p);
  }

  /** The sum of s[lo..hi] is the difference of two prefix sums. */
  lemma WindowAsDifference(s: seq<real>, lo: nat, hi: nat)
    requires lo <= hi <= |s|
    ensures Sum(s[lo..hi]) == SumTo(s, hi) - SumTo(s, lo)
  {
    assert |s[lo..hi]| == hi - lo;
    SliceSum(s, lo, hi, hi - lo);
  }

  /** The first k terms of s[lo..hi] sum to SumTo(s, lo + k) − SumTo(s, lo). */
  lemma {:induction false} SliceSum(s: seq<real>, lo: nat, hi: nat, k: nat)
    requires lo <= hi <= |s| && k <= hi - lo
    ensures SumTo(s[lo..hi], k) == SumTo(s, lo + k) - SumTo(s, lo)
  {
    if k > 0 {
      SliceSum(s, lo, hi, k - 1);
    }
  }

  /** value − trend − seasonal wherever the trend is defined. */
  function Residual(v: seq<real>, trend: seq<Option<real>>, seasonal: seq<real>): (r: seq<Option<real>>)
    requires |v| == |trend| == |seasonal|
    ensures |r| == |v|
    ensures forall i :: 0 <= i < |v| ==> (r[i].Some? <==> trend[i].Some?)
    ensures forall i :: 0 <= i < |v| && trend[i].Some? ==> trend[i].value + seasonal[i] + r[i].value == v[i]
  {
    seq(|v|, i requires 0 <= i < |v| =>
      if trend[i].Some? then Some(v[i] - trend[i].value - seasonal[i]) else None)
  }

  // ---------------------------------------------------------------------
  // Slope: least squares through the defined trend points
  // ---------------------------------------------------------------------

  /** The indices below k at which the trend is defined, in increasing order. */
  function DefinedIndicesTo(trend: seq<Option<real>>, k: nat): (r: seq<nat>)
    requires k <= |trend|
    ensures forall m :: 0 <= m < |r| ==> r[m] < k && trend[r[m]].Some?
  {
    if k == 0 then []
    else DefinedIndicesTo(trend, k - 1) + (if trend[k - 1].Some? then [k - 1] else [])
  }

  /** The indices at which the trend is defined. */
  function DefinedIndices(trend: seq<Option<real>>): seq<nat>
  {
    DefinedIndicesTo(trend, |trend|)
  }

  /** The indices as x coordinates. */
  function Xs(idx: seq<nat>): seq<real>
  {
    seq(|idx|, m requires 0 <= m < |idx| => idx[m] as real)
  }

  /** The trend values at the indices, as y coordinates. */
  function Ys(trend: seq<Option<real>>, idx: seq<nat>): seq<real>
    requires forall m :: 0 <= m < |idx| ==> idx[m] < |trend| && trend[idx[m]].Some?
  {
    seq(|idx|, m requires 0 <= m < |idx| => trend[idx[m]].value)
  }

  /** The run of indices lo, lo + 1, …, hi − 1 (empty when hi ≤ lo). */
  function Span(lo: nat, hi: int): seq<nat>
  {
    seq(if hi > lo then hi - lo else 0, m requires m >= 0 => lo + m)
  }

  // ---------------------------------------------------------------------
  // The whole decomposition
  // ---------------------------------------------------------------------

  /** The values of the observations. */
  function Values<D>(data: seq<DataPoint<D>>): seq<real>
  {
    seq(|data|, i requires 0 <= i < |data| => data[i].value)
  }

  /** The dates of the observations. */
  function Dates<D>(data: seq<DataPoint<D>>): seq<D>
  {
    seq(|data|, i requires 0 <= i < |data| => data[i].date)
  }

  /** The seasonal component of v: the centred phase averages of the
      detrended series, repeated along the series. */
  function Seasonal(v: seq<real>, period: nat): seq<real>
    requires period >= 1
  {
    var trend := Trend(v, period);
    Broadcast(Centered(PhaseAverages(Buckets(Detrend(v, trend), period))), |v|)
  }

  /** The decomposition of a series, as a value. */
  function Decomposed<D>(data: seq<DataPoint<D>>, period: nat): DecompositionResult<D>
    requires period >= 1
  {
    var v := Values(data);
    var trend := Trend(v, period);
    var seasonal := Seasonal(v, period);
    var idx := DefinedIndices(trend);
    var fit := Regression(Xs(idx), Ys(trend, idx));
    DecompositionResult(v, trend, seasonal, Residual(v, trend, seasonal), Dates(data), fit.slope, fit.r2)
  }

  /** Decomposes the series step by step: trend, detrended values, phase
      buckets, centred averages, seasonal component, residual, and the
      least-squares line through the trend. */
  method Decompose<D>(data: seq<DataPoint<D>>, period: nat) returns (r: DecompositionResult<D>)
    requires period >= 1
    ensures r == Decomposed(data, period)
  {
    var values := Values(data);
    var dates := Dates(data);
    var trend := ComputeTrend(values, period);
    var detrended := Detrend(values, trend);
    var buckets := PhaseBuckets(detrended, period);
    var averages := PhaseAverages(buckets);
    var seasonal := Broadcast(Centered(averages), |values|);
    var residual := Residual(values, trend, seasonal);
    var idx := DefinedIndices(trend);
    var fit := LinearRegression(Xs(idx), Ys(trend, idx));
    r := DecompositionResult(values, trend, seasonal, residual, dates, fit.slope, fit.r2);
  }

  // ---------------------------------------------------------------------
  // Properties of the decomposition
  // ---------------------------------------------------------------------

  /** The components of the decomposition in terms of the series' values. */
  lemma DecomposedParts<D>(data: seq<DataPoint<D>>, period: nat)
    requires period >= 1
    ensures var v := Values(data);
            var r := Decomposed(data, period);
            var idx := DefinedIndices(Trend(v, period));
            r.trend == Trend(v, period) && r.seasonal == Seasonal(v, period) &&
            r.residual == Residual(v, Trend(v, period), Seasonal(v, period)) &&
            r.slope == Regression(Xs(idx), Ys(Trend(v, period), idx)).slope &&
            r.rSquared == Regression(Xs(idx), Ys(Trend(v, period), idx)).r2
  {
  }

  /** Every component has one entry per observation; the original values and
      dates are passed through; trend and residual are defined exactly where
      the window fits, and there value = trend + seasonal + residual. */
  lemma DecompositionIsAdditive<D>(data: seq<DataPoint<D>>, period: nat)
    requires period >= 1
    ensures var r := Decomposed(data, period);
            var n := |data|;
            |r.original| == |r.trend| == |r.seasonal| == |r.residual| == |r.dates| == n &&
            (forall i :: 0 <= i < n ==> r.original[i] == data[i].value && r.dates[i] == data[i].date) &&
            (forall i :: 0 <= i < n ==> (r.trend[i].Some? <==> HasWindow(n, period, i))) &&
            (forall i :: 0 <= i < n ==> (r.residual[i].Some? <==> r.trend[i].Some?)) &&
            (forall i :: 0 <= i < n && r.trend[i].Some? ==>
               r.original[i] == r.trend[i].value + r.seasonal[i] + r.residual[i].value)
  {
  }

  /** The seasonal component repeats with the period. */
  lemma SeasonalRepeats(v: seq<real>, period: nat, i: nat)
    requires period >= 1 && i + period < |v|
    ensures Seasonal(v, period)[i] == Seasonal(v, period)[i + period]
  {
    var profile := Centered(PhaseAverages(Buckets(Detrend(v, Trend(v, period)), period)));
    assert |profile| == period;
    ModShift(i, period);
  }

  /** Any full cycle of the seasonal component sums to zero. */
  lemma SeasonalCycleSumsToZero(v: seq<real>, period: nat, s: nat)
    requires period >= 1 && s + period <= |v|
    ensures Sum(Seasonal(v, period)[s..s + period]) == 0.0
  {
    var profile := Centered(PhaseAverages(Buckets(Detrend(v, Trend(v, period)), period)));
    var cycle := Broadcast(profile, |v|)[s..s + |profile|];
    assert |profile| == period && Sum(profile) == 0.0;
    assert Seasonal(v, period)[s..s + period] == cycle;
    BroadcastCycleSum(profile, |v|, s);
  }

  /** The trend is defined on the indices h, h + 1, …, n − h − 1. */
  lemma TrendIndices(v: seq<real>, period: nat)
    requires period >= 1
    ensures DefinedIndices(Trend(v, period)) ==
              Span(HalfWindow(period), |v| - HalfWindow(period))
  {
    var h := HalfWindow(period);
    WindowIndices(Trend(v, period), h, |v|, |v|);
  }

  /** The defined indices below k of a sequence defined exactly on [h, n − h). */
  lemma {:induction false} WindowIndices(trend: seq<Option<real>>, h: nat, n: nat, k: nat)
    requires |trend| == n && k <= n
    requires forall i :: 0 <= i < n ==> (trend[i].Some? <==> h <= i < n - h)
    ensures DefinedIndicesTo(trend, k) == Span(h, if k < n - h then k else n - h)
  {
    if k > 0 {
      WindowIndices(trend, h, n, k - 1);
      var prev := Span(h, if k - 1 < n - h then k - 1 else n - h);
      if h <= k - 1 < n - h {
        assert Span(h, k) == prev + [k - 1];
      } else {
        assert Span(h, if k < n - h then k else n - h) == prev;
      }
    }
  }

  /** With at most 2h values no trend point exists, and the slope and R²
      fall back to 0. */
  lemma ShortSeriesFallback<D>(data: seq<DataPoint<D>>, period: nat)
    requires period >= 1 && |data| <= 2 * HalfWindow(period)
    ensures Decomposed(data, period).slope == Some(0.0)
    ensures Decomposed(data, period).rSquared == Some(0.0)
  {
    TrendIndices(Values(data), period);
  }

  /** With exactly 2h + 1 values there is one trend point, through which no
      line is determined: slope and R² are undefined. */
  lemma SinglePointFit<D>(data: seq<DataPoint<D>>, period: nat)
    requires period >= 1 && |data| == 2 * HalfWindow(period) + 1
    ensures Decomposed(data, period).slope == None
    ensures Decomposed(data, period).rSquared == None
  {
    var v := Values(data);
    var h := HalfWindow(period);
    TrendIndices(v, period);
    var x := Xs(DefinedIndices(Trend(v, period)));
    assert |x| == 1;
    DenominatorZeroIffConstant(x);
  }

  /** With at least 2h + 2 values the trend points have distinct x
      coordinates, so the slope is always defined. */
  lemma SlopeDefined<D>(data: seq<DataPoint<D>>, period: nat)
    requires period >= 1 && |data| >= 2 * HalfWindow(period) + 2
    ensures Decomposed(data, period).slope.Some?
  {
    var v := Values(data);
    TrendIndices(v, period);
    var x := Xs(DefinedIndices(Trend(v, period)));
    DenominatorPositive(x, 0, 1);
  }

  /** A straight-line series v[i] = a·i + b (a constant series when a = 0)
      passes through the decomposition unchanged: the trend is the series
      itself wherever the window fits, there is no seasonal component and no
      residual, and the line fitted to the trend has the series' slope, with
      R² = 1, or R² undefined when the line is flat. */
  lemma LinearDecomposition<D>(data: seq<DataPoint<D>>, period: nat, a: real, b: real)
    requires period >= 1
    requires forall i :: 0 <= i < |data| ==> data[i].value == a * (i as real) + b
    ensures forall i :: 0 <= i < |data| ==>
              Decomposed(data, period).trend[i] ==
                if HasWindow(|data|, period, i) then Some(data[i].value) else None
    ensures forall i :: 0 <= i < |data| ==> Decomposed(data, period).seasonal[i] == 0.0
    ensures forall i :: 0 <= i < |data| ==>
              Decomposed(data, period).residual[i] == if HasWindow(|data|, period, i) then Some(0.0) else None
    ensures |data| >= 2 * HalfWindow(period) + 2 ==>
              Decomposed(data, period).slope == Some(a) &&
              Decomposed(data, period).rSquared == if a == 0.0 then None else Some(1.0)
  {
    LinearDecomposedTrend(data, period, a, b);
    LinearDecomposedSeasonal(data, period, a, b);
    LinearDecomposedResidual(data, period, a, b);
    if |data| >= 2 * HalfWindow(period) + 2 {
      LinearDecomposedFit(data, period, a, b);
    }
  }

  /** The trend part of LinearDecomposition. */
  lemma LinearDecomposedTrend<D>(data: seq<DataPoint<D>>, period: nat, a: real, b: real)
    requires period >= 1
    requires forall i :: 0 <= i < |data| ==> data[i].value == a * (i as real) + b
    ensures forall i :: 0 <= i < |data| ==>
              Decomposed(data, period).trend[i] ==
                if HasWindow(|data|, period, i) then Some(data[i].value) else None
  {
    DecomposedParts(data, period);
    LinearValues(data, a, b);
    LinearTrend(Values(data), period, a, b);
  }

  /** The seasonal part of LinearDecomposition. */
  lemma LinearDecomposedSeasonal<D>(data: seq<DataPoint<D>>, period: nat, a: real, b: real)
    requires period >= 1
    requires forall i :: 0 <= i < |data| ==> data[i].value == a * (i as real) + b
    ensures forall i :: 0 <= i < |data| ==> Decomposed(data, period).seasonal[i] == 0.0
  {
    var v := Values(data);
    DecomposedParts(data, period);
    LinearValues(data, a, b);
    LinearTrend(v, period, a, b);
    ExactTrendSeasonal(v, period);
  }

  /** The residual part of LinearDecomposition. */
  lemma LinearDecomposedResidual<D>(data: seq<DataPoint<D>>, period: nat, a: real, b: real)
    requires period >= 1
    requires forall i :: 0 <= i < |data| ==> data[i].value == a * (i as real) + b
    ensures forall i :: 0 <= i < |data| ==>
              Decomposed(data, period).residual[i] == if HasWindow(|data|, period, i) then Some(0.0) else None
  {
    var v := Values(data);
    DecomposedParts(data, period);
    LinearValues(data, a, b);
    LinearTrend(v, period, a, b);
    ExactTrendResidual(v, period);
  }

  /** The fitted line of LinearDecomposition. */
  lemma LinearDecomposedFit<D>(data: seq<DataPoint<D>>, period: nat, a: real, b: real)
    requires period >= 1 && |data| >= 2 * HalfWindow(period) + 2
    requires forall i :: 0 <= i < |data| ==> data[i].value == a * (i as real) + b
    ensures Decomposed(data, period).slope == Some(a)
    ensures Decomposed(data, period).rSquared == if a == 0.0 then None else Some(1.0)
  {
    var v := Values(data);
    DecomposedParts(data, period);
    LinearValues(data, a, b);
    LinearTrendLine(v, period, a, b);
  }

  /** The values of observations on a line lie on that line. */
  lemma LinearValues<D>(data: seq<DataPoint<D>>, a: real, b: real)
    requires forall i :: 0 <= i < |data| ==> data[i].value == a * (i as real) + b
    ensures |Values(data)| == |data|
    ensures forall i :: 0 <= i < |data| ==> Values(data)[i] == data[i].value == a * (i as real) + b
  {
  }

  /** Where the trend reproduces the series, detrending leaves zeros, so the
      seasonal component is zero. */
  lemma ExactTrendSeasonal(v: seq<real>, period: nat)
    requires period >= 1
    requires forall i :: 0 <= i < |v| && Trend(v, period)[i].Some? ==> Trend(v, period)[i].value == v[i]
    ensures forall i :: 0 <= i < |v| ==> Seasonal(v, period)[i] == 0.0
  {
    var d := Detrend(v, Trend(v, period));
    assert forall i :: 0 <= i < |d| && d[i].Some? ==> d[i].value == 0.0;
    var averages := PhaseAverages(Buckets(d, period));
    ZeroAverages(d, period);
    ZeroCentered(averages);
  }

  /** Where the trend reproduces the series, the residual is zero. */
  lemma ExactTrendResidual(v: seq<real>, period: nat)
    requires period >= 1
    requires forall i :: 0 <= i < |v| && Trend(v, period)[i].Some? ==> Trend(v, period)[i].value == v[i]
    ensures forall i :: 0 <= i < |v| ==>
              Residual(v, Trend(v, period), Seasonal(v, period))[i] ==
                if Trend(v, period)[i].Some? then Some(0.0) else None
  {
    ExactTrendSeasonal(v, period);
    ZeroResidual(v, Trend(v, period), Seasonal(v, period));
  }

  /** A trend equal to the values where it is defined, with a zero seasonal
      component, leaves a zero residual. */
  lemma ZeroResidual(v: seq<real>, trend: seq<Option<real>>, seasonal: seq<real>)
    requires |v| == |trend| == |seasonal|
    requires forall i :: 0 <= i < |v| && trend[i].Some? ==> trend[i].value == v[i]
    requires forall i :: 0 <= i < |v| ==> seasonal[i] == 0.0
    ensures forall i :: 0 <= i < |v| ==>
              Residual(v, trend, seasonal)[i] == if trend[i].Some? then Some(0.0) else None
  {
  }

  /** The trend of a straight-line series is the series itself wherever it is
      defined: the centred moving average does not bend a line. */
  lemma LinearTrend(v: seq<real>, period: nat, a: real, b: real)
    requires period >= 1
    requires forall j :: 0 <= j < |v| ==> v[j] == a * (j as real) + b
    ensures forall i :: 0 <= i < |v| ==>
              Trend(v, period)[i] == if HasWindow(|v|, period, i) then Some(v[i]) else None
  {
    forall i | 0 <= i < |v| && HasWindow(|v|, period, i)
      ensures TrendAt(v, period, i) == Some(v[i])
    {
      LinearTrendAt(v, period, i, a, b);
    }
  }

  /** One trend point of a straight-line series. */
  lemma LinearTrendAt(v: seq<real>, period: nat, i: nat, a: real, b: real)
    requires period >= 1 && HasWindow(|v|, period, i)
    requires forall j :: 0 <= j < |v| ==> v[j] == a * (j as real) + b
    ensures TrendAt(v, period, i) == Some(v[i])
  {
    var h := HalfWindow(period);
    var w := WindowSum(v, period, i, 2 * h + 1);
    assert TrendAt(v, period, i) == Some(w / (period as real));
    if period % 2 == 1 {
      OddLinearWindow(v, period, h, i, a, b);
    } else {
      EvenLinearWindow(v, period, h, i, a, b);
    }
    MeanOfScaled(w, period as real, v[i]);
  }

  /** For an odd period 2h + 1, the window of a line weighs in at period · v[i]. */
  lemma OddLinearWindow(v: seq<real>, period: nat, h: nat, i: nat, a: real, b: real)
    requires period % 2 == 1 && h == HalfWindow(period) && period == 2 * h + 1
    requires h <= i < |v| - h
    requires forall j :: 0 <= j < |v| ==> v[j] == a * (j as real) + b
    ensures WindowSum(v, period, i, 2 * h + 1) == (period as real) * v[i]
  {
    OddWindowSum(v, period, i, 2 * h + 1);
    SymmetricWindow(v, a, b, i, h);
  }

  /** For an even period 2h, the window of a line weighs in at period · v[i]. */
  lemma EvenLinearWindow(v: seq<real>, period: nat, h: nat, i: nat, a: real, b: real)
    requires period % 2 == 0 && period >= 2 && h == HalfWindow(period) && period == 2 * h
    requires h <= i < |v| - h
    requires forall j :: 0 <= j < |v| ==> v[j] == a * (j as real) + b
    ensures WindowSum(v, period, i, 2 * h + 1) == (period as real) * v[i]
  {
    var len := 2 * h + 1;
    var total := SumTo(v, i + h + 1) - SumTo(v, i - h);
    SymmetricWindow(v, a, b, i, h);
    MirrorPair(v, a, b, i, h);
    HalvedEnds(total, v[i - h], v[i + h], v[i], h, len, period);
    EvenWindowSum(v, period, i, len);
  }

  /** (2h + 1)·m less half of two end points that add up to 2m is 2h·m, the
      period times m. */
  lemma HalvedEnds(total: real, lo: real, hi: real, m: real, h: nat, len: nat, period: nat)
    requires len == 2 * h + 1 && period == 2 * h && total == (len as real) * m && lo + hi == 2.0 * m
    ensures total - 0.5 * lo - 0.5 * hi == (period as real) * m
  {
  }

  /** On a line, the 2r + 1 points centred on i sum to (2r + 1)·v[i]. */
  lemma {:induction false} SymmetricWindow(v: seq<real>, a: real, b: real, i: nat, r: nat)
    requires r <= i && i + r < |v|
    requires forall j :: 0 <= j < |v| ==> v[j] == a * (j as real) + b
    ensures SumTo(v, i + r + 1) - SumTo(v, i - r) == ((2 * r + 1) as real) * v[i]
  {
    if r > 0 {
      SymmetricWindow(v, a, b, i, r - 1);
      MirrorPair(v, a, b, i, r);
      WidenWindow(SumTo(v, i + r) - SumTo(v, i - r + 1), v[i - r], v[i + r], v[i], r);
    }
  }

  /** Two points of a line mirrored about i average to v[i]. */
  lemma MirrorPair(v: seq<real>, a: real, b: real, i: nat, r: nat)
    requires r <= i && i + r < |v|
    requires forall j :: 0 <= j < |v| ==> v[j] == a * (j as real) + b
    ensures v[i - r] + v[i + r] == 2.0 * v[i]
  {
    var x, d := i as real, r as real;
    assert (i - r) as real == x - d && (i + r) as real == x + d;
    assert a * (x - d) + a * (x + d) == 2.0 * (a * x);
  }

  /** Widening a window of 2r − 1 points summing to (2r − 1)·m by two points
      adding up to 2m gives 2r + 1 points summing to (2r + 1)·m. */
  lemma WidenWindow(inner: real, lo: real, hi: real, m: real, r: nat)
    requires r >= 1 && inner == ((2 * (r - 1) + 1) as real) * m && lo + hi == 2.0 * m
    ensures inner + lo + hi == ((2 * r + 1) as real) * m
  {
  }

  /** (n·c) / n = c. */
  lemma MeanOfScaled(w: real, n: real, c: real)
    requires n > 0.0 && w == n * c
    ensures w / n == c
  {
  }

  /** Phase averages of entries that are all zero are zero. */
  lemma ZeroAverages(d: seq<Option<real>>, period: nat)
    requires period >= 1
    requires forall i :: 0 <= i < |d| && d[i].Some? ==> d[i].value == 0.0
    ensures forall p :: 0 <= p < period ==> PhaseAverages(Buckets(d, period))[p] == 0.0
  {
    forall p | 0 <= p < period
      ensures PhaseAverages(Buckets(d, period))[p] == 0.0
    {
      ZeroBucket(d, period, p);
    }
  }

  /** Centring zeros gives zeros. */
  lemma ZeroCentered(averages: seq<real>)
    requires |averages| > 0
    requires forall p :: 0 <= p < |averages| ==> averages[p] == 0.0
    ensures forall p :: 0 <= p < |averages| ==> Centered(averages)[p] == 0.0
  {
    SumOfConstant(averages, 0.0, |averages|);
  }

  /** The buckets of a series whose defined entries are all zero have mean zero. */
  lemma ZeroBucket(d: seq<Option<real>>, period: nat, p: nat)
    requires period >= 1 && p < period
    requires forall i :: 0 <= i < |d| && d[i].Some? ==> d[i].value == 0.0
    ensures PhaseAverages(Buckets(d, period))[p] == 0.0
  {
    var bucket := BucketTo(d, period, p, |d|);
    forall k | 0 <= k < |bucket|
      ensures bucket[k] == 0.0
    {
      BucketMembers(d, period, p, |d|, bucket[k]);
    }
    SumOfConstant(bucket, 0.0, |bucket|);
  }

  /** The trend points of a straight-line series lie on that line, so the
      fitted slope is the line's slope. */
  lemma LinearTrendLine(v: seq<real>, period: nat, a: real, b: real)
    requires period >= 1 && |v| >= 2 * HalfWindow(period) + 2
    requires forall j :: 0 <= j < |v| ==> v[j] == a * (j as real) + b
    ensures var trend := Trend(v, period);
            var idx := DefinedIndices(trend);
            Regression(Xs(idx), Ys(trend, idx)) == Fit(Some(a), if a == 0.0 then None else Some(1.0))
  {
    var trend := Trend(v, period);
    LinearTrend(v, period, a, b);
    TrendIndices(v, period);
    var idx := DefinedIndices(trend);
    var x, y := Xs(idx), Ys(trend, idx);
    assert forall k :: 0 <= k < |x| ==> y[k] == a * x[k] + b;
    ExactLine(x, y, a, b, 0, 1);
  }
}
