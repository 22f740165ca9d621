/** The statistics kernel: an ordinary least-squares line through (x, y) pairs,
    giving its slope and the coefficient of determination R². */
module LeastSquares {
  import opened Series

  /** Slope and R² of the fitted line. `None` stands for the non-finite number
      (NaN or an infinity) that a division by zero produces. */
  datatype Fit = Fit(slope: Option<real>, r2: Option<real>)

  /** n·Σx² − (Σx)², the denominator of the closed-form slope, from the sums. */
  function DenominatorOf(n: real, sumX: real, sumXX: real): real
  {
    n * sumXX - sumX * sumX
  }

  /** The closed-form slope (nΣxy − ΣxΣy) / (nΣx² − (Σx)²), from the sums. */
  function SlopeOf(n: real, sumX: real, sumY: real, sumXY: real, sumXX: real): real
    requires DenominatorOf(n, sumX, sumXX) != 0.0
  {
    (n * sumXY - sumX * sumY) / DenominatorOf(n, sumX, sumXX)
  }

  /** The intercept (Σy − slope·Σx) / n, from the sums and the slope. */
  function InterceptOf(n: real, sumX: real, sumY: real, slope: real): real
    requires n != 0.0
  {
    (sumY - slope * sumX) / n
  }

  /** The denominator of the slope for the abscissae x. */
  function Denominator(x: seq<real>): real
  {
    DenominatorOf(|x| as real, Sum(x), Sum(Squares(x)))
  }

  /** The vertical errors y[i] − (slope·x[i] + intercept) of a line. */
  function Errors(x: seq<real>, y: seq<real>, slope: real, intercept: real): seq<real>
    requires |x| == |y|
  {
    seq(|x|, i requires 0 <= i < |x| => y[i] - (slope * x[i] + intercept))
  }

  /** The least-squares slope of the points (x[i], y[i]). */
  function Slope(x: seq<real>, y: seq<real>): real
    requires |x| == |y| && Denominator(x) != 0.0
  {
    SlopeOf(|x| as real, Sum(x), Sum(y), Sum(Products(x, y)), Sum(Squares(x)))
  }

  /** The least-squares intercept of the points (x[i], y[i]). */
  function Intercept(x: seq<real>, y: seq<real>): real
    requires |x| == |y| && |x| > 0 && Denominator(x) != 0.0
  {
    InterceptOf(|x| as real, Sum(x), Sum(y), Slope(x, y))
  }

  /** The residual sum of squares about the fitted line. */
  function ResidualSS(x: seq<real>, y: seq<real>): real
    requires |x| == |y| && |x| > 0 && Denominator(x) != 0.0
  {
    Sum(Squares(Errors(x, y, Slope(x, y), Intercept(x, y))))
  }

  /** The total sum of squares about the mean of y. */
  function TotalSS(y: seq<real>): real
    requires |y| > 0
  {
    Sum(Squares(Deviations(y, Mean(y))))
  }

  /** The closed-form least-squares fit, with (0, 0) for no points. */
  function Regression(x: seq<real>, y: seq<real>): Fit
    requires |x| == |y|
  {
    if |x| == 0 then Fit(Some(0.0), Some(0.0))
    else if Denominator(x) == 0.0 then Fit(None, None)
    else Fit(Some(Slope(x, y)), RSquared(ResidualSS(x, y), TotalSS(y)))
  }

  /** R² = 1 − ssRes / ssTot; when ssTot is zero the quotient is not a finite
      number. */
  function RSquared(ssRes: real, ssTot: real): Option<real>
  {
    if ssTot == 0.0 then None else Some(1.0 - ssRes / ssTot)
  }

  /** The kernel as the source runs it: one pass accumulating the sums, then
      one pass accumulating the residual and total sums of squares. */
  method LinearRegression(x: seq<real>, y: seq<real>) returns (fit: Fit)
    requires |x| == |y|
    ensures fit == Regression(x, y)
    ensures |x| == 0 ==> fit == Fit(Some(0.0), Some(0.0))
  {
    var n := |x|;
    if n == 0 {
      return Fit(Some(0.0), Some(0.0));
    }
    var sumX, sumY, sumXY, sumXX, sumYY := Sums(x, y);
    var denom := DenominatorOf(n as real, sumX, sumXX);
    if denom == 0.0 {
      // the source divides by zero here: slope, intercept and R² are all NaN
      return Fit(None, None);
    }
    var slope := SlopeOf(n as real, sumX, sumY, sumXY, sumXX);
    var intercept := InterceptOf(n as real, sumX, sumY, slope);
    var yMean := sumY / (n as real);
    var ssRes, ssTot := SquaredErrors(x, y, slope, intercept, yMean);
    fit := Fit(Some(slope), RSquared(ssRes, ssTot));
  }

  /** The first pass of the kernel: Σx, Σy, Σxy, Σx² and Σy² (the last is
      accumulated but never used). */
  method Sums(x: seq<real>, y: seq<real>) returns (sumX: real, sumY: real, sumXY: real, sumXX: real, sumYY: real)
    requires |x| == |y|
    ensures sumX == Sum(x) && sumY == Sum(y)
    ensures sumXY == Sum(Products(x, y)) && sumXX == Sum(Squares(x))
    ensures sumYY == Sum(Squares(y))
  {
    sumX, sumY, sumXY, sumXX, sumYY := 0.0, 0.0, 0.0, 0.0, 0.0;
    for i := 0 to |x|
      invariant sumX == SumTo(x, i) && sumY == SumTo(y, i)
      invariant sumXY == SumTo(Products(x, y), i)
      invariant sumXX == SumTo(Squares(x), i) && sumYY == SumTo(Squares(y), i)
    {
      sumX := sumX + x[i];
      sumY := sumY + y[i];
      sumXY := sumXY + x[i] * y[i];
      sumXX := sumXX + x[i] * x[i];
      sumYY := sumYY + y[i] * y[i];
    }
  }

  /** The second pass of the kernel: the squared distances of every y from the
      line and from the mean. */
  method SquaredErrors(x: seq<real>, y: seq<real>, slope: real, intercept: real, yMean: real)
    returns (ssRes: real, ssTot: real)
    requires |x| == |y|
    ensures ssRes == Sum(Squares(Errors(x, y, slope, intercept)))
    ensures ssTot == Sum(Squares(Deviations(y, yMean)))
  {
    ssRes, ssTot := 0.0, 0.0;
    for i := 0 to |x|
      invariant ssRes == SumTo(Squares(Errors(x, y, slope, intercept)), i)
      invariant ssTot == SumTo(Squares(Deviations(y, yMean)), i)
    {
      var yPred := slope * x[i] + intercept;
      SquareAt(Errors(x, y, slope, intercept), i, y[i] - yPred);
      SquareAt(Deviations(y, yMean), i, y[i] - yMean);
      ssRes := ssRes + (y[i] - yPred) * (y[i] - yPred);
      ssTot := ssTot + (y[i] - yMean) * (y[i] - yMean);
    }
  }

  /** The i-th square of s, given the i-th element. */
  lemma SquareAt(s: seq<real>, i: nat, v: real)
    requires i < |s| && s[i] == v
    ensures Squares(s)[i] == v * v
  {
  }

  /** (v − m)² expanded. */
  lemma SquareExpand(d: real, v: real, m: real)
    requires d == v - m
    ensures d * d == v * v + (-2.0 * m) * v + m * m
  {
  }

  /** With m = Σ/n, the sum of squared deviations Σ(v − m)² = q − 2mΣ + n·m²
      is (nq − Σ²)/n, where q is the sum of squares. */
  lemma SpreadAlgebra(n: real, sum: real, sumSq: real, sumLinear: real, sumDev: real, m: real)
    requires n > 0.0 && m == sum / n
    requires sumLinear == sumSq + (-2.0 * m) * sum
    requires sumDev == sumLinear + n * (m * m)
    ensures n * sumSq - sum * sum == n * sumDev
  {
    assert sum == m * n;
  }

  /** The closed-form slope of points on y = a·x + b, in terms of their sums. */
  lemma SlopeAlgebra(n: real, sx: real, sxx: real, sy: real, sxy: real, a: real, b: real)
    requires n * sxx - sx * sx != 0.0
    requires sy == a * sx + n * b && sxy == a * sxx + b * sx
    ensures (n * sxy - sx * sy) / (n * sxx - sx * sx) == a
  {
    assert n * sxy - sx * sy == a * (n * sxx - sx * sx);
  }

  /** The terms x[i]² − 2m·x[i] of the expanded squared deviations. */
  function Expanded(x: seq<real>, m: real): seq<real>
  {
    seq(|x|, i requires 0 <= i < |x| => Squares(x)[i] + (-2.0 * m) * x[i])
  }

  /** Σ(x[i]² − 2m·x[i]) = Σx² − 2m·Σx. */
  lemma SumExpanded(x: seq<real>, m: real)
    ensures Sum(Expanded(x, m)) == Sum(Squares(x)) + (-2.0 * m) * Sum(x)
  {
    SumAddScaled(Squares(x), x, Expanded(x, m), -2.0 * m, |x|);
  }

  /** (x[i] − m)² = (x[i]² − 2m·x[i]) + m². */
  lemma SquaredDeviationAt(x: seq<real>, m: real, i: nat)
    requires i < |x|
    ensures Squares(Deviations(x, m))[i] == Expanded(x, m)[i] + m * m
  {
    var d := Deviations(x, m)[i];
    assert Squares(Deviations(x, m))[i] == d * d && Squares(x)[i] == x[i] * x[i];
    SquareExpand(d, x[i], m);
  }

  /** Σ(x[i] − m)² = Σ(x[i]² − 2m·x[i]) + n·m². */
  lemma SumSquaredDeviations(x: seq<real>, m: real)
    ensures Sum(Squares(Deviations(x, m))) == Sum(Expanded(x, m)) + (|x| as real) * (m * m)
  {
    var dev := Squares(Deviations(x, m));
    var linear := Expanded(x, m);
    forall i | 0 <= i < |x|
      ensures dev[i] == linear[i] + m * m
    {
      SquaredDeviationAt(x, m, i);
    }
    SumShift(linear, dev, m * m, |x|);
  }

  /** The denominator is n times the sum of squared deviations from the mean of x. */
  lemma DenominatorIsSpread(x: seq<real>)
    requires |x| > 0
    ensures Denominator(x) == (|x| as real) * Sum(Squares(Deviations(x, Mean(x))))
  {
    var m := Mean(x);
    SumExpanded(x, m);
    SumSquaredDeviations(x, m);
    SpreadAlgebra(|x| as real, Sum(x), Sum(Squares(x)), Sum(Expanded(x, m)), Sum(Squares(Deviations(x, m))), m);
  }

  /** Two distinct x values make the denominator positive, so the slope is a
      finite number. */
  lemma DenominatorPositive(x: seq<real>, i: nat, j: nat)
    requires i < |x| && j < |x| && x[i] != x[j]
    ensures Denominator(x) > 0.0
  {
    var m := Mean(x);
    var k := if x[i] != m then i else j;
    assert Deviations(x, m)[k] != 0.0;
    SumOfSquaresPositive(Deviations(x, m), k);
    DenominatorIsSpread(x);
    PositiveProduct(|x| as real, Sum(Squares(Deviations(x, m))));
  }

  /** The denominator vanishes exactly when all x values are equal, so a
      line is determined exactly when two x values differ. */
  lemma DenominatorZeroIffConstant(x: seq<real>)
    requires |x| > 0
    ensures Denominator(x) == 0.0 <==> forall i :: 0 <= i < |x| ==> x[i] == x[0]
  {
    if forall i :: 0 <= i < |x| ==> x[i] == x[0] {
      ConstantMean(x);
      SumOfSquaresZero(Deviations(x, Mean(x)), |x|);
      DenominatorIsSpread(x);
    } else {
      var i :| 0 <= i < |x| && x[i] != x[0];
      DenominatorPositive(x, i, 0);
    }
  }

  /** The product of two positive reals is positive. */
  lemma PositiveProduct(a: real, b: real)
    requires a > 0.0 && b > 0.0
    ensures a * b > 0.0
  {
  }

  /** A fitted R², when it is a number, lies in [0, 1]: the least-squares
      line never leaves more squared error than the horizontal line at the
      mean of y. */
  lemma R2InUnitInterval(x: seq<real>, y: seq<real>)
    requires |x| == |y|
    ensures Regression(x, y).r2.Some? ==> 0.0 <= Regression(x, y).r2.value <= 1.0
  {
    if |x| > 0 && Denominator(x) != 0.0 && TotalSS(y) != 0.0 {
      SumOfSquaresNonNeg(Errors(x, y, Slope(x, y), Intercept(x, y)));
      SumOfSquaresNonNeg(Deviations(y, Mean(y)));
      ResidualAtMostTotal(x, y);
      UnitRatio(ResidualSS(x, y), TotalSS(y));
    }
  }

  /** 0 ≤ r ≤ t with t > 0 gives 0 ≤ 1 − r/t ≤ 1. */
  lemma UnitRatio(r: real, t: real)
    requires 0.0 <= r <= t && t > 0.0
    ensures 0.0 <= 1.0 - r / t <= 1.0
  {
    assert r / t * t == r;
  }

  /** The least-squares line leaves at most the total squared deviation of y. */
  lemma ResidualAtMostTotal(x: seq<real>, y: seq<real>)
    requires |x| == |y| && |x| > 0 && Denominator(x) != 0.0
    ensures ResidualSS(x, y) <= TotalSS(y)
  {
    var a := Slope(x, y);
    var d := Denominator(x);
    ResidualDecomposition(x, y);
    SpreadPositive(x);
    DenominatorIsSpread(x);
    PositiveProduct(|x| as real, Sum(Squares(Deviations(x, Mean(x)))));
    SquareNonNeg(a * a, a);
    ScaledAtMost(|x| as real, ResidualSS(x, y), TotalSS(y), (a * a) * d);
  }

  /** n·r = n·t − e with e ≥ 0 and n > 0 gives r ≤ t. */
  lemma ScaledAtMost(n: real, r: real, t: real, e: real)
    requires n > 0.0 && e >= 0.0 && n * r == n * t - e
    ensures r <= t
  {
    assert n * (t - r) == e;
    if t < r {
      PositiveProduct(n, r - t);
    }
  }

  /** The residual sum of squares is the total sum of squares less the part
      the slope explains: n·SSres = n·SStot − slope²·denominator. */
  lemma ResidualDecomposition(x: seq<real>, y: seq<real>)
    requires |x| == |y| && |x| > 0 && Denominator(x) != 0.0
    ensures (|x| as real) * ResidualSS(x, y) ==
            (|x| as real) * TotalSS(y) - (Slope(x, y) * Slope(x, y)) * Denominator(x)
  {
    var n := |x| as real;
    var a, b := Slope(x, y), Intercept(x, y);
    ErrorsExpansion(x, y, a, b);
    DenominatorIsSpread(y);
    ResidualIdentity(n, Sum(x), Sum(y), Sum(Squares(x)), Sum(Products(x, y)), Sum(Squares(y)),
                     a, b, ResidualSS(x, y));
  }

  /** Σ(y − (a·x + b))² written out in the sums syy = Σy², sxy = Σxy, sy = Σy,
      sxx = Σx², sx = Σx over n points. */
  function ExpandedSquares(syy: real, sxy: real, sy: real, sxx: real, sx: real, n: real,
                           a: real, b: real): real
  {
    syy + (-2.0 * a) * sxy + (-2.0 * b) * sy + (a * a) * sxx + (2.0 * (a * b)) * sx + n * (b * b)
  }

  /** The scalar identity behind ResidualDecomposition. */
  lemma ResidualIdentity(n: real, sx: real, sy: real, sxx: real, sxy: real, syy: real,
                         a: real, b: real, r: real)
    requires n > 0.0 && DenominatorOf(n, sx, sxx) != 0.0
    requires a == SlopeOf(n, sx, sy, sxy, sxx) && b == InterceptOf(n, sx, sy, a)
    requires r == ExpandedSquares(syy, sxy, sy, sxx, sx, n, a, b)
    ensures n * r == DenominatorOf(n, sy, syy) - (a * a) * DenominatorOf(n, sx, sxx)
  {
    var d := DenominatorOf(n, sx, sxx);
    QuotientTimes(a, n * sxy - sx * sy, d);
    QuotientTimes(b, sy - a * sx, n);
    ScaledResidual(n, sx, sy, sxx, sxy, syy, a, b, n * b, r);
    SubstituteIntercept(n, sx, sy, sxx, sxy, syy, d, a, n * b);
  }

  /** q = p / d with d ≠ 0 gives q·d = p and d·q = p. */
  lemma QuotientTimes(q: real, p: real, d: real)
    requires d != 0.0 && q == p / d
    ensures q * d == p && d * q == p
  {
  }

  /** The expanded residual sum multiplied through by n, with nb = n·b. */
  lemma ScaledResidual(n: real, sx: real, sy: real, sxx: real, sxy: real, syy: real,
                       a: real, b: real, nb: real, r: real)
    requires nb == n * b
    requires r == ExpandedSquares(syy, sxy, sy, sxx, sx, n, a, b)
    ensures n * r == n * syy - 2.0 * a * (n * sxy) - 2.0 * nb * sy + (a * a) * (n * sxx) + 2.0 * a * nb * sx + nb * nb
  {
  }

  /** Substituting nb = sy − a·sx and a·d = n·sxy − sx·sy. */
  lemma SubstituteIntercept(n: real, sx: real, sy: real, sxx: real, sxy: real, syy: real,
                            d: real, a: real, nb: real)
    requires d == n * sxx - sx * sx
    requires a * d == n * sxy - sx * sy && nb == sy - a * sx
    ensures n * syy - 2.0 * a * (n * sxy) - 2.0 * nb * sy + (a * a) * (n * sxx) + 2.0 * a * nb * sx + nb * nb
            == (n * syy - sy * sy) - (a * a) * d
  {
  }

  /** The squared errors about y = a·x + b, expanded into the sums of y², xy,
      y, x², x and a constant. */
  lemma ErrorsExpansion(x: seq<real>, y: seq<real>, a: real, b: real)
    requires |x| == |y|
    ensures Sum(Squares(Errors(x, y, a, b))) ==
            ExpandedSquares(Sum(Squares(y)), Sum(Products(x, y)), Sum(y),
                            Sum(Squares(x)), Sum(x), |x| as real, a, b)
  {
    ErrorsAboveCombination(x, y, a, b);
    CombinationSum(x, y, -2.0 * a, -2.0 * b, a * a, 2.0 * (a * b));
  }

  /** The squared errors sum to the combination's sum plus n·b². */
  lemma ErrorsAboveCombination(x: seq<real>, y: seq<real>, a: real, b: real)
    requires |x| == |y|
    ensures Sum(Squares(Errors(x, y, a, b))) ==
            Sum(Combination(x, y, -2.0 * a, -2.0 * b, a * a, 2.0 * (a * b))) + (|x| as real) * (b * b)
  {
    var terms := Combination(x, y, -2.0 * a, -2.0 * b, a * a, 2.0 * (a * b));
    var e := Squares(Errors(x, y, a, b));
    assert |terms| == |e| == |x|;
    PointwiseErrors(x, y, a, b);
    SumShift(terms, e, b * b, |x|);
  }

  /** Each squared error is its share of the combination plus b². */
  lemma PointwiseErrors(x: seq<real>, y: seq<real>, a: real, b: real)
    requires |x| == |y|
    ensures forall i :: 0 <= i < |x| ==>
              Squares(Errors(x, y, a, b))[i] ==
              Combination(x, y, -2.0 * a, -2.0 * b, a * a, 2.0 * (a * b))[i] + b * b
  {
    forall i | 0 <= i < |x|
      ensures Squares(Errors(x, y, a, b))[i] ==
              Combination(x, y, -2.0 * a, -2.0 * b, a * a, 2.0 * (a * b))[i] + b * b
    {
      ErrorSquareAt(Squares(Errors(x, y, a, b))[i], Errors(x, y, a, b)[i], x[i], y[i],
                    Squares(x)[i], Products(x, y)[i], Squares(y)[i], a, b);
    }
  }

  /** y² + c1·xy + c2·y + c3·x² + c4·x, point by point. */
  function Combination(x: seq<real>, y: seq<real>, c1: real, c2: real, c3: real, c4: real): seq<real>
    requires |x| == |y|
  {
    AddScaled(AddScaled(AddScaled(AddScaled(Squares(y), Products(x, y), c1), y, c2), Squares(x), c3), x, c4)
  }

  /** The sum of a Combination, one scaled sum at a time. */
  lemma CombinationSum(x: seq<real>, y: seq<real>, c1: real, c2: real, c3: real, c4: real)
    requires |x| == |y|
    ensures Sum(Combination(x, y, c1, c2, c3, c4)) ==
            Sum(Squares(y)) + c1 * Sum(Products(x, y)) + c2 * Sum(y) + c3 * Sum(Squares(x)) + c4 * Sum(x)
  {
    var u1 := AddScaled(Squares(y), Products(x, y), c1);
    var u2 := AddScaled(u1, y, c2);
    var u3 := AddScaled(u2, Squares(x), c3);
    SumOfAddScaled(Squares(y), Products(x, y), c1);
    SumOfAddScaled(u1, y, c2);
    SumOfAddScaled(u2, Squares(x), c3);
    SumOfAddScaled(u3, x, c4);
  }

  /** (y − (a·x + b))² expanded, less the constant b². */
  lemma ErrorSquareAt(sq: real, e: real, xk: real, yk: real, xx: real, xy: real, yy: real, a: real, b: real)
    requires e == yk - (a * xk + b) && sq == e * e
    requires xx == xk * xk && xy == xk * yk && yy == yk * yk
    ensures sq - b * b == yy + (-2.0 * a) * xy + (-2.0 * b) * yk + (a * a) * xx + (2.0 * (a * b)) * xk
  {
  }

  /** A non-negative factor s of a non-zero product d = n·s with n > 0 is positive. */
  lemma FactorPositive(n: real, s: real, d: real)
    requires n > 0.0 && s >= 0.0 && d == n * s && d != 0.0
    ensures s > 0.0
  {
    assert s == d / n;
  }

  /** A positive quantity scaled by the square of a factor is zero exactly
      when the factor is. */
  lemma ScaledZeroIff(a: real, s: real, t: real)
    requires s > 0.0 && t == (a * a) * s
    ensures t == 0.0 <==> a == 0.0
  {
    var aa := a * a;
    if a == 0.0 {
      assert aa == 0.0;
    } else {
      SquarePositive(aa, a);
      PositiveProduct(aa, s);
    }
  }

  /** The sum of points on y = a·x + b is aΣx + nb. */
  lemma LineSum(x: seq<real>, y: seq<real>, a: real, b: real)
    requires |x| == |y|
    requires forall k :: 0 <= k < |x| ==> y[k] == a * x[k] + b
    ensures Sum(y) == a * Sum(x) + (|x| as real) * b
  {
    SumAffine(x, y, a, b, |x|);
  }

  /** The sum of products of points on y = a·x + b is aΣx² + bΣx. */
  lemma LineProductSum(x: seq<real>, y: seq<real>, a: real, b: real)
    requires |x| == |y|
    requires forall k :: 0 <= k < |x| ==> y[k] == a * x[k] + b
    ensures Sum(Products(x, y)) == a * Sum(Squares(x)) + b * Sum(x)
  {
    forall k | 0 <= k < |x|
      ensures Products(x, y)[k] == a * Squares(x)[k] + b * x[k]
    {
      LineProductAt(x, y, a, b, k);
    }
    SumCombine(Squares(x), x, Products(x, y), a, b, |x|);
  }

  /** x[k]·(a·x[k] + b) = a·x[k]² + b·x[k]. */
  lemma LineProductAt(x: seq<real>, y: seq<real>, a: real, b: real, k: nat)
    requires |x| == |y| && k < |x| && y[k] == a * x[k] + b
    ensures Products(x, y)[k] == a * Squares(x)[k] + b * x[k]
  {
    var xk := x[k];
    assert Products(x, y)[k] == xk * (a * xk + b);
    assert Squares(x)[k] == xk * xk;
  }

  /** The intercept of points on y = a·x + b, in terms of their sums. */
  lemma InterceptAlgebra(n: real, sx: real, sy: real, a: real, b: real)
    requires n > 0.0 && sy == a * sx + n * b
    ensures InterceptOf(n, sx, sy, a) == b
  {
  }

  /** Deviations of points on y = a·x + b from their mean are a times those of x. */
  lemma LineSpread(x: seq<real>, y: seq<real>, a: real, b: real)
    requires |x| == |y| && |x| > 0
    requires forall k :: 0 <= k < |x| ==> y[k] == a * x[k] + b
    requires Mean(y) == a * Mean(x) + b
    ensures TotalSS(y) == (a * a) * Sum(Squares(Deviations(x, Mean(x))))
  {
    var mx, my := Mean(x), Mean(y);
    var dx, dy := Deviations(x, mx), Deviations(y, my);
    forall k | 0 <= k < |x|
      ensures dy[k] == a * dx[k]
    {
      LineDeviation(x[k], y[k], mx, my, a, b);
    }
    ScaledSumOfSquares(dx, dy, a);
  }

  /** Scaling every term by a scales the sum of squares by a². */
  lemma ScaledSumOfSquares(dx: seq<real>, dy: seq<real>, a: real)
    requires |dx| == |dy|
    requires forall k :: 0 <= k < |dx| ==> dy[k] == a * dx[k]
    ensures Sum(Squares(dy)) == (a * a) * Sum(Squares(dx))
  {
    forall k | 0 <= k < |dx|
      ensures Squares(dy)[k] == (a * a) * Squares(dx)[k]
    {
      ScaledSquareAt(dx, dy, a, k);
    }
    SumScale(Squares(dx), Squares(dy), a * a, |dx|);
  }

  /** A point on y = a·x + b deviates from the line's mean a times as far as its
      x deviates from the mean of x. */
  lemma LineDeviation(xk: real, yk: real, mx: real, my: real, a: real, b: real)
    requires yk == a * xk + b && my == a * mx + b
    ensures yk - my == a * (xk - mx)
  {
  }

  /** If dy[k] is a·dx[k] (as it is for the deviations of a line), the square of
      dy[k] is a² times the square of dx[k]. */
  lemma ScaledSquareAt(dx: seq<real>, dy: seq<real>, a: real, k: nat)
    requires k < |dx| && k < |dy| && dy[k] == a * dx[k]
    ensures Squares(dy)[k] == (a * a) * Squares(dx)[k]
  {
    var d := dx[k];
    assert Squares(dy)[k] == (a * d) * (a * d);
    assert Squares(dx)[k] == d * d;
  }

  /** The mean of points on y = a·x + b is a·mean(x) + b. */
  lemma LineMean(n: real, sx: real, sy: real, a: real, b: real)
    requires n > 0.0 && sy == a * sx + n * b
    ensures sy / n == a * (sx / n) + b
  {
  }

  /** Sums that satisfy the identities of points on y = a·x + b give slope a. */
  lemma SlopeOfLineSums(x: seq<real>, y: seq<real>, a: real, b: real)
    requires |x| == |y| && Denominator(x) != 0.0
    requires Sum(y) == a * Sum(x) + (|x| as real) * b
    requires Sum(Products(x, y)) == a * Sum(Squares(x)) + b * Sum(x)
    ensures Slope(x, y) == a
  {
    var n := |x| as real;
    var sx, sxx := Sum(x), Sum(Squares(x));
    var sy, sxy := Sum(y), Sum(Products(x, y));
    var q := (n * sxy - sx * sy) / (n * sxx - sx * sx);
    assert Slope(x, y) == q;
    assert q == a by {
      SlopeAlgebra(n, sx, sxx, sy, sxy, a, b);
    }
  }

  /** Points lying exactly on the line y = a·x + b are fitted with slope a. */
  lemma ExactLineSlope(x: seq<real>, y: seq<real>, a: real, b: real)
    requires |x| == |y|
    requires forall k :: 0 <= k < |x| ==> y[k] == a * x[k] + b
    requires Denominator(x) != 0.0
    ensures Slope(x, y) == a
  {
    LineSum(x, y, a, b);
    LineProductSum(x, y, a, b);
    SlopeOfLineSums(x, y, a, b);
  }

  /** Points lying exactly on the line y = a·x + b are fitted with intercept b. */
  lemma ExactLineIntercept(x: seq<real>, y: seq<real>, a: real, b: real)
    requires |x| == |y| && |x| > 0 && Denominator(x) != 0.0
    requires forall k :: 0 <= k < |x| ==> y[k] == a * x[k] + b
    ensures Intercept(x, y) == b
  {
    var n := |x| as real;
    var sx, sy := Sum(x), Sum(y);
    ExactLineSlope(x, y, a, b);
    assert sy == a * sx + n * b by {
      LineSum(x, y, a, b);
    }
    assert Intercept(x, y) == InterceptOf(n, sx, sy, Slope(x, y));
    InterceptAlgebra(n, sx, sy, a, b);
  }

  /** Points lying exactly on a line leave no residual about the fitted line. */
  lemma ExactLineResidual(x: seq<real>, y: seq<real>, a: real, b: real)
    requires |x| == |y| && |x| > 0 && Denominator(x) != 0.0
    requires forall k :: 0 <= k < |x| ==> y[k] == a * x[k] + b
    ensures ResidualSS(x, y) == 0.0
  {
    ExactLineSlope(x, y, a, b);
    ExactLineIntercept(x, y, a, b);
    OnLineErrors(x, y, a, b);
  }

  /** Points lying on y = a·x + b have no error about that line. */
  lemma OnLineErrors(x: seq<real>, y: seq<real>, a: real, b: real)
    requires |x| == |y|
    requires forall k :: 0 <= k < |x| ==> y[k] == a * x[k] + b
    ensures Sum(Squares(Errors(x, y, a, b))) == 0.0
  {
    SumOfSquaresZero(Errors(x, y, a, b), |x|);
  }

  /** Points lying on y = a·x + b, with x not constant, have a total sum of
      squares that is zero exactly when the line is flat. */
  lemma ExactLineTotal(x: seq<real>, y: seq<real>, a: real, b: real)
    requires |x| == |y| && |x| > 0 && Denominator(x) != 0.0
    requires forall k :: 0 <= k < |x| ==> y[k] == a * x[k] + b
    ensures TotalSS(y) == 0.0 <==> a == 0.0
  {
    LineMeanOf(x, y, a, b);
    LineSpread(x, y, a, b);
    SpreadPositive(x);
    ScaledZeroIff(a, Sum(Squares(Deviations(x, Mean(x)))), TotalSS(y));
  }

  /** The mean of points on y = a·x + b is a·mean(x) + b. */
  lemma LineMeanOf(x: seq<real>, y: seq<real>, a: real, b: real)
    requires |x| == |y| && |x| > 0
    requires forall k :: 0 <= k < |x| ==> y[k] == a * x[k] + b
    ensures Mean(y) == a * Mean(x) + b
  {
    LineSum(x, y, a, b);
    LineMean(|x| as real, Sum(x), Sum(y), a, b);
  }

  /** Abscissae with a non-zero slope denominator are spread about their mean. */
  lemma SpreadPositive(x: seq<real>)
    requires |x| > 0 && Denominator(x) != 0.0
    ensures Sum(Squares(Deviations(x, Mean(x)))) > 0.0
  {
    DenominatorIsSpread(x);
    SumOfSquaresNonNeg(Deviations(x, Mean(x)));
    FactorPositive(|x| as real, Sum(Squares(Deviations(x, Mean(x)))), Denominator(x));
  }

  /** Points lying exactly on the line y = a·x + b are fitted with slope a and,
      unless the line is flat, with R² equal to 1; a flat line leaves the
      total sum of squares at zero, so R² is not a number. */
  lemma ExactLine(x: seq<real>, y: seq<real>, a: real, b: real, i: nat, j: nat)
    requires |x| == |y|
    requires forall k :: 0 <= k < |x| ==> y[k] == a * x[k] + b
    requires i < |x| && j < |x| && x[i] != x[j]
    ensures Regression(x, y).slope == Some(a)
    ensures Regression(x, y).r2 == if a == 0.0 then None else Some(1.0)
  {
    DenominatorPositive(x, i, j);
    ExactLineSlope(x, y, a, b);
    ExactLineResidual(x, y, a, b);
    ExactLineTotal(x, y, a, b);
  }
}
