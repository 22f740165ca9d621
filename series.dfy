/** Finite sums over sequences of reals, and the optional slot that stands for
    the `null` entries of a time series (the edges of the trend and residual). */
module Series {

  /** A slot that is either empty (`null`) or holds a number. */
  datatype Option<T> = None | Some(value: T)

  /** The sum of the first k elements of s, accumulated left to right. */
  function SumTo(s: seq<real>, k: nat): real
    requires k <= |s|
  {
    if k == 0 then 0.0 else SumTo(s, k - 1) + s[k - 1]
  }

  /** The sum of all elements of s. */
  function Sum(s: seq<real>): real
  {
    SumTo(s, |s|)
  }

  /** The arithmetic mean of a non-empty sequence. */
  function Mean(s: seq<real>): real
    requires |s| > 0
  {
    Sum(s) / (|s| as real)
  }

  /** The element-wise products x[i] * y[i]. */
  function Products(x: seq<real>, y: seq<real>): seq<real>
    requires |x| == |y|
  {
    seq(|x|, i requires 0 <= i < |x| => x[i] * y[i])
  }

  /** The element-wise squares s[i] * s[i]. */
  function Squares(s: seq<real>): seq<real>
  {
    Products(s, s)
  }

  /** The deviations s[i] - c of every element from a centre c. */
  function Deviations(s: seq<real>, c: real): seq<real>
  {
    seq(|s|, i requires 0 <= i < |s| => s[i] - c)
  }

  /** A sum follows a pointwise affine relation between two sequences. */
  lemma {:induction false} SumAffine(s: seq<real>, t: seq<real>, a: real, b: real, k: nat)
    requires k <= |s| && k <= |t|
    requires forall i :: 0 <= i < k ==> t[i] == a * s[i] + b
    ensures SumTo(t, k) == a * SumTo(s, k) + (k as real) * b
  {
    if k > 0 {
      SumAffine(s, t, a, b, k - 1);
      calc {
        SumTo(t, k);
        SumTo(t, k - 1) + t[k - 1];
        a * SumTo(s, k - 1) + ((k - 1) as real) * b + (a * s[k - 1] + b);
        a * (SumTo(s, k - 1) + s[k - 1]) + (k as real) * b;
      }
    }
  }

  /** Adding a constant c to every term adds k·c to the sum of k terms. */
  lemma {:induction false} SumShift(s: seq<real>, t: seq<real>, c: real, k: nat)
    requires k <= |s| && k <= |t|
    requires forall i :: 0 <= i < k ==> t[i] == s[i] + c
    ensures SumTo(t, k) == SumTo(s, k) + (k as real) * c
  {
    if k > 0 {
      SumShift(s, t, c, k - 1);
    }
  }

  /** A sum follows a pointwise linear combination of two sequences. */
  lemma {:induction false} SumCombine(s: seq<real>, t: seq<real>, u: seq<real>, a: real, b: real, k: nat)
    requires k <= |s| && k <= |t| && k <= |u|
    requires forall i :: 0 <= i < k ==> u[i] == a * s[i] + b * t[i]
    ensures SumTo(u, k) == a * SumTo(s, k) + b * SumTo(t, k)
  {
    if k > 0 {
      SumCombine(s, t, u, a, b, k - 1);
      calc {
        SumTo(u, k);
        SumTo(u, k - 1) + u[k - 1];
        a * SumTo(s, k - 1) + b * SumTo(t, k - 1) + (a * s[k - 1] + b * t[k - 1]);
        a * (SumTo(s, k - 1) + s[k - 1]) + b * (SumTo(t, k - 1) + t[k - 1]);
      }
    }
  }

  /** k terms that all equal c sum to k·c. */
  lemma {:induction false} SumOfConstant(s: seq<real>, c: real, k: nat)
    requires k <= |s|
    requires forall i :: 0 <= i < |s| ==> s[i] == c
    ensures SumTo(s, k) == (k as real) * c
  {
    if k > 0 {
      SumOfConstant(s, c, k - 1);
    }
  }

  /** The mean of a constant series is its value. */
  lemma ConstantMean(v: seq<real>)
    requires |v| > 0
    requires forall i :: 0 <= i < |v| ==> v[i] == v[0]
    ensures Mean(v) == v[0]
  {
    SumOfConstant(v, v[0], |v|);
  }

  /** A mean of terms that all lie between lo and hi lies between lo and hi. */
  lemma MeanBounds(s: seq<real>, lo: real, hi: real)
    requires |s| > 0
    requires forall i :: 0 <= i < |s| ==> lo <= s[i] <= hi
    ensures lo <= Mean(s) <= hi
  {
    var n := |s|;
    var low, high := seq(n, _ => lo), seq(n, _ => hi);
    SumMono(low, s, n);
    SumMono(s, high, n);
    SumOfConstant(low, lo, n);
    SumOfConstant(high, hi, n);
    assert (n as real) * lo <= Sum(s) <= (n as real) * hi;
    QuotientBounds(Sum(s), n as real, lo, hi);
  }

  /** n·lo ≤ t ≤ n·hi with n > 0 gives lo ≤ t / n ≤ hi. */
  lemma QuotientBounds(t: real, n: real, lo: real, hi: real)
    requires n > 0.0 && n * lo <= t <= n * hi
    ensures lo <= t / n <= hi
  {
    assert t / n * n == t;
  }

  /** The sum of pointwise sums is the sum of the two sums. */
  lemma {:induction false} SumAdd(s: seq<real>, t: seq<real>, u: seq<real>, k: nat)
    requires k <= |s| && k <= |t| && k <= |u|
    requires forall i :: 0 <= i < k ==> u[i] == s[i] + t[i]
    ensures SumTo(u, k) == SumTo(s, k) + SumTo(t, k)
  {
    if k > 0 {
      SumAdd(s, t, u, k - 1);
    }
  }

  /** Adding c times the terms of t to those of s adds c times the sum of t. */
  lemma {:induction false} SumAddScaled(s: seq<real>, t: seq<real>, u: seq<real>, c: real, k: nat)
    requires k <= |s| && k <= |t| && k <= |u|
    requires forall i :: 0 <= i < k ==> u[i] == s[i] + c * t[i]
    ensures SumTo(u, k) == SumTo(s, k) + c * SumTo(t, k)
  {
    if k > 0 {
      SumAddScaled(s, t, u, c, k - 1);
    }
  }

  /** The terms s[i] + c·t[i]. */
  function AddScaled(s: seq<real>, t: seq<real>, c: real): (u: seq<real>)
    requires |s| == |t|
    ensures |u| == |s|
  {
    seq(|s|, i requires 0 <= i < |s| => s[i] + c * t[i])
  }

  /** The sum of s + c·t is Σs + c·Σt. */
  lemma SumOfAddScaled(s: seq<real>, t: seq<real>, c: real)
    requires |s| == |t|
    ensures Sum(AddScaled(s, t, c)) == Sum(s) + c * Sum(t)
  {
    SumAddScaled(s, t, AddScaled(s, t, c), c, |s|);
  }

  /** Sums are monotone in their terms. */
  lemma {:induction false} SumMono(s: seq<real>, t: seq<real>, k: nat)
    requires k <= |s| && k <= |t|
    requires forall i :: 0 <= i < k ==> s[i] <= t[i]
    ensures SumTo(s, k) <= SumTo(t, k)
  {
    if k > 0 {
      SumMono(s, t, k - 1);
    }
  }

  /** Over non-negative terms, a longer prefix has a sum at least as large, and
      every prefix sum is non-negative. */
  lemma {:induction false} SumNonNegPrefix(s: seq<real>, j: nat, k: nat)
    requires j <= k <= |s|
    requires forall i :: 0 <= i < |s| ==> 0.0 <= s[i]
    ensures 0.0 <= SumTo(s, j) <= SumTo(s, k)
  {
    if j < k {
      SumNonNegPrefix(s, j, k - 1);
    } else if j > 0 {
      SumNonNegPrefix(s, j - 1, j - 1);
    }
  }

  /** Over non-negative terms, the total is at least any single term. */
  lemma SumAtLeastTerm(s: seq<real>, j: nat)
    requires j < |s|
    requires forall i :: 0 <= i < |s| ==> 0.0 <= s[i]
    ensures 0.0 <= s[j] <= Sum(s)
  {
    SumNonNegPrefix(s, j, j);
    SumNonNegPrefix(s, j + 1, |s|);
  }

  /** Over non-negative terms, a prefix sums to at most the total. */
  lemma PrefixAtMostTotal(s: seq<real>, k: nat)
    requires k <= |s|
    requires forall i :: 0 <= i < |s| ==> 0.0 <= s[i]
    ensures SumTo(s, k) <= Sum(s)
  {
    SumNonNegPrefix(s, k, |s|);
  }

  /** Over non-negative terms, a suffix sums to at most the total. */
  lemma SuffixAtMostTotal(s: seq<real>, k: nat)
    requires k <= |s|
    requires forall i :: 0 <= i < |s| ==> 0.0 <= s[i]
    ensures Sum(s[k..]) <= Sum(s)
  {
    SumSplit(s, k, |s|);
    SumNonNegPrefix(s, k, k);
  }

  /** Squares are non-negative, so a sum of squares is too. */
  lemma SumOfSquaresNonNeg(s: seq<real>)
    ensures 0.0 <= Sum(Squares(s))
  {
    SquaresNonNeg(s);
    SumNonNegPrefix(Squares(s), |s|, |s|);
  }

  /** The square of a non-zero real is positive. */
  lemma SquarePositive(sq: real, v: real)
    requires sq == v * v && v != 0.0
    ensures sq > 0.0
  {
    assert sq / v == v;
  }

  /** A square is non-negative. */
  lemma SquareNonNeg(sq: real, v: real)
    requires sq == v * v
    ensures sq >= 0.0
  {
    if v != 0.0 {
      SquarePositive(sq, v);
    }
  }

  /** Every element of Squares(s) is non-negative. */
  lemma SquaresNonNeg(s: seq<real>)
    ensures forall i :: 0 <= i < |s| ==> 0.0 <= Squares(s)[i]
  {
    forall i | 0 <= i < |s|
      ensures 0.0 <= Squares(s)[i]
    {
      SquareNonNeg(Squares(s)[i], s[i]);
    }
  }

  /** A sum of squares with one non-zero term is positive. */
  lemma SumOfSquaresPositive(s: seq<real>, k: nat)
    requires k < |s| && s[k] != 0.0
    ensures Sum(Squares(s)) > 0.0
  {
    var sq := Squares(s);
    SquarePositive(sq[k], s[k]);
    SquaresNonNeg(s);
    SumAtLeastTerm(sq, k);
  }

  /** A sum of squares of zeros is zero. */
  lemma {:induction false} SumOfSquaresZero(s: seq<real>, k: nat)
    requires k <= |s|
    requires forall i :: 0 <= i < |s| ==> s[i] == 0.0
    ensures SumTo(Squares(s), k) == 0.0
  {
    if k > 0 {
      SumOfSquaresZero(s, k - 1);
      assert Squares(s)[k - 1] == 0.0 * 0.0;
    }
  }

  /** Scaling every term by a scales the sum by a. */
  lemma {:induction false} SumScale(s: seq<real>, t: seq<real>, a: real, k: nat)
    requires k <= |s| && k <= |t|
    requires forall i :: 0 <= i < k ==> t[i] == a * s[i]
    ensures SumTo(t, k) == a * SumTo(s, k)
  {
    if k > 0 {
      SumScale(s, t, a, k - 1);
    }
  }

  /** A sum splits at any point k into the prefix before k and the suffix from k. */
  lemma {:induction false} SumSplit(s: seq<real>, k: nat, j: nat)
    requires k <= j <= |s|
    ensures SumTo(s, j) == SumTo(s, k) + SumTo(s[k..], j - k)
  {
    if j > k {
      SumSplit(s, k, j - 1);
    }
  }

  /** Sums of two sequences agree on a common prefix. */
  lemma {:induction false} SumSamePrefix(s: seq<real>, t: seq<real>, k: nat)
    requires k <= |s| && k <= |t|
    requires forall i :: 0 <= i < k ==> s[i] == t[i]
    ensures SumTo(s, k) == SumTo(t, k)
  {
    if k > 0 {
      SumSamePrefix(s, t, k - 1);
    }
  }
}
