/** Sums, means and variances over exact reals, shared by the regression
    program and the series analysis. Floating-point rounding is not modelled. */
module Stats {

  /** The left-to-right sum, in the order the source's loops accumulate. */
  function Sum(s: seq<real>): real
  {
    if |s| == 0 then 0.0 else Sum(s[..|s| - 1]) + s[|s| - 1]
  }

  /** Extending a sequence by one element adds that element to its sum;
      stated element-wise so that no sequence equality is needed. */
  lemma SumExtend(q: seq<real>, p: seq<real>, v: real)
    requires |q| == |p| + 1 && q[|p|] == v
    requires forall k :: 0 <= k < |p| ==> q[k] == p[k]
    ensures Sum(q) == Sum(p) + v
  {
    assert q[..|p|] == p;
  }

  /** Every element equals every other one (vacuous for fewer than two). */
  predicate AllEqual(s: seq<real>)
  {
    forall i, j :: 0 <= i < |s| && 0 <= j < |s| ==> s[i] == s[j]
  }

  /** A sum of a constant sequence is its length times the constant. */
  lemma {:induction false} SumConstant(s: seq<real>, c: real)
    requires forall i :: 0 <= i < |s| ==> s[i] == c
    ensures Sum(s) == |s| as real * c
  {
    if |s| > 0 {
      SumConstant(s[..|s| - 1], c);
    }
  }

  /** A sum of non-negative terms is non-negative, and zero exactly when
      every term is zero. */
  lemma {:induction false} SumNonNegative(s: seq<real>)
    requires forall i :: 0 <= i < |s| ==> s[i] >= 0.0
    ensures Sum(s) >= 0.0
    ensures Sum(s) == 0.0 <==> forall i :: 0 <= i < |s| ==> s[i] == 0.0
  {
    if |s| > 0 {
      var init := s[..|s| - 1];
      SumNonNegative(init);
      if Sum(s) == 0.0 {
        forall i | 0 <= i < |s| ensures s[i] == 0.0 {
          if i < |s| - 1 { assert s[i] == init[i]; }
        }
      }
    }
  }

  /** Linearity: termwise a·u + b·v sums to a·Σu + b·Σv. */
  lemma {:induction false} SumLinear(r: seq<real>, u: seq<real>, v: seq<real>, a: real, b: real)
    requires |r| == |u| == |v|
    requires forall i :: 0 <= i < |r| ==> r[i] == a * u[i] + b * v[i]
    ensures Sum(r) == a * Sum(u) + b * Sum(v)
  {
    if |r| > 0 {
      var k := |r| - 1;
      SumLinear(r[..k], u[..k], v[..k], a, b);
    }
  }

  /** Termwise a·u + b sums to a·Σu + n·b. */
  lemma {:induction false} SumAffine(r: seq<real>, u: seq<real>, a: real, b: real, n: real)
    requires |r| == |u| && n == |u| as real
    requires forall i :: 0 <= i < |r| ==> r[i] == a * u[i] + b
    ensures Sum(r) == a * Sum(u) + b * n
  {
    if |r| > 0 {
      var k := |r| - 1;
      SumAffine(r[..k], u[..k], a, b, k as real);
    }
  }

  /** Termwise u − a·v − b·w sums to Σu − a·Σv − b·Σw. */
  lemma {:induction false} SumCombination(r: seq<real>, u: seq<real>, v: seq<real>, w: seq<real>, a: real, b: real)
    requires |r| == |u| == |v| == |w|
    requires forall i :: 0 <= i < |r| ==> r[i] == u[i] - a * v[i] - b * w[i]
    ensures Sum(r) == Sum(u) - a * Sum(v) - b * Sum(w)
  {
    if |r| > 0 {
      var k := |r| - 1;
      SumCombination(r[..k], u[..k], v[..k], w[..k], a, b);
    }
  }

  /** Termwise u − (a·v + b) sums to Σu − a·Σv − b·n. */
  lemma {:induction false} SumResidual(r: seq<real>, u: seq<real>, v: seq<real>, a: real, b: real, n: real)
    requires |r| == |u| == |v| && n == |r| as real
    requires forall i :: 0 <= i < |r| ==> r[i] == u[i] - (a * v[i] + b)
    ensures Sum(r) == Sum(u) - a * Sum(v) - b * n
  {
    if |r| > 0 {
      var k := |r| - 1;
      SumResidual(r[..k], u[..k], v[..k], a, b, k as real);
    }
  }

  /** Subtracting c from every term lowers the sum by n·c. */
  lemma {:induction false} SumShift(r: seq<real>, s: seq<real>, c: real)
    requires |r| == |s|
    requires forall i :: 0 <= i < |r| ==> r[i] == s[i] - c
    ensures Sum(r) == Sum(s) - |s| as real * c
  {
    if |r| > 0 {
      var k := |r| - 1;
      SumShift(r[..k], s[..k], c);
    }
  }

  function Mean(s: seq<real>): real
    requires |s| > 0
  {
    Sum(s) / |s| as real
  }

  /** Every element minus c (numpy's broadcast `s - c`). */
  function Shifted(s: seq<real>, c: real): (r: seq<real>)
    ensures |r| == |s|
  {
    seq(|s|, i requires 0 <= i < |s| => s[i] - c)
  }

  /** The series with its arithmetic mean removed sums to zero. */
  lemma DemeanedSumsToZero(s: seq<real>)
    requires |s| > 0
    ensures Sum(Shifted(s, Mean(s))) == 0.0
  {
    var n := |s| as real;
    SumShift(Shifted(s, Mean(s)), s, Mean(s));
    assert n * (Sum(s) / n) == Sum(s);
  }

  function Squares(s: seq<real>): (r: seq<real>)
    ensures |r| == |s|
  {
    seq(|s|, i requires 0 <= i < |s| => s[i] * s[i])
  }

  /** sq holds the squares of s, term by term. */
  predicate IsSquares(sq: seq<real>, s: seq<real>)
  {
    |sq| == |s| && forall i :: 0 <= i < |s| ==> sq[i] == s[i] * s[i]
  }

  /** d holds the squared deviations of s from c, term by term. */
  predicate IsDeviationSquares(d: seq<real>, s: seq<real>, c: real)
  {
    |d| == |s| && forall i :: 0 <= i < |s| ==> d[i] == (s[i] - c) * (s[i] - c)
  }

  lemma SquaresPrefix(q: seq<real>, s: seq<real>, k: nat)
    requires IsSquares(q, s) && k <= |s|
    ensures IsSquares(q[..k], s[..k])
  {
    forall i | 0 <= i < k
      ensures q[..k][i] == s[..k][i] * s[..k][i]
    {
      assert q[..k][i] == q[i] && s[..k][i] == s[i];
    }
  }

  lemma DeviationSquaresPrefix(d: seq<real>, s: seq<real>, c: real, k: nat)
    requires IsDeviationSquares(d, s, c) && k <= |s|
    ensures IsDeviationSquares(d[..k], s[..k], c)
  {
    forall i | 0 <= i < k
      ensures d[..k][i] == (s[..k][i] - c) * (s[..k][i] - c)
    {
      assert d[..k][i] == d[i] && s[..k][i] == s[i];
    }
  }

  /** Squaring the shifted sequence gives the squared deviations. */
  lemma ShiftedSquares(s: seq<real>, c: real)
    ensures IsDeviationSquares(Squares(Shifted(s, c)), s, c)
  {
    var e := Shifted(s, c);
    forall i | 0 <= i < |s|
      ensures Squares(e)[i] == (s[i] - c) * (s[i] - c)
    {
      var x := s[i] - c;
      assert e[i] == x;
      assert Squares(e)[i] == e[i] * e[i];
    }
  }

  /** Sum of squared deviations from the mean. */
  function SumSquaredDeviations(s: seq<real>): real
    requires |s| > 0
  {
    Sum(Squares(Shifted(s, Mean(s))))
  }

  lemma ExpandStep(d0: real, q0: real, t0: real, n0: real, x: real, c: real, dx: real, qx: real,
                    d1: real, q1: real, t1: real, n1: real)
    requires d0 == q0 - 2.0 * c * t0 + n0 * c * c
    requires dx == (x - c) * (x - c) && qx == x * x
    requires d1 == d0 + dx && q1 == q0 + qx && t1 == t0 + x && n1 == n0 + 1.0
    ensures d1 == q1 - 2.0 * c * t1 + n1 * c * c
  {
  }

  /** Σ(s[i] − c)², accumulated directly over s. Sum over any column d with
      IsDeviationSquares(d, s, c) is the same value (SumOfDeviationSquares);
      this direct form lets Expansion's induction take one term of s at a
      time instead of a slice of a computed column. */
  function DeviationSquareSum(s: seq<real>, c: real): real
  {
    if |s| == 0 then 0.0
    else DeviationSquareSum(s[..|s| - 1], c) + (s[|s| - 1] - c) * (s[|s| - 1] - c)
  }

  /** Σs[i]², accumulated directly over s, for the same reason; it equals
      Sum over any column q with IsSquares(q, s) (SumOfSquares). */
  function SquareSum(s: seq<real>): real
  {
    if |s| == 0 then 0.0 else SquareSum(s[..|s| - 1]) + s[|s| - 1] * s[|s| - 1]
  }

  /** Σ(s[i] − c)² = Σs² − 2cΣs + n·c², by induction over the terms. */
  lemma {:induction false} Expansion(s: seq<real>, c: real)
    ensures DeviationSquareSum(s, c) == SquareSum(s) - 2.0 * c * Sum(s) + |s| as real * c * c
  {
    if |s| > 0 {
      var k := |s| - 1;
      Expansion(s[..k], c);
      ExpandStep(DeviationSquareSum(s[..k], c), SquareSum(s[..k]), Sum(s[..k]), |s[..k]| as real,
                 s[k], c, (s[k] - c) * (s[k] - c), s[k] * s[k],
                 DeviationSquareSum(s, c), SquareSum(s), Sum(s), |s| as real);
    } else {
      ExpandEmpty(DeviationSquareSum(s, c), SquareSum(s), Sum(s), |s| as real, c);
    }
  }

  lemma {:induction false} SumOfDeviationSquares(d: seq<real>, s: seq<real>, c: real)
    requires IsDeviationSquares(d, s, c)
    ensures Sum(d) == DeviationSquareSum(s, c)
  {
    if |s| > 0 {
      var k := |s| - 1;
      DeviationSquaresPrefix(d, s, c, k);
      SumOfDeviationSquares(d[..k], s[..k], c);
    }
  }

  lemma {:induction false} SumOfSquares(q: seq<real>, s: seq<real>)
    requires IsSquares(q, s)
    ensures Sum(q) == SquareSum(s)
  {
    if |s| > 0 {
      var k := |s| - 1;
      SquaresPrefix(q, s, k);
      SumOfSquares(q[..k], s[..k]);
    }
  }

  /** The expansion for sequences d of squared deviations and q of squares. */
  lemma SumSquaredShift(d: seq<real>, q: seq<real>, s: seq<real>, c: real)
    requires IsDeviationSquares(d, s, c) && IsSquares(q, s)
    ensures Sum(d) == Sum(q) - 2.0 * c * Sum(s) + |s| as real * c * c
  {
    SumOfDeviationSquares(d, s, c);
    SumOfSquares(q, s);
    Expansion(s, c);
  }

  lemma ExpandEmpty(d: real, q: real, t: real, n: real, c: real)
    requires d == 0.0 && q == 0.0 && t == 0.0 && n == 0.0
    ensures d == q - 2.0 * c * t + n * c * c
  {
  }

  lemma ScaledExpansion(n: real, m: real, q: real, t: real, e: real)
    requires n * m == t
    requires e == q - 2.0 * m * t + n * m * m
    ensures n * e == n * q - t * t
  {
    calc {
      n * e;
      n * q - 2.0 * (n * m) * t + (n * m) * (n * m);
      n * q - 2.0 * t * t + t * t;
    }
  }

  lemma MeanTimesCount(s: seq<real>)
    requires |s| > 0
    ensures |s| as real * Mean(s) == Sum(s)
  {
  }

  /** For d the squared deviations of s from its mean and q its squares:
      n·Σd = n·Σq − (Σs)². */
  lemma {:induction false} ScaledSquaredDeviations(d: seq<real>, q: seq<real>, s: seq<real>, m: real)
    requires |s| > 0 && m == Mean(s)
    requires IsDeviationSquares(d, s, m) && IsSquares(q, s)
    ensures |s| as real * Sum(d) == |s| as real * Sum(q) - Sum(s) * Sum(s)
  {
    SumSquaredShift(d, q, s, m);
    MeanTimesCount(s);
    ScaledExpansion(|s| as real, m, Sum(q), Sum(s), Sum(d));
  }

  lemma DivideProduct(n: real, x: real)
    requires n > 0.0
    ensures n * x / n == x
  {
  }

  lemma SquareNonNegative(x: real)
    ensures x * x >= 0.0
  {
  }

  /** The square d of a non-zero x is positive. (Stated with d apart from
      x * x: the solver proves it through d / x == x.) */
  lemma SquarePositive(x: real, d: real)
    requires d == x * x && x != 0.0
    ensures d > 0.0
  {
    if x > 0.0 {
      assert d / x == x;
    } else {
      var y := -x;
      assert d == y * y;
      assert d / y == y;
    }
  }

  /** A sum of non-negative terms with one positive term is positive. */
  lemma {:induction false} SumPositive(s: seq<real>, k: nat)
    requires k < |s|
    requires forall i :: 0 <= i < |s| ==> s[i] >= 0.0
    requires s[k] > 0.0
    ensures Sum(s) > 0.0
  {
    var init := s[..|s| - 1];
    SumNonNegative(init);
    if k < |s| - 1 {
      SumPositive(init, k);
    }
  }

  lemma {:induction false} SquaredDeviationsOfEqual(d: seq<real>, s: seq<real>, m: real)
    requires |s| > 0 && m == Mean(s) && AllEqual(s)
    requires IsDeviationSquares(d, s, m)
    ensures Sum(d) == 0.0
  {
    EqualElementsAreTheMean(s);
    SumConstant(d, 0.0);
  }

  lemma {:induction false} SquaredDeviationsOfUnequal(d: seq<real>, s: seq<real>, m: real)
    requires !AllEqual(s)
    requires IsDeviationSquares(d, s, m)
    ensures Sum(d) > 0.0
  {
    forall i | 0 <= i < |s| ensures d[i] >= 0.0 {
      SquareNonNegative(s[i] - m);
    }
    var i, j :| 0 <= i < |s| && 0 <= j < |s| && s[i] != s[j];
    var k := if s[i] != m then i else j;
    SquarePositive(s[k] - m, d[k]);
    SumPositive(d, k);
  }

  /** Squared deviations from the mean sum to a non-negative value that is
      zero exactly when all elements are equal. */
  lemma SquaredDeviationsZeroIff(d: seq<real>, s: seq<real>, m: real)
    requires |s| > 0 && m == Mean(s)
    requires IsDeviationSquares(d, s, m)
    ensures Sum(d) >= 0.0
    ensures Sum(d) == 0.0 <==> AllEqual(s)
  {
    if AllEqual(s) {
      SquaredDeviationsOfEqual(d, s, m);
    } else {
      SquaredDeviationsOfUnequal(d, s, m);
    }
  }

  lemma EqualElementsAreTheMean(s: seq<real>)
    requires |s| > 0 && AllEqual(s)
    ensures forall i :: 0 <= i < |s| ==> s[i] == Mean(s)
  {
    SumConstant(s, s[0]);
    DivideProduct(|s| as real, s[0]);
  }

  lemma SumSquaredDeviationsZeroIff(s: seq<real>)
    requires |s| > 0
    ensures SumSquaredDeviations(s) >= 0.0
    ensures SumSquaredDeviations(s) == 0.0 <==> AllEqual(s)
  {
    ShiftedSquares(s, Mean(s));
    SquaredDeviationsZeroIff(Squares(Shifted(s, Mean(s))), s, Mean(s));
  }

  /** Population variance (divisor = count), numpy's default `ddof=0`. */
  function PopulationVariance(s: seq<real>): (v: real)
    requires |s| > 0
    ensures v >= 0.0
    ensures v == 0.0 <==> AllEqual(s)
  {
    SumSquaredDeviationsZeroIff(s);
    SumSquaredDeviations(s) / |s| as real
  }

  /** Sample variance (divisor = count − 1), the unbiased estimator. */
  function SampleVariance(s: seq<real>): (v: real)
    requires |s| >= 2
    ensures v >= 0.0
    ensures v == 0.0 <==> AllEqual(s)
  {
    SumSquaredDeviationsZeroIff(s);
    SumSquaredDeviations(s) / (|s| - 1) as real
  }

  /** Dividing a product by one of its non-zero factors gives the other. */
  lemma CancelFactor(x: real, d: real, q: real)
    requires d != 0.0 && q == x * d
    ensures q / d == x
  {
  }

  /** n·Σs² − (Σs)² is n times the sum of squared deviations (d) from the
      mean, so it is never negative and vanishes exactly when all of s is
      equal. */
  lemma SpreadWith(d: seq<real>, q: seq<real>, s: seq<real>, m: real)
    requires |s| > 0 && m == Mean(s)
    requires IsDeviationSquares(d, s, m) && IsSquares(q, s)
    ensures |s| as real * Sum(q) - Sum(s) * Sum(s) >= 0.0
    ensures |s| as real * Sum(q) - Sum(s) * Sum(s) == 0.0 <==> AllEqual(s)
  {
    ScaledSquaredDeviations(d, q, s, m);
    SquaredDeviationsZeroIff(d, s, m);
    if !AllEqual(s) {
      assert |s| as real * Sum(d) > 0.0;
    }
  }

  /** The same for any length, q being the element-wise squares of s. */
  lemma Spread(q: seq<real>, s: seq<real>)
    requires IsSquares(q, s)
    ensures |s| as real * Sum(q) - Sum(s) * Sum(s) >= 0.0
    ensures |s| as real * Sum(q) - Sum(s) * Sum(s) == 0.0 <==> AllEqual(s)
  {
    if |s| > 0 {
      ShiftedSquares(s, Mean(s));
      SpreadWith(Squares(Shifted(s, Mean(s))), q, s, Mean(s));
    }
  }
}
