/** Closed-form sums over sequences of reals: the quantities that the
    statistics code accumulates, defined once by structural recursion. */
module Sums {

  // Each sum is named by a non-recursive function over its recursive
  // definition (Sum over SumFrom, and likewise for CoSum, SumSq and DevSum,
  // and Sse in LeastSquares). The name is then one and the same term
  // wherever a sum is multiplied by something, in a lemma and in its
  // callers alike; with the recursive function used directly, the verifier
  // unfolds it to different depths at the two ends and the products no
  // longer match, which makes the algebra in LeastSquares too costly to
  // check. Scale below serves the same purpose for weighted sums.

  /** Sum of the elements. */
  function Sum(s: seq<real>): real
  {
    SumFrom(s)
  }

  function SumFrom(s: seq<real>): real
  {
    if |s| == 0 then 0.0 else s[0] + SumFrom(s[1..])
  }

  /** Co-deviation sum: the sum over i of (xs[i] - mx) * (ys[i] - my). */
  function CoSum(xs: seq<real>, ys: seq<real>, mx: real, my: real): real
    requires |xs| == |ys|
  {
    CoSumFrom(xs, ys, mx, my)
  }

  function CoSumFrom(xs: seq<real>, ys: seq<real>, mx: real, my: real): real
    requires |xs| == |ys|
  {
    if |xs| == 0 then 0.0
    else (xs[0] - mx) * (ys[0] - my) + CoSumFrom(xs[1..], ys[1..], mx, my)
  }

  /** The square of d, as `Math.pow(d, 2)` computes it. */
  function Sq(d: real): real
  {
    d * d
  }

  /** w * s kept as one term. Identities between weighted sums are stated
      with it, so that they stay linear in the weighted sums themselves. */
  function Scale(w: real, s: real): real
  {
    w * s
  }

  /** Sum of squared deviations from m. */
  function SumSq(s: seq<real>, m: real): real
  {
    SumSqFrom(s, m)
  }

  function SumSqFrom(s: seq<real>, m: real): real
  {
    if |s| == 0 then 0.0 else Sq(s[0] - m) + SumSqFrom(s[1..], m)
  }

  /** Sum of deviations from m. */
  function DevSum(s: seq<real>, m: real): real
  {
    DevSumFrom(s, m)
  }

  function DevSumFrom(s: seq<real>, m: real): real
  {
    if |s| == 0 then 0.0 else (s[0] - m) + DevSumFrom(s[1..], m)
  }

  /** Every element equals m. */
  predicate AllEqual(s: seq<real>, m: real)
  {
    forall i :: 0 <= i < |s| ==> s[i] == m
  }

  /** All elements are the same value. */
  predicate Constant(s: seq<real>)
  {
    forall i, j :: 0 <= i < |s| && 0 <= j < |s| ==> s[i] == s[j]
  }

  /** Summing one more element at the end adds it: the step of a left fold. */
  lemma {:induction false} SumAppend(s: seq<real>, x: real)
    ensures Sum(s + [x]) == Sum(s) + x
  {
    if |s| > 0 {
      assert (s + [x])[1..] == s[1..] + [x];
      SumAppend(s[1..], x);
    } else {
      assert s + [x] == [x] && Sum([x][1..]) == 0.0;
    }
  }

  lemma {:induction false} CoSumAppend(xs: seq<real>, ys: seq<real>, mx: real, my: real, x: real, y: real)
    requires |xs| == |ys|
    ensures CoSum(xs + [x], ys + [y], mx, my) == CoSum(xs, ys, mx, my) + (x - mx) * (y - my)
  {
    if |xs| > 0 {
      assert (xs + [x])[1..] == xs[1..] + [x];
      assert (ys + [y])[1..] == ys[1..] + [y];
      CoSumAppend(xs[1..], ys[1..], mx, my, x, y);
    } else {
      assert xs + [x] == [x] && ys + [y] == [y] && CoSum([x][1..], [y][1..], mx, my) == 0.0;
    }
  }

  /** A square is never negative, and it is positive away from zero. */
  lemma SqNonNegative(d: real)
    ensures Sq(d) >= 0.0
  {
    assert d * d >= 0.0;
  }

  lemma SqPositive(d: real)
    requires d != 0.0
    ensures Sq(d) > 0.0
  {
    calc {
      Sq(d);
      == d * d;
      > 0.0;
    }
  }

  lemma SqZeroIff(d: real)
    ensures Sq(d) == 0.0 <==> d == 0.0
  {
    if d != 0.0 {
      SqPositive(d);
    }
  }

  /** A sum of squares is never negative, and it is zero exactly when every
      term is. */
  lemma {:induction false} SumSqZeroIff(s: seq<real>, m: real)
    ensures SumSq(s, m) >= 0.0
    ensures SumSq(s, m) == 0.0 <==> AllEqual(s, m)
  {
    if |s| > 0 {
      SumSqZeroIff(s[1..], m);
      if s[0] != m {
        SqPositive(s[0] - m);
        assert !AllEqual(s, m);
      } else if AllEqual(s[1..], m) {
        forall i | 1 <= i < |s| ensures s[i] == m {
          assert s[i] == s[1..][i - 1];
        }
      } else {
        var k :| 0 <= k < |s| - 1 && s[1..][k] != m;
        assert s[k + 1] != m;
      }
    }
  }

  lemma {:induction false} SumSqAppend(s: seq<real>, m: real, x: real)
    ensures SumSq(s + [x], m) == SumSq(s, m) + Sq(x - m)
  {
    if |s| > 0 {
      assert (s + [x])[1..] == s[1..] + [x];
      SumSqAppend(s[1..], m, x);
    } else {
      assert s + [x] == [x] && SumSq([x][1..], m) == 0.0;
    }
  }

  /** When every x sits on its mean, every co-deviation term vanishes. */
  lemma {:induction false} CoSumOfFlatX(xs: seq<real>, ys: seq<real>, mx: real, my: real)
    requires |xs| == |ys|
    requires AllEqual(xs, mx)
    ensures CoSum(xs, ys, mx, my) == 0.0
  {
    if |xs| > 0 {
      assert AllEqual(xs[1..], mx) by {
        forall i | 0 <= i < |xs| - 1 ensures xs[1..][i] == mx {
          assert xs[1..][i] == xs[i + 1];
        }
      }
      CoSumOfFlatX(xs[1..], ys[1..], mx, my);
    }
  }

  lemma {:induction false} CoSumSymmetric(xs: seq<real>, ys: seq<real>, mx: real, my: real)
    requires |xs| == |ys|
    ensures CoSum(xs, ys, mx, my) == CoSum(ys, xs, my, mx)
  {
    if |xs| > 0 {
      CoSumSymmetric(xs[1..], ys[1..], mx, my);
    }
  }

  /** Deviations from m sum to the sum minus n copies of m. */
  lemma {:induction false} DevSumLinear(s: seq<real>, m: real)
    ensures DevSum(s, m) == Sum(s) - |s| as real * m
  {
    if |s| > 0 {
      DevSumLinear(s[1..], m);
    }
  }

  /** A sequence of copies of c sums to n * c. */
  lemma {:induction false} SumOfAllEqual(s: seq<real>, c: real)
    requires AllEqual(s, c)
    ensures Sum(s) == |s| as real * c
  {
    if |s| > 0 {
      assert AllEqual(s[1..], c) by {
        forall i | 0 <= i < |s| - 1 ensures s[1..][i] == c {
          assert s[1..][i] == s[i + 1];
        }
      }
      SumOfAllEqual(s[1..], c);
    }
  }
}
