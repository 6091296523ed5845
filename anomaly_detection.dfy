/** Usage anomaly detection: the values of a table's second column above their mean plus
    two population standard deviations. */
module AnomalyDetection {
  import opened Common

  /** The answer of detect_anomaly. `mean` and `threshold` are `None` when NumPy yields NaN
      (the mean of no values). */
  datatype AnomalyResult = AnomalyResult(
    mean: Option<real>,
    threshold: Option<real>,
    detected: bool,
    indices: seq<nat>)

  function Sum(vs: seq<real>): real {
    if vs == [] then 0.0 else Sum(vs[..|vs| - 1]) + vs[|vs| - 1]
  }

  function Mean(vs: seq<real>): real
    requires vs != []
  {
    Sum(vs) / |vs| as real
  }

  function Square(x: real): (y: real)
    ensures y >= 0.0
  {
    if x >= 0.0 then x * x else (-x) * (-x)
  }

  /** The sum of the squared deviations from `m` of the first `n` values. */
  function SquaredDeviations(vs: seq<real>, m: real, n: nat): (d: real)
    requires n <= |vs|
    ensures d >= 0.0
  {
    if n == 0 then 0.0 else SquaredDeviations(vs, m, n - 1) + Square(vs[n - 1] - m)
  }

  /** `np.var`: the population variance. */
  function Variance(vs: seq<real>): (v: real)
    requires vs != []
    ensures v >= 0.0
  {
    SquaredDeviations(vs, Mean(vs), |vs|) / |vs| as real
  }

  /** The positions `k < n` whose value exceeds `t`, ascending: `np.where(values > t)[0]`. */
  function IndicesAbove(vs: seq<real>, t: real, n: nat): (ix: seq<nat>)
    requires n <= |vs|
    ensures |ix| <= n
    ensures forall j :: 0 <= j < |ix| ==> ix[j] < n && vs[ix[j]] > t
    ensures forall j, l :: 0 <= j < l < |ix| ==> ix[j] < ix[l]
  {
    if n == 0 then []
    else IndicesAbove(vs, t, n - 1) + if vs[n - 1] > t then [n - 1] else []
  }

  /** Every position whose value exceeds the threshold is listed. */
  lemma {:induction false} AboveIsListed(vs: seq<real>, t: real, n: nat, k: nat)
    requires k < n <= |vs| && vs[k] > t
    ensures k in IndicesAbove(vs, t, n)
  {
    if k < n - 1 {
      AboveIsListed(vs, t, n - 1, k);
    }
  }

  /** A position is listed exactly when its value exceeds the threshold. */
  lemma ListedIffAbove(vs: seq<real>, t: real, n: nat)
    requires n <= |vs|
    ensures forall k :: 0 <= k < n ==> (k in IndicesAbove(vs, t, n) <==> vs[k] > t)
  {
    forall k | 0 <= k < n && vs[k] > t
      ensures k in IndicesAbove(vs, t, n)
    {
      AboveIsListed(vs, t, n, k);
    }
  }

  /** detect_anomaly on a table given by its columns. A table without a second column makes
      `iloc` raise. `std` is the square root NumPy takes of the variance, supplied by the caller. */
  function DetectAnomaly(columns: seq<seq<real>>, std: real): (r: Outcome<AnomalyResult>)
    requires |columns| >= 2 && |columns[1]| > 0 ==> std >= 0.0 && std * std == Variance(columns[1])
    ensures |columns| < 2 <==> r == Fail(500, RUNTIME_ERROR)
    ensures r.Ok? ==>
              var vs := columns[1];
              && (r.value.detected <==> |r.value.indices| > 0)
              && (vs == [] ==> r.value.mean.None? && r.value.threshold.None? && r.value.indices == [])
              && (vs != [] ==>
                    && r.value.mean == Some(Mean(vs))
                    && r.value.threshold == Some(Mean(vs) + 2.0 * std)
                    && r.value.indices == IndicesAbove(vs, r.value.threshold.value, |vs|)
                    && (forall k :: 0 <= k < |vs| ==>
                          (k in r.value.indices <==> vs[k] > r.value.threshold.value))
                    && (forall j, l :: 0 <= j < l < |r.value.indices| ==>
                          r.value.indices[j] < r.value.indices[l]))
  {
    if |columns| < 2 then Fail(500, RUNTIME_ERROR)
    else
      var vs := columns[1];
      if vs == [] then Ok(AnomalyResult(None, None, false, []))
      else
        var threshold := Mean(vs) + 2.0 * std;
        var ix := IndicesAbove(vs, threshold, |vs|);
        ListedIffAbove(vs, threshold, |vs|);
        Ok(AnomalyResult(Some(Mean(vs)), Some(threshold), |ix| > 0, ix))
  }

  /** The number of positions `k < n` whose value exceeds `t`. */
  function CountAbove(vs: seq<real>, t: real, n: nat): nat
    requires n <= |vs|
  {
    if n == 0 then 0 else CountAbove(vs, t, n - 1) + if vs[n - 1] > t then 1 else 0
  }

  lemma {:induction false} CountAboveIsLength(vs: seq<real>, t: real, n: nat)
    requires n <= |vs|
    ensures |IndicesAbove(vs, t, n)| == CountAbove(vs, t, n)
  {
    if n > 0 {
      CountAboveIsLength(vs, t, n - 1);
    }
  }

  lemma ProductPositive(x: real, y: real)
    requires x > 0.0 && y > 0.0
    ensures x * y > 0.0
  {
  }

  lemma SquareGrows(a: real, b: real)
    requires a > b >= 0.0
    ensures Square(a) > Square(b)
  {
    var x, y := a - b, a + b;
    ProductPositive(x, y);
    assert x * y > 0.0;
    assert x * y == a * a - b * b;
  }

  /** One step of the bound: the value `v` adds its squared deviation to the sum `d` of
      earlier ones, and is counted (turning `c` into `c'`) when it exceeds `t`. */
  lemma BoundStep(d: real, c: real, c': real, m: real, t: real, v: real)
    requires d >= 0.0 && c >= 0.0 && t >= m
    requires c == 0.0 || d > c * Square(t - m)
    requires c' == if v > t then c + 1.0 else c
    ensures c' == 0.0 || d + Square(v - m) > c' * Square(t - m)
  {
    var k := Square(t - m);
    if v > t {
      SquareGrows(v - m, t - m);
      assert c' * k == c * k + k;
    }
  }

  /** Every counted value lies more than `t - m` above `m`, so when there is one they account
      for more than their number times (t − m)² of the squared deviations. */
  lemma {:induction false} DeviationLowerBound(vs: seq<real>, m: real, t: real, n: nat)
    requires n <= |vs| && t >= m
    ensures CountAbove(vs, t, n) == 0 ||
            SquaredDeviations(vs, m, n) > CountAbove(vs, t, n) as real * Square(t - m)
  {
    if n > 0 {
      DeviationLowerBound(vs, m, t, n - 1);
      BoundStep(SquaredDeviations(vs, m, n - 1), CountAbove(vs, t, n - 1) as real,
                CountAbove(vs, t, n) as real, m, t, vs[n - 1]);
    }
  }

  lemma TwiceSquared(s: real)
    requires s >= 0.0
    ensures Square(2.0 * s) == 4.0 * (s * s)
  {
  }

  lemma CancelPositive(v: real, a: real, b: real)
    requires v > 0.0 && a * v > b * v
    ensures a > b
  {
    if a <= b {
      ProductPositive(b - a + 1.0, v);
    }
  }

  /** The arithmetic core of Chebyshev's bound: with `d = variance · n` squared deviations of
      which more than `c · 4 · variance` come from the `c > 0` counted values, 4c < n. */
  lemma QuarterBound(d: real, variance: real, n: real, c: real)
    requires n > 0.0 && c >= 0.0 && variance >= 0.0
    requires variance == d / n
    requires c == 0.0 || d > c * (4.0 * variance)
    ensures 4.0 * c < n
  {
    DivideThenMultiply(d, n);
    assert d == variance * n;
    if c > 0.0 {
      assert variance > 0.0;
      assert n * variance > (4.0 * c) * variance;
      CancelPositive(variance, n, 4.0 * c);
    }
  }

  lemma DivideThenMultiply(d: real, n: real)
    requires n > 0.0
    ensures d / n * n == d
  {
  }

  /** The bound in terms of the threshold: `t` lies two standard deviations above the mean. */
  lemma TwoSigmaBound(d: real, n: real, c: real, std: real, m: real, t: real)
    requires n > 0.0 && c >= 0.0 && std >= 0.0
    requires t - m == 2.0 * std && std * std == d / n
    requires c == 0.0 || d > c * Square(t - m)
    ensures 4.0 * c < n
  {
    TwiceSquared(std);
    QuarterBound(d, std * std, n, c);
  }

  /** Chebyshev's bound: fewer than a quarter of the rows are ever flagged, and none when all
      values are equal. */
  lemma FewerThanAQuarterFlagged(vs: seq<real>, std: real)
    requires vs != [] && std >= 0.0 && std * std == Variance(vs)
    ensures 4 * |IndicesAbove(vs, Mean(vs) + 2.0 * std, |vs|)| < |vs|
  {
    var m, t, n := Mean(vs), Mean(vs) + 2.0 * std, |vs|;
    DeviationLowerBound(vs, m, t, n);
    TwoSigmaBound(SquaredDeviations(vs, m, n), n as real, CountAbove(vs, t, n) as real, std, m, t);
    CountAboveIsLength(vs, t, n);
  }

  lemma {:induction false} SumOfConstant(vs: seq<real>, c: real)
    requires forall k :: 0 <= k < |vs| ==> vs[k] == c
    ensures Sum(vs) == |vs| as real * c
  {
    if vs != [] {
      var init := vs[..|vs| - 1];
      SumOfConstant(init, c);
      assert Sum(vs) == Sum(init) + c;
      assert |vs| as real * c == |init| as real * c + c;
    }
  }

  /** A column whose values are all equal has its mean at that value, so nothing lies above
      the threshold and no row is flagged. */
  lemma EqualValuesNoneFlagged(vs: seq<real>, std: real)
    requires vs != [] && (forall k :: 0 <= k < |vs| ==> vs[k] == vs[0])
    requires std >= 0.0 && std * std == Variance(vs)
    ensures IndicesAbove(vs, Mean(vs) + 2.0 * std, |vs|) == []
  {
    var c, n := vs[0], |vs| as real;
    SumOfConstant(vs, c);
    assert Mean(vs) == c by {
      assert Sum(vs) == n * c;
      assert (n * c) / n == c;
    }
    NoneAbove(vs, Mean(vs) + 2.0 * std, |vs|);
  }

  /** Nothing is listed when no value exceeds the threshold. */
  lemma {:induction false} NoneAbove(vs: seq<real>, t: real, n: nat)
    requires n <= |vs| && forall k :: 0 <= k < n ==> vs[k] <= t
    ensures IndicesAbove(vs, t, n) == []
  {
    if n > 0 {
      NoneAbove(vs, t, n - 1);
    }
  }
}
