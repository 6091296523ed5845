/** Demand forecasting: the least-squares slope of the energy history against its index, four
    predictions continuing it from the last value, and the labels derived from the slope. */
module Forecasting {
  import opened Common

  const UPWARD: string := "UPWARD"
  const STABLE: string := "STABLE"
  const HIGH: string := "HIGH"
  const MEDIUM: string := "MEDIUM"
  const LOAD_SHIFTING: string := "Advance load shifting recommended"
  const NO_ACTION: string := "No immediate action"

  /** The answer of predict_future_demand (the peak before its rounding to two places). */
  datatype Forecast = Forecast(expectedNextPeak: real, trend: string, confidence: string, recommendation: string)

  /** Σ i for i < n, the sum of the x values 0, 1, …, n − 1, in closed form. */
  function SumX(n: nat): real {
    n as real * (n as real - 1.0) / 2.0
  }

  /** Σ i² for i < n, in closed form. */
  function SumXX(n: nat): real {
    (n as real - 1.0) * n as real * (2.0 * n as real - 1.0) / 6.0
  }

  /** Adding the point x = n to the first n points. */
  lemma SumXStep(n: nat)
    ensures SumX(n + 1) == SumX(n) + n as real
    ensures SumXX(n + 1) == SumXX(n) + n as real * n as real
  {
    var r := n as real;
    assert (r + 1.0) * r == (r - 1.0) * r + 2.0 * r;
    assert r * (r + 1.0) * (2.0 * r + 1.0) == (r - 1.0) * r * (2.0 * r - 1.0) + 6.0 * (r * r);
  }

  /** Σ y[i] for i < n. */
  function SumY(ys: seq<real>, n: nat): real
    requires n <= |ys|
  {
    if n == 0 then 0.0 else SumY(ys, n - 1) + ys[n - 1]
  }

  /** Σ i · y[i] for i < n. */
  function SumXY(ys: seq<real>, n: nat): real
    requires n <= |ys|
  {
    if n == 0 then 0.0 else SumXY(ys, n - 1) + (n - 1) as real * ys[n - 1]
  }

  /** The determinant of the normal equations: N·Σx² − (Σx)². */
  function Determinant(n: nat): real {
    n as real * SumXX(n) - SumX(n) * SumX(n)
  }

  /** 12·D = N²(N − 1)(N + 1): zero for a single point, positive from two points on. */
  lemma DeterminantClosedForm(n: nat)
    ensures 12.0 * Determinant(n) == n as real * n as real * (n as real - 1.0) * (n as real + 1.0)
  {
    var r := n as real;
    assert 12.0 * (r * SumXX(n)) == 2.0 * r * ((r - 1.0) * r * (2.0 * r - 1.0));
    assert 12.0 * (SumX(n) * SumX(n)) == 3.0 * ((r * (r - 1.0)) * (r * (r - 1.0)));
  }

  lemma PositiveProduct(x: real, y: real)
    requires x > 0.0 && y > 0.0
    ensures x * y > 0.0
  {
  }

  lemma DeterminantPositive(n: nat)
    requires n >= 2
    ensures Determinant(n) > 0.0
  {
    DeterminantClosedForm(n);
    var r := n as real;
    PositiveProduct(r * r, (r - 1.0) * (r + 1.0));
    assert r * r * (r - 1.0) * (r + 1.0) == (r * r) * ((r - 1.0) * (r + 1.0));
  }

  /** A single point leaves the normal equations singular: it determines no slope. */
  lemma DeterminantOfOnePoint()
    ensures Determinant(1) == 0.0
  {
  }

  /** The slope solving the regular normal equations of a line fit to `n` points, given Σx,
      Σx², Σy and Σxy. */
  function FittedSlope(n: real, sx: real, sxx: real, sy: real, sxy: real): real
    requires n * sxx - sx * sx != 0.0
  {
    (n * sxy - sx * sy) / (n * sxx - sx * sx)
  }

  /** `np.polyfit(range(N), values, 1)[0]`: the least-squares slope of the values against
      their positions, from two points on. */
  function Slope(ys: seq<real>): real
    requires |ys| >= 2
  {
    var n := |ys|;
    DeterminantPositive(n);
    FittedSlope(n as real, SumX(n), SumXX(n), SumY(ys, n), SumXY(ys, n))
  }

  /** The four predictions: the last value continued by 1 to 4 slopes. */
  function Predictions(last: real, slope: real): seq<real> {
    [last + slope * 1.0, last + slope * 2.0, last + slope * 3.0, last + slope * 4.0]
  }

  /** `max`: the largest element. */
  function MaxOf(s: seq<real>): (m: real)
    requires s != []
    ensures m in s
    ensures forall x :: x in s ==> x <= m
  {
    if |s| == 1 then s[0]
    else
      var rest := MaxOf(s[1..]);
      assert forall x :: x in s ==> x == s[0] || x in s[1..];
      if s[0] >= rest then s[0] else rest
  }

  /** predict_future_demand on the energy readings of the history. An empty history makes the
      fit raise. A single point makes polyfit scale its all-zero x column by its zero norm,
      and the fit fails. */
  function PredictFutureDemand(energies: seq<real>): (r: Outcome<Forecast>)
    ensures |energies| <= 1 <==> r == Fail(500, RUNTIME_ERROR)
    ensures r.Fail? <==> |energies| <= 1
    ensures r.Ok? ==>
              var slope, last := Slope(energies), energies[|energies| - 1];
              && r.value.expectedNextPeak in Predictions(last, slope)
              && (forall p :: p in Predictions(last, slope) ==> p <= r.value.expectedNextPeak)
              && (r.value.trend == UPWARD <==> slope > 0.0)
              && (r.value.trend == STABLE <==> slope <= 0.0)
              && (r.value.confidence == HIGH <==> slope < 0.2)
              && (r.value.confidence == MEDIUM <==> slope >= 0.2)
              && (r.value.recommendation == LOAD_SHIFTING <==> slope > 0.3)
              && (r.value.recommendation == NO_ACTION <==> slope <= 0.3)
  {
    if |energies| <= 1 then Fail(500, RUNTIME_ERROR)
    else
      var slope := Slope(energies);
      var last := energies[|energies| - 1];
      assert UPWARD[0] != STABLE[0] && HIGH[0] != MEDIUM[0] && LOAD_SHIFTING[0] != NO_ACTION[0];
      Ok(Forecast(
        MaxOf(Predictions(last, slope)),
        if slope > 0.0 then UPWARD else STABLE,
        if slope < 0.2 then HIGH else MEDIUM,
        if slope > 0.3 then LOAD_SHIFTING else NO_ACTION))
  }

  /** The largest prediction is the fourth for a non-negative slope and the first otherwise. */
  lemma MaxOfPredictions(last: real, slope: real)
    ensures MaxOf(Predictions(last, slope)) == if slope >= 0.0 then last + 4.0 * slope else last + slope
  {
    var p := Predictions(last, slope);
    var m := MaxOf(p);
    assert p[0] in p && p[3] in p;
    assert m == p[0] || m == p[1] || m == p[2] || m == p[3];
  }

  /** Before rounding, the peak is the fourth prediction for a non-negative slope and the first
      one otherwise. */
  lemma PeakClosedForm(energies: seq<real>)
    requires |energies| >= 2
    ensures var slope, last := Slope(energies), energies[|energies| - 1];
            PredictFutureDemand(energies).value.expectedNextPeak ==
              if slope >= 0.0 then last + 4.0 * slope else last + slope
  {
    MaxOfPredictions(energies[|energies| - 1], Slope(energies));
  }

  /** Recommending load shifting always comes with an upward trend of medium confidence. */
  lemma RecommendationImpliesUpwardMedium(energies: seq<real>)
    requires PredictFutureDemand(energies).Ok?
    requires PredictFutureDemand(energies).value.recommendation == LOAD_SHIFTING
    ensures PredictFutureDemand(energies).value.trend == UPWARD
    ensures PredictFutureDemand(energies).value.confidence == MEDIUM
  {
  }

  lemma {:induction false} SumYOfLine(ys: seq<real>, a: real, b: real, n: nat)
    requires n <= |ys|
    requires forall i :: 0 <= i < |ys| ==> ys[i] == a + b * i as real
    ensures SumY(ys, n) == n as real * a + b * SumX(n)
  {
    if n > 0 {
      SumYOfLine(ys, a, b, n - 1);
      SumXStep(n - 1);
      var m := (n - 1) as real;
      assert b * (SumX(n - 1) + m) == b * SumX(n - 1) + b * m;
    }
  }

  lemma {:induction false} SumXYOfLine(ys: seq<real>, a: real, b: real, n: nat)
    requires n <= |ys|
    requires forall i :: 0 <= i < |ys| ==> ys[i] == a + b * i as real
    ensures SumXY(ys, n) == a * SumX(n) + b * SumXX(n)
  {
    if n > 0 {
      SumXYOfLine(ys, a, b, n - 1);
      SumXStep(n - 1);
      var m := (n - 1) as real;
      assert m * ys[n - 1] == a * m + b * (m * m);
      assert a * (SumX(n - 1) + m) == a * SumX(n - 1) + a * m;
      assert b * (SumXX(n - 1) + m * m) == b * SumXX(n - 1) + b * (m * m);
    }
  }

  lemma CancelDeterminant(b: real, d: real)
    requires d != 0.0
    ensures b * d / d == b
  {
  }

  /** The normal-equation solution for sums of a line a + b·x: the slope is b. */
  lemma SlopeOfLineSums(n: real, s: real, q: real, sy: real, sxy: real, a: real, b: real)
    requires n * q - s * s > 0.0
    requires sy == n * a + b * s && sxy == a * s + b * q
    ensures FittedSlope(n, s, q, sy, sxy) == b
  {
    assert n * sxy - s * sy == b * (n * q - s * s);
    CancelDeterminant(b, n * q - s * s);
  }

  /** Sums of a history on the line a + b·i give slope b. */
  lemma SlopeFromLineSums(ys: seq<real>, a: real, b: real)
    requires |ys| >= 2
    requires SumY(ys, |ys|) == |ys| as real * a + b * SumX(|ys|)
    requires SumXY(ys, |ys|) == a * SumX(|ys|) + b * SumXX(|ys|)
    ensures Slope(ys) == b
  {
    var n := |ys|;
    DeterminantPositive(n);
    SlopeOfLineSums(n as real, SumX(n), SumXX(n), SumY(ys, n), SumXY(ys, n), a, b);
  }

  /** A history lying exactly on the line a + b·i is fitted with slope b (from two points on). */
  lemma LinearHistorySlope(ys: seq<real>, a: real, b: real)
    requires |ys| >= 2
    requires forall i :: 0 <= i < |ys| ==> ys[i] == a + b * i as real
    ensures Slope(ys) == b
  {
    var n := |ys|;
    assert SumY(ys, n) == n as real * a + b * SumX(n) by {
      SumYOfLine(ys, a, b, n);
    }
    assert SumXY(ys, n) == a * SumX(n) + b * SumXX(n) by {
      SumXYOfLine(ys, a, b, n);
    }
    SlopeFromLineSums(ys, a, b);
  }

  /** A constant history has slope 0. */
  lemma ConstantHistorySlope(ys: seq<real>, c: real)
    requires |ys| >= 2
    requires forall i :: 0 <= i < |ys| ==> ys[i] == c
    ensures Slope(ys) == 0.0
  {
    LinearHistorySlope(ys, c, 0.0);
  }

  /** A constant history is forecast STABLE with HIGH confidence and no action, with a peak
      equal to its last value. */
  lemma ConstantHistoryForecast(ys: seq<real>, c: real)
    requires |ys| >= 2
    requires forall i :: 0 <= i < |ys| ==> ys[i] == c
    ensures PredictFutureDemand(ys) == Ok(Forecast(c, STABLE, HIGH, NO_ACTION))
  {
    ConstantHistorySlope(ys, c);
    PeakClosedForm(ys);
  }
}
