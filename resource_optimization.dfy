/** The resource optimisation engine: moving-average anomaly rules over an energy and water
    time series, keeping the newest alerts, and turning alerts into recommendations. */
module ResourceOptimization {

  /** One sample of the series. `hour` is the local hour of `timestamp` (0 to 23). */
  datatype Sample = Sample(timestamp: string, energy: real, water: real, hour: int)

  /** A quotient of IEEE doubles as far as the comparisons below can tell them apart. */
  datatype Ratio = Finite(r: real) | PosInf | NegInf | NotANumber

  /** `x / y`: division by zero gives an infinity of the sign of `x`, or NaN for 0 / 0. */
  function Divide(x: real, y: real): (q: Ratio)
    ensures y != 0.0 ==> q == Finite(x / y)
    ensures y == 0.0 ==> (q == PosInf <==> x > 0.0) && (q == NotANumber <==> x == 0.0)
  {
    if y != 0.0 then Finite(x / y)
    else if x > 0.0 then PosInf
    else if x < 0.0 then NegInf
    else NotANumber
  }

  /** `q > t` for a finite threshold `t`: NaN and -Infinity never exceed it, +Infinity always does. */
  predicate Exceeds(q: Ratio, t: real) {
    match q
    case Finite(r) => r > t
    case PosInf => true
    case NegInf => false
    case NotANumber => false
  }

  datatype AlertKind = EnergySurge | WaterLeak
  datatype AlertSeverity = Critical | Medium

  /** One alert (its human-readable reason is not modelled). */
  datatype Alert = Alert(kind: AlertKind, severity: AlertSeverity, value: real, timestamp: string)

  const WINDOW: nat := 7
  const SURGE_RATIO: real := 0.8
  const CRITICAL_SURGE_RATIO: real := 1.5
  const LEAK_FLOW: real := 35.0

  /** The sum of `field` over `data[lo..hi]`. */
  function SumEnergy(data: seq<Sample>, lo: nat, hi: nat): real
    requires lo <= hi <= |data|
    decreases hi - lo
  {
    if lo == hi then 0.0 else data[lo].energy + SumEnergy(data, lo + 1, hi)
  }

  /** The relative deviation of sample `i`'s energy from the mean of the 7 samples before it. */
  function EnergyDeviation(data: seq<Sample>, i: nat): Ratio
    requires WINDOW <= i < |data|
  {
    var avg := SumEnergy(data, i - WINDOW, i) / WINDOW as real;
    Divide(data[i].energy - avg, avg)
  }

  /** The alerts the loop pushes for sample `i`: an energy surge when the deviation exceeds
      0.8, then a water leak when the sample is taken between 1 and 4 o'clock with a flow
      above 35. */
  function AlertsAt(data: seq<Sample>, i: nat): (alerts: seq<Alert>)
    requires WINDOW <= i < |data|
    ensures var surge := Exceeds(EnergyDeviation(data, i), SURGE_RATIO);
            var leak := 1 <= data[i].hour <= 4 && data[i].water > LEAK_FLOW;
            && |alerts| == (if surge then 1 else 0) + (if leak then 1 else 0)
            && (surge ==> alerts[0].kind == EnergySurge && alerts[0].value == data[i].energy &&
                          (alerts[0].severity == Critical <==>
                             Exceeds(EnergyDeviation(data, i), CRITICAL_SURGE_RATIO)))
            && (leak ==> alerts[|alerts| - 1] == Alert(WaterLeak, Critical, data[i].water, data[i].timestamp))
            && (!surge ==> forall k :: 0 <= k < |alerts| ==> alerts[k].kind != EnergySurge)
            && (!leak ==> forall k :: 0 <= k < |alerts| ==> alerts[k].kind != WaterLeak)
    ensures forall k :: 0 <= k < |alerts| ==> alerts[k].timestamp == data[i].timestamp
  {
    var d := EnergyDeviation(data, i);
    var surge :=
      if Exceeds(d, SURGE_RATIO) then
        [Alert(EnergySurge, if Exceeds(d, CRITICAL_SURGE_RATIO) then Critical else Medium,
               data[i].energy, data[i].timestamp)]
      else [];
    var leak :=
      if 1 <= data[i].hour <= 4 && data[i].water > LEAK_FLOW then
        [Alert(WaterLeak, Critical, data[i].water, data[i].timestamp)]
      else [];
    surge + leak
  }

  /** Every alert generated for the first `n` samples, in generation order. */
  function Generated(data: seq<Sample>, n: nat): (alerts: seq<Alert>)
    requires n <= |data|
    ensures n <= WINDOW ==> alerts == []
    ensures n > WINDOW ==> |alerts| <= 2 * (n - WINDOW)
  {
    if n <= WINDOW then [] else Generated(data, n - 1) + AlertsAt(data, n - 1)
  }

  /** The water readings of the window never matter: only the sample's own water and hour do. */
  lemma WaterHistoryIrrelevant(data: seq<Sample>, other: seq<Sample>, i: nat)
    requires WINDOW <= i < |data| == |other|
    requires other[i] == data[i]
    requires forall k :: i - WINDOW <= k < i ==> other[k].energy == data[k].energy
    ensures AlertsAt(other, i) == AlertsAt(data, i)
  {
    WindowSumAgrees(data, other, i - WINDOW, i);
  }

  lemma {:induction false} WindowSumAgrees(data: seq<Sample>, other: seq<Sample>, lo: nat, hi: nat)
    requires lo <= hi <= |data| == |other|
    requires forall k :: lo <= k < hi ==> other[k].energy == data[k].energy
    ensures SumEnergy(other, lo, hi) == SumEnergy(data, lo, hi)
    decreases hi - lo
  {
    if lo < hi {
      WindowSumAgrees(data, other, lo + 1, hi);
    }
  }

  /** A flat window with no surge: a sample equal to the window's positive mean raises no
      energy alert. */
  lemma SteadyLoadNoSurge(data: seq<Sample>, i: nat, e: real)
    requires WINDOW <= i < |data| && e > 0.0
    requires forall k :: i - WINDOW <= k <= i ==> data[k].energy == e
    ensures !Exceeds(EnergyDeviation(data, i), SURGE_RATIO)
  {
    ConstantWindowSum(data, i - WINDOW, i, e);
  }

  lemma {:induction false} ConstantWindowSum(data: seq<Sample>, lo: nat, hi: nat, e: real)
    requires lo <= hi <= |data|
    requires forall k :: lo <= k < hi ==> data[k].energy == e
    ensures SumEnergy(data, lo, hi) == (hi - lo) as real * e
    decreases hi - lo
  {
    if lo < hi {
      ConstantWindowSum(data, lo + 1, hi, e);
    }
  }

  /** `alerts.reverse()`: the array is reversed in place by swapping from both ends. */
  method ReverseInPlace(a: array<Alert>)
    modifies a
    ensures forall k :: 0 <= k < a.Length ==> a[k] == old(a[a.Length - 1 - k])
  {
    var n := a.Length;
    var lo, hi := 0, n - 1;
    while lo < hi
      invariant 0 <= lo <= hi + 1 <= n
      invariant lo + hi == n - 1
      invariant forall k :: 0 <= k < lo ==> a[k] == old(a[n - 1 - k])
      invariant forall k :: hi < k < n ==> a[k] == old(a[n - 1 - k])
      invariant forall k :: lo <= k <= hi ==> a[k] == old(a[k])
    {
      a[lo], a[hi] := a[hi], a[lo];
      lo, hi := lo + 1, hi - 1;
    }
  }

  /** The scan of detectAnomalies: from sample 7 on, each sample's alerts are pushed. */
  method CollectAlerts(data: seq<Sample>) returns (alerts: seq<Alert>)
    ensures alerts == Generated(data, |data|)
  {
    alerts := [];
    if |data| > WINDOW {
      var i := WINDOW;
      while i < |data|
        invariant WINDOW <= i <= |data|
        invariant alerts == Generated(data, i)
      {
        alerts := alerts + AlertsAt(data, i);
        i := i + 1;
      }
    }
  }

  /** `alerts.reverse().slice(0, 5)`: the list is copied into an array, reversed in place and
      its first (at most) 5 kept. */
  method NewestFirst(alerts: seq<Alert>) returns (recent: seq<Alert>)
    ensures |recent| == if |alerts| < 5 then |alerts| else 5
    ensures forall k :: 0 <= k < |recent| ==> recent[k] == alerts[|alerts| - 1 - k]
  {
    var n := |alerts|;
    var a := new Alert[n](j requires 0 <= j < n => alerts[j]);
    assert a[..] == alerts;
    ReverseInPlace(a);
    recent := a[..if n < 5 then n else 5];
  }

  /** detectAnomalies: the newest (at most) 5 alerts of the scan, newest first. */
  method DetectAnomalies(data: seq<Sample>) returns (recent: seq<Alert>)
    ensures var all := Generated(data, |data|);
            && |recent| == (if |all| < 5 then |all| else 5)
            && forall k :: 0 <= k < |recent| ==> recent[k] == all[|all| - 1 - k]
  {
    var alerts := CollectAlerts(data);
    recent := NewestFirst(alerts);
  }

  /** One recommendation card. */
  datatype Recommendation = Recommendation(target: string, action: string, suggestion: string, impact: string)

  const LOAD_BALANCING: Recommendation := Recommendation(
    "Sector 4 Grid", "Load Balancing Required",
    "Shift non-critical industrial HVAC loads to off-peak hours (11 PM - 5 AM).",
    "Est. peak reduction: 12%")

  /** The action text carries the source's own spelling ("Sugggested"). */
  const PIPE_ISOLATION: Recommendation := Recommendation(
    "Zone 2 North Pipeline", "Automated Isolation Sugggested",
    "Trigger remote shut-off valve #V12 and dispatch repair crew to Sector 8 junction.",
    "Est. water saved: 450L/hr")

  const ADAPTIVE_DIMMING: Recommendation := Recommendation(
    "Smart Street-lights", "Adaptive Dimming",
    "Usage is low. Dim sector 1-4 lights to 60% for next 4 hours.",
    "Est. Energy Savings: 5%")

  /** The card for one alert. */
  function RecommendationFor(alert: Alert): Recommendation {
    match alert.kind
    case EnergySurge => LOAD_BALANCING
    case WaterLeak => PIPE_ISOLATION
  }

  /** getRecommendations: one card per alert, in alert order, or the single dimming card when
      there are no alerts at all. */
  method GetRecommendations(alerts: seq<Alert>) returns (recs: seq<Recommendation>)
    ensures alerts == [] ==> recs == [ADAPTIVE_DIMMING]
    ensures alerts != [] ==>
              |recs| == |alerts| && forall k :: 0 <= k < |alerts| ==> recs[k] == RecommendationFor(alerts[k])
    ensures |recs| >= 1
  {
    recs := [];
    var i := 0;
    while i < |alerts|
      invariant 0 <= i <= |alerts|
      invariant |recs| == i
      invariant forall k :: 0 <= k < i ==> recs[k] == RecommendationFor(alerts[k])
    {
      if alerts[i].kind == EnergySurge {
        recs := recs + [LOAD_BALANCING];
      }
      if alerts[i].kind == WaterLeak {
        recs := recs + [PIPE_ISOLATION];
      }
      i := i + 1;
    }
    if |recs| == 0 {
      recs := recs + [ADAPTIVE_DIMMING];
    }
  }

  /** A surge card appears exactly for the surge alerts: the card of alert `k` is the load
      balancing card iff that alert is an energy surge. */
  lemma SurgeCardsMatchSurges(alert: Alert)
    ensures RecommendationFor(alert) == LOAD_BALANCING <==> alert.kind == EnergySurge
    ensures RecommendationFor(alert) != ADAPTIVE_DIMMING
  {
    assert LOAD_BALANCING.target[0] != PIPE_ISOLATION.target[0];
    assert ADAPTIVE_DIMMING.target[1] != LOAD_BALANCING.target[1];
    assert ADAPTIVE_DIMMING.target[1] != PIPE_ISOLATION.target[1];
  }
}
