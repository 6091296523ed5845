/** The scoring shared by both road-damage detectors: the damaged fraction of the image
    clamped to 1, the truncated health score, and the two-threshold damage label. */
module DamageScoring {
  import opened Common

  datatype DamageLabel = Pothole | Crack | Normal

  /** What a detector answers (the severity before its rounding to three places). */
  datatype DamageReport = DamageReport(damageType: DamageLabel, severity: real, healthScore: int)

  /** `min(damage_area / total_area, 1)`. */
  function Severity(damageArea: real, totalArea: real): (s: real)
    requires totalArea > 0.0
    ensures s <= 1.0
    ensures damageArea >= 0.0 ==> 0.0 <= s
    ensures damageArea <= totalArea ==> s == damageArea / totalArea
    ensures damageArea >= totalArea ==> s == 1.0
  {
    Min(damageArea / totalArea, 1.0)
  }

  /** Python's `int()` on a float: truncation toward zero. */
  function Truncate(x: real): (n: int)
    ensures x >= 0.0 ==> 0 <= n && n as real <= x < n as real + 1.0
    ensures x < 0.0 ==> n <= 0 && n as real - 1.0 < x <= n as real
  {
    if x >= 0.0 then x.Floor else -((-x).Floor)
  }

  /** `int((1 - severity) * 100)`. */
  function HealthScore(severity: real): (h: int)
    ensures 0.0 <= severity <= 1.0 ==> 0 <= h <= 100
    ensures severity == 0.0 ==> h == 100
    ensures severity == 1.0 ==> h == 0
  {
    Truncate((1.0 - severity) * 100.0)
  }

  /** The label, checked from the highest threshold down. */
  function Label(severity: real, potholeAbove: real, crackAbove: real): (l: DamageLabel)
    ensures l == Pothole <==> severity > potholeAbove
    ensures l == Crack <==> crackAbove < severity && severity <= potholeAbove
    ensures l == Normal <==> severity <= crackAbove && severity <= potholeAbove
  {
    if severity > potholeAbove then Pothole
    else if severity > crackAbove then Crack
    else Normal
  }

  /** The labels ordered by how bad the damage is. */
  function Rank(l: DamageLabel): nat {
    match l
    case Normal => 0
    case Crack => 1
    case Pothole => 2
  }

  /** A larger severity never gets a milder label. */
  lemma LabelMonotone(s: real, t: real, potholeAbove: real, crackAbove: real)
    requires s <= t
    ensures Rank(Label(s, potholeAbove, crackAbove)) <= Rank(Label(t, potholeAbove, crackAbove))
  {
  }

  /** A larger severity never gets a higher health score. */
  lemma {:induction false} HealthMonotone(s: real, t: real)
    requires s <= t
    ensures HealthScore(t) <= HealthScore(s)
  {
    var x, y := (1.0 - s) * 100.0, (1.0 - t) * 100.0;
    assert y <= x;
    if y >= 0.0 {
      assert y.Floor <= x.Floor;
    } else if x >= 0.0 {
      assert Truncate(y) <= 0 <= Truncate(x);
    } else {
      assert (-x).Floor <= (-y).Floor;
    }
  }

  /** The report for a damaged area of a `totalArea`-pixel image under the given thresholds. */
  function Score(damageArea: real, totalArea: real, potholeAbove: real, crackAbove: real): (r: DamageReport)
    requires totalArea > 0.0
    ensures r.severity == Severity(damageArea, totalArea)
    ensures r.healthScore == HealthScore(r.severity)
    ensures r.damageType == Label(r.severity, potholeAbove, crackAbove)
    ensures damageArea == 0.0 && crackAbove >= 0.0 && potholeAbove >= 0.0 ==>
              r == DamageReport(Normal, 0.0, 100)
  {
    var s := Severity(damageArea, totalArea);
    DamageReport(Label(s, potholeAbove, crackAbove), s, HealthScore(s))
  }
}
