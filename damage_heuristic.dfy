/** The contour-based road-damage detector from the contour areas onward: dark pixels are
    masked, and only large dark regions count as damage. */
module DamageHeuristic {
  import opened DamageScoring

  const DARK_MAX: nat := 85
  const MIN_CONTOUR_AREA: real := 2500.0
  const POTHOLE_ABOVE: real := 0.25
  const CRACK_ABOVE: real := 0.08

  /** `cv2.inRange(gray, 0, 85)` on one 8-bit grey value: 255 inside the range, 0 outside. */
  function DarkMask(gray: nat): (m: nat)
    requires gray < 256
    ensures m == 255 <==> gray <= DARK_MAX
    ensures m == 0 <==> gray > DARK_MAX
  {
    if gray <= DARK_MAX then 255 else 0
  }

  /** The sum of the contour areas strictly above 2500. */
  function QualifyingArea(areas: seq<real>): (total: real)
    ensures total >= 0.0
  {
    if areas == [] then 0.0
    else
      var last := areas[|areas| - 1];
      QualifyingArea(areas[..|areas| - 1]) + if last > MIN_CONTOUR_AREA then last else 0.0
  }

  /** A contour of area 2500 or less changes nothing, wherever it is found. */
  lemma SmallContourIgnored(areas: seq<real>, a: real)
    requires a <= MIN_CONTOUR_AREA
    ensures QualifyingArea(areas + [a]) == QualifyingArea(areas)
  {
    assert (areas + [a])[..|areas|] == areas;
  }

  /** The qualifying area is at least each large contour's own area. */
  lemma {:induction false} QualifyingAreaCoversEach(areas: seq<real>, k: nat)
    requires k < |areas| && areas[k] > MIN_CONTOUR_AREA
    ensures QualifyingArea(areas) >= areas[k]
  {
    var init := areas[..|areas| - 1];
    if k < |areas| - 1 {
      assert init[k] == areas[k];
      QualifyingAreaCoversEach(init, k);
    }
  }

  /** detect_damage from the contours onward: the loop adds up the areas of contours larger
      than 2500 pixels, then the shared scoring applies with thresholds 0.25 and 0.08. The
      image is `h` by `w` pixels and `areas` are its contour areas. */
  method DetectDamage(h: nat, w: nat, areas: seq<real>) returns (r: DamageReport)
    requires h >= 1 && w >= 1
    ensures r == Score(QualifyingArea(areas), (h * w) as real, POTHOLE_ABOVE, CRACK_ABOVE)
    ensures 0.0 <= r.severity <= 1.0 && 0 <= r.healthScore <= 100
    ensures (forall k :: 0 <= k < |areas| ==> areas[k] <= MIN_CONTOUR_AREA) ==>
              r == DamageReport(Normal, 0.0, 100)
  {
    var totalArea := h * w;
    var damageArea := 0.0;
    var i := 0;
    while i < |areas|
      invariant 0 <= i <= |areas|
      invariant damageArea == QualifyingArea(areas[..i])
      invariant (forall k :: 0 <= k < i ==> areas[k] <= MIN_CONTOUR_AREA) ==> damageArea == 0.0
    {
      assert areas[..i + 1][..i] == areas[..i];
      if areas[i] > MIN_CONTOUR_AREA {
        damageArea := damageArea + areas[i];
      }
      i := i + 1;
    }
    assert areas[..i] == areas;
    var severity := Severity(damageArea, totalArea as real);
    var healthScore := HealthScore(severity);
    var damageType := Label(severity, POTHOLE_ABOVE, CRACK_ABOVE);
    r := DamageReport(damageType, severity, healthScore);
  }
}
