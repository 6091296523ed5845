/** The detector-box road-damage scorer from the box coordinates onward: the boxes' areas are
    added up, overlaps included, and scored with its own thresholds. */
module DamageYolo {
  import opened DamageScoring

  const POTHOLE_ABOVE: real := 0.35
  const CRACK_ABOVE: real := 0.12

  /** One detection box, corners `(x1, y1)` and `(x2, y2)`. */
  datatype Box = Box(x1: real, y1: real, x2: real, y2: real)

  predicate WellFormed(b: Box) {
    b.x1 <= b.x2 && b.y1 <= b.y2
  }

  function BoxArea(b: Box): (a: real)
    ensures WellFormed(b) ==> a >= 0.0
  {
    (b.x2 - b.x1) * (b.y2 - b.y1)
  }

  /** The sum of the boxes' areas, each box counted on its own. */
  function DamageArea(boxes: seq<Box>): real {
    if boxes == [] then 0.0 else DamageArea(boxes[..|boxes| - 1]) + BoxArea(boxes[|boxes| - 1])
  }

  /** Well-formed boxes never give a negative damaged area. */
  lemma {:induction false} DamageAreaNonNegative(boxes: seq<Box>)
    requires forall k :: 0 <= k < |boxes| ==> WellFormed(boxes[k])
    ensures DamageArea(boxes) >= 0.0
  {
    if boxes != [] {
      DamageAreaNonNegative(boxes[..|boxes| - 1]);
    }
  }

  /** Overlaps are not merged: reporting the same box twice counts its area twice. */
  lemma DuplicateBoxCountedTwice(boxes: seq<Box>, b: Box)
    ensures DamageArea(boxes + [b, b]) == DamageArea(boxes) + 2.0 * BoxArea(b)
  {
    var once := boxes + [b];
    var twice := boxes + [b, b];
    assert twice[..|twice| - 1] == once;
    assert once[..|once| - 1] == boxes;
  }

  /** detect_damage's answer: the report and the number of boxes. */
  datatype YoloReport = YoloReport(report: DamageReport, boxesDetected: nat)

  /** detect_damage from the boxes onward: the loop adds up every box's area, then the shared
      scoring applies with thresholds 0.35 and 0.12. The image is `h` by `w` pixels. */
  method DetectDamage(h: nat, w: nat, boxes: seq<Box>) returns (r: YoloReport)
    requires h >= 1 && w >= 1
    ensures r.report == Score(DamageArea(boxes), (h * w) as real, POTHOLE_ABOVE, CRACK_ABOVE)
    ensures r.boxesDetected == |boxes|
    ensures boxes == [] ==> r.report == DamageReport(Normal, 0.0, 100)
    ensures (forall k :: 0 <= k < |boxes| ==> WellFormed(boxes[k])) ==>
              0.0 <= r.report.severity <= 1.0 && 0 <= r.report.healthScore <= 100
  {
    var totalArea := h * w;
    var damageArea := 0.0;
    var i := 0;
    while i < |boxes|
      invariant 0 <= i <= |boxes|
      invariant damageArea == DamageArea(boxes[..i])
    {
      assert boxes[..i + 1][..i] == boxes[..i];
      damageArea := damageArea + BoxArea(boxes[i]);
      i := i + 1;
    }
    assert boxes[..i] == boxes;
    if forall k :: 0 <= k < |boxes| ==> WellFormed(boxes[k]) {
      DamageAreaNonNegative(boxes);
    }
    var severity := Severity(damageArea, totalArea as real);
    r := YoloReport(DamageReport(Label(severity, POTHOLE_ABOVE, CRACK_ABOVE), severity, HealthScore(severity)), |boxes|);
  }
}
