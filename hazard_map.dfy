/** The hazard map's helpers: severity banding into a colour and a label, the 31-multiplier
    string hash of a hazard id, and the coordinate guard in front of the position jitter. */
module HazardMap {
  import opened JsSemantics
  import opened Reports
  import AdminView

  /** The three severity bands the map distinguishes. */
  datatype Band = CriticalBand | HighBand | MediumBand

  function BandOf(severity: int): (b: Band)
    ensures b == CriticalBand <==> severity >= 70
    ensures b == HighBand <==> 50 <= severity < 70
    ensures b == MediumBand <==> severity < 50
  {
    if severity >= 70 then CriticalBand else if severity >= 50 then HighBand else MediumBand
  }

  /** getSeverityColor. */
  function SeverityColor(severity: int): (c: string)
    ensures severity >= 70 ==> c == "#ef4444"
    ensures 50 <= severity < 70 ==> c == "#f97316"
    ensures severity < 50 ==> c == "#eab308"
  {
    if severity >= 70 then "#ef4444" else if severity >= 50 then "#f97316" else "#eab308"
  }

  /** getSeverityLabel. */
  function SeverityLabel(severity: int): (l: string)
    ensures severity >= 70 ==> l == "Critical"
    ensures 50 <= severity < 70 ==> l == "High"
    ensures severity < 50 ==> l == "Medium"
  {
    match BandOf(severity)
    case CriticalBand => "Critical"
    case HighBand => "High"
    case MediumBand => "Medium"
  }

  /** The colour and the label always name the same band: equal colours mean equal labels
      and equal bands. */
  lemma ColorAndLabelAgree(s: int, t: int)
    ensures SeverityColor(s) == SeverityColor(t) <==> BandOf(s) == BandOf(t)
    ensures SeverityLabel(s) == SeverityLabel(t) <==> BandOf(s) == BandOf(t)
  {
    assert "#ef4444"[1] != "#f97316"[1] && "#ef4444"[2] != "#eab308"[2];
    assert "#f97316"[1] != "#eab308"[1];
    assert "Critical"[0] != "High"[0] && "Critical"[0] != "Medium"[0] && "High"[0] != "Medium"[0];
  }

  /** `String(input || '')`: the id as the hash reads it; a missing, empty or zero id is "". */
  function IdString(id: IdValue): (s: string)
    ensures id == NoId || id == TextId("") || id == NumberId(0) ==> s == ""
  {
    match id
    case NoId => ""
    case TextId(t) => t
    case NumberId(n) => if n == 0 then "" else IntToString(n)
  }

  /** The polynomial Σ u[i]·31^(n−1−i) over the code units, without any reduction. */
  function HashSum(u: seq<CodeUnit>): int {
    if u == [] then 0 else 31 * HashSum(u[..|u| - 1]) + u[|u| - 1]
  }

  /** One step of the loop: `((h << 5) - h) + c` followed by `| 0` is 31·h + c reduced to
      signed 32 bits, whatever the 32-bit `h` was reduced from. */
  lemma HashStep(h: int, x: int, c: int)
    requires -TWO_31 <= h < TWO_31
    requires h == ToInt32(x)
    ensures ToInt32(ToInt32(h * 32) - h + c) == ToInt32(31 * x + c)
  {
    var k1 := (h * 32 - ToInt32(h * 32)) / TWO_32;
    assert h * 32 == ToInt32(h * 32) + k1 * TWO_32;
    ToInt32Congruent(h * 32 - h + c, ToInt32(h * 32) - h + c, k1);
    var k2 := (x - h) / TWO_32;
    assert x == h + k2 * TWO_32;
    ToInt32Congruent(31 * x + c, 31 * h + c, 31 * k2);
  }

  /** The loop's step keeps the hash equal to the reduced polynomial of the units read. */
  lemma HashLoopStep(units: seq<CodeUnit>, i: nat, hash: int)
    requires i < |units|
    requires -TWO_31 <= hash < TWO_31 && hash == ToInt32(HashSum(units[..i]))
    ensures ToInt32(ToInt32(hash * 32) - hash + units[i]) == ToInt32(HashSum(units[..i + 1]))
  {
    assert units[..i + 1][..i] == units[..i];
    HashStep(hash, HashSum(units[..i]), units[i]);
  }

  /** getHash: the loop folds the code units of the id string into a signed 32-bit hash. */
  method GetHash(id: IdValue) returns (hash: int)
    ensures -TWO_31 <= hash < TWO_31
    ensures hash == ToInt32(HashSum(CodeUnits(IdString(id))))
  {
    var units := CodeUnits(IdString(id));
    hash := 0;
    var i := 0;
    while i < |units|
      invariant 0 <= i <= |units|
      invariant hash == ToInt32(HashSum(units[..i]))
    {
      HashLoopStep(units, i, hash);
      hash := ToInt32(ToInt32(hash * 32) - hash + units[i]);
      i := i + 1;
    }
    assert units[..i] == units;
  }

  /** A missing, empty or zero id hashes to 0. */
  lemma EmptyIdHashesToZero(id: IdValue)
    requires id == NoId || id == TextId("") || id == NumberId(0)
    ensures ToInt32(HashSum(CodeUnits(IdString(id)))) == 0
  {
    assert CodeUnits("") == [];
  }

  /** A number as the page holds it after `parseFloat`. */
  datatype JsNumber = NaN | Finite(v: real)

  /** Where a hazard is drawn: the origin for unusable coordinates, otherwise its own
      coordinates shifted by a jitter derived from `seed` (the trigonometry is not modelled). */
  datatype Position = Origin | Jittered(lat: real, lng: real, seed: int)

  /** `!lat || !lng || isNaN(lat) || isNaN(lng)` fails: both coordinates are non-zero numbers. */
  predicate UsableCoordinates(lat: JsNumber, lng: JsNumber) {
    lat.Finite? && lng.Finite? && lat.v != 0.0 && lng.v != 0.0
  }

  /** getJitteredPosition: a zero or NaN coordinate gives [0, 0]; otherwise the jitter seed is
      the hash of the id. */
  method JitteredPosition(lat: JsNumber, lng: JsNumber, id: IdValue) returns (p: Position)
    ensures p == Origin <==> lat == NaN || lng == NaN || lat == Finite(0.0) || lng == Finite(0.0)
    ensures p.Jittered? <==> UsableCoordinates(lat, lng)
    ensures p.Jittered? ==>
              && p.lat == lat.v && p.lng == lng.v
              && p.seed == ToInt32(HashSum(CodeUnits(IdString(id))))
  {
    if lat.NaN? || lng.NaN? || lat.v == 0.0 || lng.v == 0.0 {
      return Origin;
    }
    var seed := GetHash(id);
    p := Jittered(lat.v, lng.v, seed);
  }

  /** Every hazard the command-center page puts on the map passes the guard, since it comes
      from a report with truthy coordinates: none is drawn at the origin. */
  lemma MappedHazardsUsable(rs: seq<Report>, now: string, k: nat)
    requires k < |AdminView.MapHazards(rs, now)|
    ensures var h := AdminView.MapHazards(rs, now)[k];
            UsableCoordinates(Finite(h.lat), Finite(h.lng))
  {
  }
}
