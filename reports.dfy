/** Citizen reports as the `reports` table returns them, and counting over a list of them. */
module Reports {
  import opened Common

  /** Report statuses. */
  const PENDING: string := "PENDING"
  const RESOLVED: string := "RESOLVED"
  const IN_PROGRESS: string := "IN_PROGRESS"

  /** A row identifier as JSON carries it. */
  datatype IdValue = NoId | TextId(text: string) | NumberId(n: int)

  /** One report row. Coordinates and the risk score are `None` when null; the empty string
      stands for a null or empty category, status or creation time. */
  datatype Report = Report(
    id: IdValue,
    latitude: Option<real>,
    longitude: Option<real>,
    riskScore: Option<int>,
    category: string,
    status: string,
    createdAt: string)

  /** JavaScript truthiness of a nullable number: present and non-zero. */
  predicate Truthy(x: Option<real>) {
    x.Some? && x.value != 0.0
  }

  /** `report.latitude && report.longitude`. */
  predicate HasLocation(r: Report) {
    Truthy(r.latitude) && Truthy(r.longitude)
  }

  /** `r.risk_score || 0`: a null score counts as 0 (and 0 stays 0). */
  function RiskOrZero(r: Report): int {
    match r.riskScore
    case None => 0
    case Some(s) => s
  }

  /** The number of reports satisfying `p`: `reports.filter(p).length`. */
  function Count(rs: seq<Report>, p: Report -> bool): (n: nat)
    ensures n <= |rs|
    ensures n == 0 <==> forall k :: 0 <= k < |rs| ==> !p(rs[k])
    ensures n == |rs| <==> forall k :: 0 <= k < |rs| ==> p(rs[k])
  {
    if rs == [] then 0
    else Count(rs[..|rs| - 1], p) + if p(rs[|rs| - 1]) then 1 else 0
  }

  /** A weaker filter counts at least as many reports. */
  lemma {:induction false} CountMonotone(rs: seq<Report>, p: Report -> bool, q: Report -> bool)
    requires forall k :: 0 <= k < |rs| ==> p(rs[k]) ==> q(rs[k])
    ensures Count(rs, p) <= Count(rs, q)
  {
    if rs != [] {
      CountMonotone(rs[..|rs| - 1], p, q);
    }
  }

  /** Filters that no report satisfies together count at most the whole list. */
  lemma {:induction false} CountDisjoint(rs: seq<Report>, p: Report -> bool, q: Report -> bool)
    requires forall k :: 0 <= k < |rs| ==> !(p(rs[k]) && q(rs[k]))
    ensures Count(rs, p) + Count(rs, q) <= |rs|
  {
    if rs != [] {
      CountDisjoint(rs[..|rs| - 1], p, q);
    }
  }

  /** Counting with a filter and with its negation splits the list exactly. */
  lemma {:induction false} CountComplement(rs: seq<Report>, p: Report -> bool, q: Report -> bool)
    requires forall k :: 0 <= k < |rs| ==> (q(rs[k]) <==> !p(rs[k]))
    ensures Count(rs, p) + Count(rs, q) == |rs|
  {
    if rs != [] {
      CountComplement(rs[..|rs| - 1], p, q);
    }
  }

  /** `reports.filter(r => r.status === s).length`. */
  function CountStatus(rs: seq<Report>, s: string): (n: nat)
    ensures n <= |rs|
  {
    Count(rs, (r: Report) => r.status == s)
  }
}
