/** The administrator's command-center page: the hazards placed on the map, the derived
    header statistics, and the severity ordering of the alert feed. */
module AdminView {
  import opened Common
  import opened JsSemantics
  import opened Reports
  import AdminStats

  /** One hazard as the page builds it from a report. */
  datatype Hazard = Hazard(
    id: IdValue,
    lat: real,
    lng: real,
    severity: int,
    kind: string,
    status: string,
    reportedAt: string)

  /** The hazard for a located report: the score read back through `parseInt` (0 when null),
      "Hazard" without a category, "UNKNOWN" without a status, and the page's clock reading
      `now` without a creation time. */
  function ToHazard(r: Report, now: string): (h: Hazard)
    requires HasLocation(r)
    ensures h.id == r.id
    ensures h.lat == r.latitude.value && h.lng == r.longitude.value
    ensures h.lat != 0.0 && h.lng != 0.0
    ensures h.severity == RiskOrZero(r)
    ensures r.riskScore.None? ==> h.severity == 0
    ensures h.kind == if r.category == "" then "Hazard" else r.category
    ensures h.status == if r.status == "" then "UNKNOWN" else r.status
    ensures h.reportedAt == if r.createdAt == "" then now else r.createdAt
  {
    var risk := RiskOrZero(r);
    ParseIntOfIntToString(risk);
    Hazard(
      r.id,
      r.latitude.value,
      r.longitude.value,
      ParseInt(IntToString(risk)).value,
      if r.category == "" then "Hazard" else r.category,
      if r.status == "" then "UNKNOWN" else r.status,
      if r.createdAt == "" then now else r.createdAt)
  }

  /** `reportsData.filter(r => r.latitude && r.longitude).map(...)`: the hazards of the located
      reports, in report order. */
  function MapHazards(rs: seq<Report>, now: string): (hs: seq<Hazard>)
    ensures |hs| <= |rs|
    ensures forall k :: 0 <= k < |hs| ==> hs[k].lat != 0.0 && hs[k].lng != 0.0
  {
    if rs == [] then []
    else
      var last := rs[|rs| - 1];
      MapHazards(rs[..|rs| - 1], now) + if HasLocation(last) then [ToHazard(last, now)] else []
  }

  /** Every located report has its hazard on the map. */
  lemma {:induction false} LocatedReportsMapped(rs: seq<Report>, now: string, k: nat)
    requires k < |rs| && HasLocation(rs[k])
    ensures ToHazard(rs[k], now) in MapHazards(rs, now)
  {
    var init := rs[..|rs| - 1];
    if k < |rs| - 1 {
      assert rs[k] == init[k];
      LocatedReportsMapped(init, now, k);
    }
  }

  /** The map holds exactly one hazard per located report. */
  lemma {:induction false} HazardCount(rs: seq<Report>, now: string)
    ensures |MapHazards(rs, now)| == Count(rs, HasLocation)
  {
    if rs != [] {
      HazardCount(rs[..|rs| - 1], now);
    }
  }

  /** `(r.risk_score || 0) >= 70 && r.status !== 'RESOLVED'`. */
  predicate IsCritical(r: Report) {
    RiskOrZero(r) >= 70 && r.status != RESOLVED
  }

  /** A resolved report created on the day `today` (a `YYYY-MM-DD` prefix). */
  predicate ResolvedOn(r: Report, today: string) {
    r.status == RESOLVED && today <= r.createdAt
  }

  /** Unresolved critical reports never outnumber the reports that are not resolved. */
  lemma CriticalAtMostUnresolved(rs: seq<Report>)
    ensures Count(rs, IsCritical) + CountStatus(rs, RESOLVED) <= |rs|
  {
    CountDisjoint(rs, IsCritical, (r: Report) => r.status == RESOLVED);
  }

  /** Reports resolved today are among the resolved ones. */
  lemma ResolvedTodayAtMostResolved(rs: seq<Report>, today: string)
    ensures Count(rs, (r: Report) => ResolvedOn(r, today)) <= CountStatus(rs, RESOLVED)
  {
    CountMonotone(rs, (r: Report) => ResolvedOn(r, today), (r: Report) => r.status == RESOLVED);
  }

  /** The statistics object as the page receives it: a field is `None` when it is missing or
      not a number (`Number(x)` is NaN). */
  datatype StatsView = StatsView(inProgress: Option<int>, pending: Option<int>)

  /** The four header figures of the page. */
  datatype HeaderStats = HeaderStats(active: int, critical: nat, pending: int, resolvedToday: nat)

  /** `Number(x) || 0`. */
  function NumberOrZero(x: Option<int>): (n: int)
    ensures x.None? ==> n == 0
    ensures x.Some? ==> n == x.value
  {
    if x.Some? then x.value else 0
  }

  /** fetchData's header figures: active is in-progress plus pending with missing values as 0;
      critical and resolved-today are counted over the fetched reports. */
  function HeaderFigures(stats: StatsView, rs: seq<Report>, today: string): (h: HeaderStats)
    ensures h.active == NumberOrZero(stats.inProgress) + NumberOrZero(stats.pending)
    ensures h.pending == NumberOrZero(stats.pending)
    ensures h.critical == Count(rs, IsCritical)
    ensures h.resolvedToday == Count(rs, (r: Report) => ResolvedOn(r, today))
    ensures h.resolvedToday <= CountStatus(rs, RESOLVED)
  {
    ResolvedTodayAtMostResolved(rs, today);
    HeaderStats(
      NumberOrZero(stats.inProgress) + NumberOrZero(stats.pending),
      Count(rs, IsCritical),
      NumberOrZero(stats.pending),
      Count(rs, (r: Report) => ResolvedOn(r, today)))
  }

  /** Fed with the server's own statistics over the same reports, the active figure counts the
      pending and in-progress reports and never exceeds the number of reports. */
  lemma ActiveFromServerStats(rs: seq<Report>, today: string)
    ensures var st := AdminStats.GetDashboardStats(rs);
            var h := HeaderFigures(StatsView(Some(st.inProgress), Some(st.pending)), rs, today);
            h.active == CountStatus(rs, IN_PROGRESS) + CountStatus(rs, PENDING) &&
            h.active <= |rs|
  {
    AdminStats.StatusCountsWithinTotal(rs);
  }

  /** Non-increasing severity. */
  predicate SortedBySeverity(hs: seq<Hazard>) {
    forall p, q :: 0 <= p < q < |hs| ==> hs[p].severity >= hs[q].severity
  }

  /** Exchanges two entries of the feed. */
  method Swap(a: array<Hazard>, i: nat, j: nat)
    requires i < a.Length && j < a.Length
    modifies a
    ensures a[i] == old(a[j]) && a[j] == old(a[i])
    ensures forall k :: 0 <= k < a.Length && k != i && k != j ==> a[k] == old(a[k])
    ensures multiset(a[..]) == multiset(old(a[..]))
  {
    a[i], a[j] := a[j], a[i];
  }

  /** `hazards.sort((a, b) => b.severity - a.severity)`: the feed is reordered in place into
      non-increasing severity. */
  method SortFeed(a: array<Hazard>)
    modifies a
    ensures SortedBySeverity(a[..])
    ensures multiset(a[..]) == multiset(old(a[..]))
  {
    var i := 0;
    while i < a.Length
      invariant 0 <= i <= a.Length
      invariant forall p, q :: 0 <= p < q < i ==> a[p].severity >= a[q].severity
      invariant multiset(a[..]) == multiset(old(a[..]))
    {
      var j := i;
      while j > 0 && a[j - 1].severity < a[j].severity
        invariant 0 <= j <= i
        invariant forall p, q :: 0 <= p < q <= i && q != j ==> a[p].severity >= a[q].severity
        invariant 0 < j < i ==> a[j - 1].severity >= a[j + 1].severity
        invariant multiset(a[..]) == multiset(old(a[..]))
      {
        Swap(a, j - 1, j);
        j := j - 1;
      }
      i := i + 1;
    }
  }
}
