/** The administrator's report endpoints on the server: a partial status/risk update of one
    report, and the dashboard statistics over all reports. */
module AdminStats {
  import opened Common
  import opened JsSemantics
  import opened Reports

  /** A JSON risk score that is present in a body: `null` or a number. */
  datatype JsonScore = NullScore | Score(n: int)

  /** The fields of an update request body: `status` is "" when absent or falsy, `riskScore`
      is `None` when the field is undefined. */
  datatype UpdateBody = UpdateBody(status: string, riskScore: Option<JsonScore>)

  /** The update record sent to the database: a field is `None` when it is left out. */
  datatype ReportUpdate = ReportUpdate(status: Option<string>, riskScore: Option<JsonScore>)

  /** updateReportStatus: the update record starts empty, takes the status only when it is
      truthy, and takes the risk score whenever it is defined, so 0 and null are written too. */
  method UpdateReportStatus(body: UpdateBody) returns (update: ReportUpdate)
    ensures update.status.Some? <==> body.status != ""
    ensures update.status.Some? ==> update.status.value == body.status
    ensures update.riskScore == body.riskScore
  {
    update := ReportUpdate(None, None);
    if body.status != "" {
      update := update.(status := Some(body.status));
    }
    if body.riskScore.Some? {
      update := update.(riskScore := body.riskScore);
    }
  }

  /** The row after the database applies an update record to it. */
  function ApplyUpdate(r: Report, u: ReportUpdate): (r': Report)
    ensures r'.id == r.id && r'.latitude == r.latitude && r'.longitude == r.longitude
    ensures r'.category == r.category && r'.createdAt == r.createdAt
    ensures r'.status == if u.status.Some? then u.status.value else r.status
    ensures u.riskScore.None? ==> r'.riskScore == r.riskScore
    ensures u.riskScore == Some(NullScore) ==> r'.riskScore.None?
    ensures u.riskScore.Some? && u.riskScore.value.Score? ==> r'.riskScore == Some(u.riskScore.value.n)
  {
    var withStatus := if u.status.Some? then r.(status := u.status.value) else r;
    match u.riskScore
    case None => withStatus
    case Some(NullScore) => withStatus.(riskScore := None)
    case Some(Score(n)) => withStatus.(riskScore := Some(n))
  }

  /** Applying the same update twice is the same as applying it once. */
  lemma ApplyUpdateIdempotent(r: Report, u: ReportUpdate)
    ensures ApplyUpdate(ApplyUpdate(r, u), u) == ApplyUpdate(r, u)
  {
  }

  /** The statistics object answered by getDashboardStats. */
  datatype DashboardStats = DashboardStats(
    total: nat,
    pending: nat,
    resolved: nat,
    inProgress: nat,
    avgRiskScore: int)

  /** `reports.reduce((sum, r) => sum + (r.risk_score || 0), 0)`. */
  function SumRisk(rs: seq<Report>): int {
    if rs == [] then 0 else SumRisk(rs[..|rs| - 1]) + RiskOrZero(rs[|rs| - 1])
  }

  /** getDashboardStats over the fetched rows: the total, the exact-match status counts, and
      the rounded mean risk score (0 for no reports). */
  function GetDashboardStats(rs: seq<Report>): (st: DashboardStats)
    ensures st.total == |rs|
    ensures st.pending == CountStatus(rs, PENDING)
    ensures st.resolved == CountStatus(rs, RESOLVED)
    ensures st.inProgress == CountStatus(rs, IN_PROGRESS)
    ensures rs == [] ==> st.avgRiskScore == 0
    ensures rs != [] ==>
              var mean := SumRisk(rs) as real / |rs| as real;
              mean - 0.5 < st.avgRiskScore as real <= mean + 0.5
  {
    DashboardStats(
      |rs|,
      CountStatus(rs, PENDING),
      CountStatus(rs, RESOLVED),
      CountStatus(rs, IN_PROGRESS),
      if |rs| > 0 then JsRound(SumRisk(rs) as real / |rs| as real) else 0)
  }

  /** The three status counts are disjoint, so together they never exceed the total. */
  lemma StatusCountsWithinTotal(rs: seq<Report>)
    ensures var st := GetDashboardStats(rs);
            st.pending + st.resolved + st.inProgress <= st.total
  {
    var isPending := (r: Report) => r.status == PENDING;
    var isResolved := (r: Report) => r.status == RESOLVED;
    var isInProgress := (r: Report) => r.status == IN_PROGRESS;
    var isSettled := (r: Report) => r.status == RESOLVED || r.status == IN_PROGRESS;
    CountDisjoint(rs, isResolved, isInProgress);
    CountDisjoint(rs, isPending, isSettled);
    CountSplit(rs, isResolved, isInProgress, isSettled);
  }

  /** A filter that is the disjoint union of two others counts their sum. */
  lemma {:induction false} CountSplit(rs: seq<Report>, p: Report -> bool, q: Report -> bool, u: Report -> bool)
    requires forall k :: 0 <= k < |rs| ==> (u(rs[k]) <==> p(rs[k]) || q(rs[k]))
    requires forall k :: 0 <= k < |rs| ==> !(p(rs[k]) && q(rs[k]))
    ensures Count(rs, u) == Count(rs, p) + Count(rs, q)
  {
    if rs != [] {
      CountSplit(rs[..|rs| - 1], p, q, u);
    }
  }

  /** Risk scores between `lo` and `hi` add up to between `lo` and `hi` times their number. */
  lemma {:induction false} SumRiskBounds(rs: seq<Report>, lo: int, hi: int)
    requires forall k :: 0 <= k < |rs| ==> lo <= RiskOrZero(rs[k]) <= hi
    ensures lo * |rs| <= SumRisk(rs) <= hi * |rs|
  {
    if rs != [] {
      SumRiskBounds(rs[..|rs| - 1], lo, hi);
    }
  }

  /** The average risk score lies between the smallest and the largest score (a null score
      counting as 0). */
  lemma AverageWithinBounds(rs: seq<Report>, lo: int, hi: int)
    requires rs != []
    requires forall k :: 0 <= k < |rs| ==> lo <= RiskOrZero(rs[k]) <= hi
    ensures lo <= GetDashboardStats(rs).avgRiskScore <= hi
  {
    MeanRiskWithinBounds(rs, lo, hi);
    assert GetDashboardStats(rs).avgRiskScore == JsRound(SumRisk(rs) as real / |rs| as real);
  }

  lemma MeanRiskWithinBounds(rs: seq<Report>, lo: int, hi: int)
    requires rs != []
    requires forall k :: 0 <= k < |rs| ==> lo <= RiskOrZero(rs[k]) <= hi
    ensures lo as real <= SumRisk(rs) as real / |rs| as real <= hi as real
  {
    SumRiskBounds(rs, lo, hi);
    MeanOfBoundedSum(SumRisk(rs), |rs|, lo, hi);
  }

  /** An integer total between `lo * n` and `hi * n`, divided by `n`, stays between `lo` and `hi`. */
  lemma MeanOfBoundedSum(s: int, n: int, lo: int, hi: int)
    requires n > 0 && lo * n <= s <= hi * n
    ensures lo as real <= s as real / n as real <= hi as real
  {
    ProductAsReal(lo, n);
    ProductAsReal(hi, n);
    MeanBounds(s as real, n as real, lo as real, hi as real);
  }

  lemma ProductAsReal(x: int, y: int)
    ensures (x * y) as real == x as real * y as real
  {
  }

  /** Dividing a total bounded by `lo * n` and `hi * n` by `n` stays between `lo` and `hi`. */
  lemma MeanBounds(s: real, n: real, lo: real, hi: real)
    requires n > 0.0 && lo * n <= s <= hi * n
    ensures lo <= s / n <= hi
  {
    assert s / n * n == s;
  }
}
