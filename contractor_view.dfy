/** The contractor's roadmap of an order's milestones: which milestones are locked, what marker
    each shows and which action it offers. The sequential gating lives only in this view. */
module ContractorView {
  import opened WorkOrders

  /** The marker in front of a milestone: a check mark, or its 1-based position. */
  datatype Marker = Check | Position(n: nat)

  /** The action area of a milestone. */
  datatype Action =
    | RequestReviewButton(disabled: bool, caption: string)
    | ReviewInProgressBadge
    | CompletedBadge

  /** One rendered row of the roadmap. */
  datatype Row = Row(marker: Marker, locked: bool, action: Action)

  /** The previous milestone has not been completed (false for the first milestone). */
  predicate WaitsForPrevious(ms: seq<Milestone>, idx: nat)
    requires idx < |ms|
  {
    idx > 0 && ms[idx - 1].status != COMPLETED
  }

  /** The row rendered for milestone `idx`. */
  function RoadmapRow(ms: seq<Milestone>, idx: nat): (row: Row)
    requires idx < |ms|
    ensures row.locked <==> ms[idx].status == PENDING && idx > 0 && ms[idx - 1].status != COMPLETED
    ensures row.marker == if ms[idx].status == COMPLETED then Check else Position(idx + 1)
    ensures row.action.RequestReviewButton? <==> ms[idx].status == PENDING
    ensures row.action.ReviewInProgressBadge? <==> ms[idx].status == REVIEW
    ensures row.action.CompletedBadge? <==> ms[idx].status != PENDING && ms[idx].status != REVIEW
    ensures row.locked ==> row.action == RequestReviewButton(true, "Wait for Previous")
    ensures row.action.RequestReviewButton? && !row.locked ==>
              row.action == RequestReviewButton(false, "Request Review")
  {
    var step := ms[idx];
    var waiting := WaitsForPrevious(ms, idx);
    var marker := if step.status == COMPLETED then Check else Position(idx + 1);
    var action :=
      if step.status == PENDING then
        RequestReviewButton(waiting, if waiting then "Wait for Previous" else "Request Review")
      else if step.status == REVIEW then ReviewInProgressBadge
      else CompletedBadge;
    Row(marker, step.status == PENDING && waiting, action)
  }

  /** The first milestone, and any milestone that is not pending, is never locked. */
  lemma NeverLocked(ms: seq<Milestone>, idx: nat)
    requires idx < |ms|
    requires idx == 0 || ms[idx].status != PENDING
    ensures !RoadmapRow(ms, idx).locked
  {
  }

  /** The roadmap of an order fresh from assignment: the first milestone can be requested and
      every later one is locked. */
  lemma FreshOrderRoadmap(ms: seq<Milestone>, idx: nat)
    requires idx < |ms|
    requires forall k :: 0 <= k < |ms| ==> ms[k].status == PENDING
    ensures RoadmapRow(ms, idx).locked <==> idx > 0
    ensures RoadmapRow(ms, idx).marker == Position(idx + 1)
  {
    assert idx > 0 ==> ms[idx - 1].status == PENDING;
  }

  /** Approving milestone `idx - 1` unlocks milestone `idx`. */
  lemma ApprovalUnlocksNext(ms: seq<Milestone>, idx: nat)
    requires 0 < idx < |ms|
    ensures !RoadmapRow(WithStatus(ms, idx - 1, COMPLETED), idx).locked
  {
    var after := WithStatus(ms, idx - 1, COMPLETED);
    assert after[idx - 1].status == COMPLETED;
  }

  /** A milestone whose proof went through the escrow path carries ESCROW_REVIEW, which the
      view matches neither as pending nor as review: it shows the Completed badge, not
      "Review In Progress", although the milestone has not been approved. */
  lemma EscrowReviewShowsCompleted(ms: seq<Milestone>, idx: nat)
    requires idx < |ms| && ms[idx].status == ESCROW_REVIEW
    ensures RoadmapRow(ms, idx).action == CompletedBadge
    ensures RoadmapRow(ms, idx).marker == Position(idx + 1)
  {
    assert ESCROW_REVIEW[0] != REVIEW[0];
    assert ESCROW_REVIEW[0] != PENDING[0];
    assert ESCROW_REVIEW[0] != COMPLETED[0];
  }
}
