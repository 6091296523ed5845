/** Work orders and their milestones as the `work_orders` table stores them (the milestones in
    a JSON column), with the status words that the controllers and the contractor page share. */
module WorkOrders {
  import opened Common

  /** Milestone statuses. The escrow proof path writes ESCROW_REVIEW, which differs from REVIEW
      in case only, and no other part of the system treats the two as the same. */
  const PENDING: string := "pending"
  const REVIEW: string := "review"
  const ESCROW_REVIEW: string := "REVIEW"
  const COMPLETED: string := "completed"

  /** The status a freshly assigned work order has. */
  const ASSIGNED: string := "assigned"

  /** One milestone object. The empty string stands for an absent or falsy string field. */
  datatype Milestone = Milestone(
    title: string,
    description: string,
    status: string,
    amount: string,
    proofSubmittedAt: Option<string>)

  /** One row of `work_orders`. `milestones` is `None` when the column is null or not an
      array; `intentId` is "" while no escrow payment intent exists. */
  datatype WorkOrder = WorkOrder(
    reportId: string,
    contractorId: string,
    status: string,
    priority: string,
    estimatedCost: Option<real>,
    deadline: Option<string>,
    adminNotes: string,
    milestones: Option<seq<Milestone>>,
    intentId: string,
    completedAt: Option<string>)

  /** The milestone list after `milestones[i].status = s`: element `i` takes status `s` and keeps
      every other field, and every other element stays as it was. */
  function WithStatus(ms: seq<Milestone>, i: nat, s: string): (r: seq<Milestone>)
    requires i < |ms|
    ensures |r| == |ms|
    ensures r[i].status == s
    ensures r[i].title == ms[i].title && r[i].description == ms[i].description
    ensures r[i].amount == ms[i].amount && r[i].proofSubmittedAt == ms[i].proofSubmittedAt
    ensures forall j :: 0 <= j < |ms| && j != i ==> r[j] == ms[j]
  {
    ms[i := ms[i].(status := s)]
  }

  /** `milestones.every(m => m.status === 'completed')`. */
  predicate AllCompleted(ms: seq<Milestone>) {
    forall j :: 0 <= j < |ms| ==> ms[j].status == COMPLETED
  }

  /** Writing a status a milestone already has changes nothing. */
  lemma WithSameStatusIsIdentity(ms: seq<Milestone>, i: nat, s: string)
    requires i < |ms| && ms[i].status == s
    ensures WithStatus(ms, i, s) == ms
  {
    assert ms[i].(status := s) == ms[i];
  }

  /** The milestone list after one approval per listed index, in the listed order. */
  function ApplyApprovals(ms: seq<Milestone>, indices: seq<nat>): (r: seq<Milestone>)
    requires forall k :: 0 <= k < |indices| ==> indices[k] < |ms|
    ensures |r| == |ms|
  {
    if indices == [] then ms
    else WithStatus(ApplyApprovals(ms, indices[..|indices| - 1]), indices[|indices| - 1], COMPLETED)
  }

  /** Approvals never undo a completion, and every approved index ends up completed; the
      titles and descriptions stay as they were. */
  lemma {:induction false} ApprovalsComplete(ms: seq<Milestone>, indices: seq<nat>, j: nat)
    requires forall k :: 0 <= k < |indices| ==> indices[k] < |ms|
    requires j < |ms|
    ensures ApplyApprovals(ms, indices)[j].title == ms[j].title
    ensures ApplyApprovals(ms, indices)[j].status ==
              if j in indices then COMPLETED else ms[j].status
  {
    if indices != [] {
      var init := indices[..|indices| - 1];
      ApprovalsComplete(ms, init, j);
      assert j in indices <==> j in init || j == indices[|indices| - 1];
    }
  }

  /** Approving every index, in any order and with repetitions, completes every milestone. */
  lemma ApprovingEveryIndexCompletesAll(ms: seq<Milestone>, indices: seq<nat>)
    requires forall k :: 0 <= k < |indices| ==> indices[k] < |ms|
    requires forall j :: 0 <= j < |ms| ==> j in indices
    ensures AllCompleted(ApplyApprovals(ms, indices))
  {
    forall j | 0 <= j < |ms|
      ensures ApplyApprovals(ms, indices)[j].status == COMPLETED
    {
      ApprovalsComplete(ms, indices, j);
    }
  }
}
