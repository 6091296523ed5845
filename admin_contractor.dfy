/** The administrator's side of the work-order workflow: assigning a report to a contractor as a
    new work order, and approving one milestone of an order. */
module AdminContractor {
  import opened Common
  import opened WorkOrders

  /** The body of an assignment request. The empty string stands for an absent or falsy field;
      `estimatedCost` is the result of `parseFloat`, `None` when that is NaN; `milestones` is
      `None` when the field is absent. */
  datatype AssignRequest = AssignRequest(
    reportId: string,
    contractorId: string,
    milestones: Option<seq<Milestone>>,
    estimatedCost: Option<real>,
    priority: string,
    deadline: string,
    adminNotes: string)

  /** What an assignment writes: the inserted work order, and the status the parent report
      is updated to. */
  datatype Assignment = Assignment(order: WorkOrder, reportStatus: string)

  const REPORT_IN_PROGRESS: string := "IN_PROGRESS"

  /** A submitted milestone as stored: title and description kept, status pending, nothing else. */
  function Formatted(m: Milestone): Milestone {
    Milestone(m.title, m.description, PENDING, "", None)
  }

  /** `milestones.map(m => ({ title, description, status: 'pending' }))`. */
  function FormatMilestones(ms: seq<Milestone>): (r: seq<Milestone>)
    ensures |r| == |ms|
    ensures forall k :: 0 <= k < |ms| ==>
              && r[k].title == ms[k].title
              && r[k].description == ms[k].description
              && r[k].status == PENDING
              && r[k].amount == ""
              && r[k].proofSubmittedAt.None?
  {
    seq(|ms|, k requires 0 <= k < |ms| => Formatted(ms[k]))
  }

  /** assignWork: the report must exist, then the milestones are formatted and a work order
      with the defaults below is inserted, and the report moves to IN_PROGRESS. `reportFound`
      is the outcome of the report lookup. */
  function AssignWork(reportFound: bool, req: AssignRequest): (r: Outcome<Assignment>)
    ensures !reportFound ==> r == Fail(500, "Report not found")
    ensures reportFound && req.milestones.None? ==> r == Fail(500, RUNTIME_ERROR)
    ensures r.Ok? <==> reportFound && req.milestones.Some?
    ensures r.Ok? ==>
              var o := r.value.order;
              && o.reportId == req.reportId
              && o.contractorId == req.contractorId
              && o.status == ASSIGNED
              && o.priority == (if req.priority == "" then "Medium" else req.priority)
              && o.estimatedCost == req.estimatedCost
              && o.deadline == (if req.deadline == "" then None else Some(req.deadline))
              && o.adminNotes == req.adminNotes
              && o.milestones == Some(FormatMilestones(req.milestones.value))
              && o.intentId == ""
              && o.completedAt.None?
              && r.value.reportStatus == REPORT_IN_PROGRESS
  {
    if !reportFound then Fail(500, "Report not found")
    else if req.milestones.None? then Fail(500, RUNTIME_ERROR)
    else
      var order := WorkOrder(
        req.reportId, req.contractorId, ASSIGNED,
        if req.priority == "" then "Medium" else req.priority,
        req.estimatedCost,
        if req.deadline == "" then None else Some(req.deadline),
        req.adminNotes,
        Some(FormatMilestones(req.milestones.value)),
        "", None);
      Ok(Assignment(order, REPORT_IN_PROGRESS))
  }

  /** What an approval writes back to the order, and whether it completed the order. */
  datatype Approval = Approval(
    milestones: seq<Milestone>,
    status: string,
    completedAt: Option<string>,
    allCompleted: bool)

  /** approveMilestone: the order's milestone array is copied, the indexed element is set to
      completed in place, and the order is completed exactly when every milestone now is.
      `order` is the fetched row (`None` when the lookup failed); `now` is the clock reading. */
  method ApproveMilestone(order: Option<WorkOrder>, index: int, now: string) returns (r: Outcome<Approval>)
    ensures order.None? ==> r == Fail(500, "Work order not found")
    ensures order.Some? && order.value.milestones.None? ==> r == Fail(500, RUNTIME_ERROR)
    ensures order.Some? && order.value.milestones.Some? ==>
              var ms := order.value.milestones.value;
              if 0 <= index < |ms| then
                && r.Ok?
                && r.value.milestones == WithStatus(ms, index, COMPLETED)
                && (r.value.allCompleted <==>
                      forall j :: 0 <= j < |ms| && j != index ==> ms[j].status == COMPLETED)
                && r.value.status == (if r.value.allCompleted then COMPLETED else order.value.status)
                && r.value.completedAt == (if r.value.allCompleted then Some(now) else None)
              else r == Fail(500, "Milestone index out of bounds")
  {
    if order.None? {
      return Fail(500, "Work order not found");
    }
    if order.value.milestones.None? {
      return Fail(500, RUNTIME_ERROR);
    }
    var source := order.value.milestones.value;
    var milestones := new Milestone[|source|](j requires 0 <= j < |source| => source[j]);
    if !(0 <= index < milestones.Length) {
      return Fail(500, "Milestone index out of bounds");
    }
    milestones[index] := milestones[index].(status := COMPLETED);
    var written := milestones[..];
    assert written == WithStatus(source, index, COMPLETED);
    var allCompleted := AllCompleted(written);
    var finalStatus := if allCompleted then COMPLETED else order.value.status;
    r := Ok(Approval(written, finalStatus, if allCompleted then Some(now) else None, allCompleted));
  }
}
