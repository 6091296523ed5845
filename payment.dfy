/** The escrow side of a work order: creating the payment intent, pushing the order's milestones
    to the escrow service one by one, and recording a submitted proof against one milestone. */
module Payment {
  import opened Common
  import opened JsSemantics
  import opened WorkOrders
  import AdminContractor

  const INTENT_EXISTS: string := "Payment intent already exists for this work order."
  const INTENT_NOT_FOUND: string := "Payment intent not found for this work order."
  const NO_MILESTONES: string := "No milestones found to synchronize."
  const ORDER_OR_INTENT_NOT_FOUND: string := "Work order or Payment Intent not found."
  const INVALID_INDEX: string := "Invalid milestone index."

  /** The message of a failed work-order query or of a refused escrow call; the services' own
      wording is not modelled. */
  const SERVICE_ERROR: string := "service error"

  /** Where the intent's amount comes from: the request body's own (truthy) amount, or the
      order's estimated cost when the body has none. */
  datatype IntentAmount = BodyAmount(text: string) | EstimatedCost(cost: real)

  /** The payment intent request sent to the escrow service. */
  datatype IntentRequest = IntentRequest(amount: IntentAmount, description: string, orderId: string)

  /** createIntentForWorkOrder up to the escrow call: an order that already has an intent is
      refused, the amount falls back to the estimated cost and the description to a default
      naming the order. `order` is the fetched row (`None` when the query failed); `amount` and
      `description` are the body's fields, "" when absent or falsy. A missing amount together
      with a null cost makes `.toString()` throw. */
  function CreateIntentForWorkOrder(orderId: string, amount: string, description: string,
                                    order: Option<WorkOrder>): (r: Outcome<IntentRequest>)
    ensures order.None? ==> r == Fail(500, SERVICE_ERROR)
    ensures order.Some? && order.value.intentId != "" ==> r == Fail(400, INTENT_EXISTS)
    ensures r.Ok? <==>
              order.Some? && order.value.intentId == "" &&
              (amount != "" || order.value.estimatedCost.Some?)
    ensures r.Ok? ==>
              && r.value.orderId == orderId
              && r.value.amount == (if amount != "" then BodyAmount(amount)
                                    else EstimatedCost(order.value.estimatedCost.value))
              && (description != "" ==> r.value.description == description)
              && (description == "" ==> r.value.description == "Escrow for Work Order #" + orderId)
  {
    match order
    case None => Fail(500, SERVICE_ERROR)
    case Some(o) =>
      if o.intentId != "" then Fail(400, INTENT_EXISTS)
      else if amount == "" && o.estimatedCost.None? then Fail(500, RUNTIME_ERROR)
      else
        var a := if amount != "" then BodyAmount(amount) else EstimatedCost(o.estimatedCost.value);
        var d := if description != "" then description else "Escrow for Work Order #" + orderId;
        Ok(IntentRequest(a, d, orderId))
  }

  /** The milestone sent to the escrow service for array position `i`. */
  datatype MilestonePayload = MilestonePayload(milestoneIndex: nat, description: string, amount: string)

  /** The payload for one milestone: the title, or "Phase <i+1>" without one; the amount, or "0". */
  function SyncPayload(i: nat, m: Milestone): (p: MilestonePayload)
    ensures p.milestoneIndex == i
    ensures p.description != "" && p.amount != ""
    ensures m.title != "" ==> p.description == m.title
    ensures m.title == "" ==> p.description == "Phase " + NatToString(i + 1)
    ensures m.amount != "" ==> p.amount == m.amount
    ensures m.amount == "" ==> p.amount == "0"
  {
    MilestonePayload(i,
      if m.title != "" then m.title else "Phase " + NatToString(i + 1),
      if m.amount != "" then m.amount else "0")
  }

  /** syncMilestones: without an intent the order is not found; without a milestone array there
      is nothing to synchronise; otherwise one payload per milestone, in array order, each
      carrying its own array position. `order` is the fetched row (`None` when the query failed). */
  method SyncMilestones(order: Option<WorkOrder>) returns (r: Outcome<seq<MilestonePayload>>)
    ensures order.None? || order.value.intentId == "" ==> r == Fail(404, INTENT_NOT_FOUND)
    ensures order.Some? && order.value.intentId != "" && order.value.milestones.None? ==>
              r == Fail(400, NO_MILESTONES)
    ensures order.Some? && order.value.intentId != "" && order.value.milestones.Some? ==>
              var ms := order.value.milestones.value;
              && r.Ok?
              && |r.value| == |ms|
              && forall k :: 0 <= k < |ms| ==> r.value[k] == SyncPayload(k, ms[k])
  {
    if order.None? || order.value.intentId == "" {
      return Fail(404, INTENT_NOT_FOUND);
    }
    if order.value.milestones.None? {
      return Fail(400, NO_MILESTONES);
    }
    var ms := order.value.milestones.value;
    var results: seq<MilestonePayload> := [];
    var i := 0;
    while i < |ms|
      invariant 0 <= i <= |ms|
      invariant |results| == i
      invariant forall k :: 0 <= k < i ==> results[k] == SyncPayload(k, ms[k])
    {
      results := results + [SyncPayload(i, ms[i])];
      i := i + 1;
    }
    r := Ok(results);
  }

  /** The payloads of a freshly assigned order carry no amount of their own: every one is "0",
      and the escrow milestone indices are exactly the array positions. */
  lemma SyncOfAssignedOrder(submitted: seq<Milestone>, k: nat)
    requires k < |submitted|
    ensures var p := SyncPayload(k, AdminContractor.FormatMilestones(submitted)[k]);
            p.amount == "0" && p.milestoneIndex == k &&
            (submitted[k].title != "" ==> p.description == submitted[k].title)
  {
  }

  /** The milestone list after a proof for milestone `i`: its status is ESCROW_REVIEW and its
      proof time `now`; every other field and element stays as it was. */
  function WithProof(ms: seq<Milestone>, i: nat, now: string): (r: seq<Milestone>)
    requires i < |ms|
    ensures |r| == |ms|
    ensures r[i] == ms[i].(status := ESCROW_REVIEW, proofSubmittedAt := Some(now))
    ensures forall j :: 0 <= j < |ms| && j != i ==> r[j] == ms[j]
  {
    ms[i := ms[i].(status := ESCROW_REVIEW, proofSubmittedAt := Some(now))]
  }

  /** What a successful proof submission writes and answers. */
  datatype ProofSubmission = ProofSubmission(milestones: seq<Milestone>, milestoneIndex: nat)

  /** submitMilestoneProof: the order needs an intent; the path's index is read by `parseInt`
      and must name an existing milestone; the escrow service must accept the proof; then the
      milestone array is copied and the indexed element marked ESCROW_REVIEW with its proof time.
      `order` is the fetched row, `escrowAccepted` whether the escrow call succeeded, `now` the
      clock reading. A null milestone column makes the index lookup throw. */
  method SubmitMilestoneProof(order: Option<WorkOrder>, index: string, escrowAccepted: bool, now: string)
    returns (r: Outcome<ProofSubmission>)
    ensures order.None? || order.value.intentId == "" ==> r == Fail(404, ORDER_OR_INTENT_NOT_FOUND)
    ensures order.Some? && order.value.intentId != "" ==>
              match ParseInt(index)
              case None => r == Fail(400, INVALID_INDEX)
              case Some(i) =>
                match order.value.milestones
                case None => r == Fail(500, RUNTIME_ERROR)
                case Some(ms) =>
                  if !(0 <= i < |ms|) then r == Fail(400, INVALID_INDEX)
                  else if !escrowAccepted then r == Fail(500, SERVICE_ERROR)
                  else r == Ok(ProofSubmission(WithProof(ms, i, now), i))
  {
    if order.None? || order.value.intentId == "" {
      return Fail(404, ORDER_OR_INTENT_NOT_FOUND);
    }
    var parsed := ParseInt(index);
    if parsed.None? {
      return Fail(400, INVALID_INDEX);
    }
    var i := parsed.value;
    if order.value.milestones.None? {
      return Fail(500, RUNTIME_ERROR);
    }
    var source := order.value.milestones.value;
    if !(0 <= i < |source|) {
      return Fail(400, INVALID_INDEX);
    }
    if !escrowAccepted {
      return Fail(500, SERVICE_ERROR);
    }
    var updated := new Milestone[|source|](j requires 0 <= j < |source| => source[j]);
    updated[i] := updated[i].(status := ESCROW_REVIEW);
    updated[i] := updated[i].(proofSubmittedAt := Some(now));
    assert updated[..] == WithProof(source, i, now);
    r := Ok(ProofSubmission(updated[..], i));
  }

  /** A proof is recorded under a status that differs from the contractor's own review request
      only in case, so the two writes never produce the same milestone. */
  lemma ProofAndReviewRequestDiffer(ms: seq<Milestone>, i: nat, now: string)
    requires i < |ms|
    ensures WithProof(ms, i, now)[i].status != WithStatus(ms, i, REVIEW)[i].status
    ensures WithProof(ms, i, now)[i].status == ESCROW_REVIEW
  {
    assert ESCROW_REVIEW[0] != REVIEW[0];
  }
}
