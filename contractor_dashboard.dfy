/** The contractor's side of the work-order workflow on the server: the dashboard statistics,
    a status change of a whole order, and a request to have one milestone verified. */
module ContractorDashboard {
  import opened Common
  import opened WorkOrders

  const UNAUTHORIZED: string := "Unauthorized: Missing user-id header"

  datatype ContractorStats = ContractorStats(
    totalEarnings: real,
    pendingWorks: nat,
    completedWorks: nat,
    assignedOrders: seq<WorkOrder>)

  /** `parseFloat(o.estimated_cost) || 0`: a null (unparseable) cost counts as 0. */
  function CostOrZero(o: WorkOrder): real {
    match o.estimatedCost
    case None => 0.0
    case Some(c) => c
  }

  /** `orders.filter(o => o.status === 'completed')`. */
  function CompletedOrders(orders: seq<WorkOrder>): (r: seq<WorkOrder>)
    ensures |r| <= |orders|
    ensures forall o :: o in r <==> o in orders && o.status == COMPLETED
    ensures forall o :: multiset(r)[o] == if o.status == COMPLETED then multiset(orders)[o] else 0
  {
    if orders == [] then []
    else
      var init, last := orders[..|orders| - 1], orders[|orders| - 1];
      assert orders == init + [last];
      CompletedOrders(init) + if last.status == COMPLETED then [last] else []
  }

  /** `orders.filter(o => o.status !== 'completed')`. */
  function PendingOrders(orders: seq<WorkOrder>): (r: seq<WorkOrder>)
    ensures |r| <= |orders|
    ensures forall o :: o in r <==> o in orders && o.status != COMPLETED
    ensures forall o :: multiset(r)[o] == if o.status != COMPLETED then multiset(orders)[o] else 0
  {
    if orders == [] then []
    else
      var init, last := orders[..|orders| - 1], orders[|orders| - 1];
      assert orders == init + [last];
      PendingOrders(init) + if last.status != COMPLETED then [last] else []
  }

  /** `reduce((sum, o) => sum + (parseFloat(o.estimated_cost) || 0), 0)`. */
  function SumCosts(orders: seq<WorkOrder>): real {
    if orders == [] then 0.0 else SumCosts(orders[..|orders| - 1]) + CostOrZero(orders[|orders| - 1])
  }

  /** getDashboardData: a missing `user-id` header is refused before anything is read; otherwise
      the statistics are folded from `orders`, the rows fetched for that contractor. */
  function GetDashboardData(userId: string, orders: seq<WorkOrder>): (r: Outcome<ContractorStats>)
    ensures userId == "" <==> r == Fail(401, UNAUTHORIZED)
    ensures r.Ok? ==>
              && r.value.pendingWorks + r.value.completedWorks == |orders|
              && r.value.completedWorks == |CompletedOrders(orders)|
              && r.value.totalEarnings == SumCosts(CompletedOrders(orders))
              && r.value.assignedOrders == orders
  {
    if userId == "" then Fail(401, UNAUTHORIZED)
    else
      CountsPartition(orders);
      var done := CompletedOrders(orders);
      Ok(ContractorStats(SumCosts(done), |PendingOrders(orders)|, |done|, orders))
  }

  /** Every order is either completed or pending, never both. */
  lemma {:induction false} CountsPartition(orders: seq<WorkOrder>)
    ensures |CompletedOrders(orders)| + |PendingOrders(orders)| == |orders|
  {
    if orders != [] {
      CountsPartition(orders[..|orders| - 1]);
    }
  }

  /** Earnings grow by the cost of a completed order and ignore every other order. */
  lemma EarningsOfAppendedOrder(orders: seq<WorkOrder>, o: WorkOrder)
    ensures SumCosts(CompletedOrders(orders + [o])) ==
              SumCosts(CompletedOrders(orders)) + (if o.status == COMPLETED then CostOrZero(o) else 0.0)
  {
    var all := orders + [o];
    assert all[..|all| - 1] == orders;
    var before := CompletedOrders(orders);
    assert CompletedOrders(all) == before + if o.status == COMPLETED then [o] else [];
    if o.status == COMPLETED {
      var c := before + [o];
      assert c[..|c| - 1] == before;
    } else {
      assert before + [] == before;
    }
  }

  /** With non-negative costs, earnings are never negative. */
  lemma {:induction false} EarningsNonNegative(orders: seq<WorkOrder>)
    requires forall k :: 0 <= k < |orders| ==> CostOrZero(orders[k]) >= 0.0
    ensures SumCosts(CompletedOrders(orders)) >= 0.0
  {
    if orders != [] {
      var init, last := orders[..|orders| - 1], orders[|orders| - 1];
      assert init + [last] == orders;
      EarningsNonNegative(init);
      EarningsOfAppendedOrder(init, last);
    }
  }

  /** The fields updateOrderStatus writes. */
  datatype OrderStatusUpdate = OrderStatusUpdate(status: string, completedAt: Option<string>)

  /** updateOrderStatus: the status is written as given, and the completion time is added
      exactly when that status is `completed`. */
  method UpdateOrderStatus(status: string, now: string) returns (update: OrderStatusUpdate)
    ensures update.status == status
    ensures update.completedAt.Some? <==> status == COMPLETED
    ensures update.completedAt.Some? ==> update.completedAt.value == now
  {
    update := OrderStatusUpdate(status, None);
    if status == COMPLETED {
      update := update.(completedAt := Some(now));
    }
  }

  /** requestMilestoneVerification: the milestone array is copied and the indexed element set to
      `review` in place, whatever it was before, with no check of earlier milestones.
      `order` is the fetched row (`None` when the lookup failed). */
  method RequestMilestoneVerification(order: Option<WorkOrder>, index: int) returns (r: Outcome<seq<Milestone>>)
    ensures order.None? ==> r == Fail(500, "Work order not found")
    ensures order.Some? && order.value.milestones.None? ==> r == Fail(500, RUNTIME_ERROR)
    ensures order.Some? && order.value.milestones.Some? ==>
              var ms := order.value.milestones.value;
              if 0 <= index < |ms| then r == Ok(WithStatus(ms, index, REVIEW))
              else r == Fail(500, "Milestone index out of bounds")
  {
    if order.None? {
      return Fail(500, "Work order not found");
    }
    if order.value.milestones.None? {
      return Fail(500, RUNTIME_ERROR);
    }
    var source := order.value.milestones.value;
    var milestones := new Milestone[|source|](j requires 0 <= j < |source| => source[j]);
    if !(0 <= index < milestones.Length) {
      return Fail(500, "Milestone index out of bounds");
    }
    milestones[index] := milestones[index].(status := REVIEW);
    assert milestones[..] == WithStatus(source, index, REVIEW);
    r := Ok(milestones[..]);
  }
}
