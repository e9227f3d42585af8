/** The administrator's order routes (`server/routes/adminRoutes.js`): the
    order list, the status overwrite and the dashboard figures. */
module AdminRoutes {
  import opened Common
  import opened OrderModel
  import Sorting
  import OrderRoutes

  /** `GET /orders`: every order, newest first. */
  function AllOrders(orders: seq<Order>): (r: seq<Order>)
    ensures |r| == |orders| && multiset(r) == multiset(orders)
    ensures Sorting.SortedDesc(r, (o: Order) => o.createdAt)
  {
    Sorting.SortDesc(orders, (o: Order) => o.createdAt)
  }

  /** The answers of `PUT /orders/:id/status`: not found (404), a save that
      fails the status enum check (500), or the saved order. */
  datatype StatusOutcome =
    | StatusOrderNotFound
    | StatusRejected
    | StatusUpdated(order: Order)

  /** `order.status = req.body.status || order.status`, then `save()`.
      `requested` is the body's status, `""` when it is absent or empty (both
      falsy). No transition rule is checked. The save refreshes `updatedAt`
      only when the status actually changed: an unmodified document is not
      written. */
  function StatusUpdate(orders: seq<Order>, id: Id, requested: string, now: int): (out: StatusOutcome)
    ensures out.StatusOrderNotFound? <==> FindOrder(orders, id).None?
    ensures out.StatusRejected? <==>
      FindOrder(orders, id).Some? && requested != "" && ParseStatus(requested).None?
    ensures out.StatusUpdated? ==>
      var o := orders[FindOrder(orders, id).value];
      && out.order == o.(status := out.order.status, updatedAt := out.order.updatedAt)
      && (requested == "" ==> out.order == o)
      && (requested != "" ==> StatusName(out.order.status) == requested)
      && out.order.updatedAt == (if out.order.status == o.status then o.updatedAt else now)
  {
    match FindOrder(orders, id)
    case None => StatusOrderNotFound
    case Some(k) =>
      var o := orders[k];
      if requested == "" then StatusUpdated(o)
      else
        match ParseStatus(requested)
        case None => StatusRejected
        case Some(st) =>
          StatusUpdated(o.(status := st, updatedAt := if st == o.status then o.updatedAt else now))
  }

  /** The overwrite never consults the current status: any status may follow
      any other, `delivered` to `pending` and `cancelled` to `shipped`
      included. */
  lemma {:induction false} StatusUpdateIgnoresCurrent(orders: seq<Order>, id: Id, st: OrderStatus, now: int)
    requires FindOrder(orders, id).Some?
    ensures StatusUpdate(orders, id, StatusName(st), now).StatusUpdated?
    ensures StatusUpdate(orders, id, StatusName(st), now).order.status == st
  {
    ParseStatusName(st);
  }

  /** `PUT /orders/:id/status`: overwrites the status of the stored order. */
  method UpdateOrderStatus(store: OrderStore, id: Id, requested: string, now: int)
    returns (out: StatusOutcome)
    requires store.Valid()
    modifies store
    ensures store.Valid() && store.nextId == old(store.nextId)
    ensures out == StatusUpdate(old(store.orders), id, requested, now)
    ensures out.StatusUpdated? ==>
      store.orders == old(store.orders)[FindOrder(old(store.orders), id).value := out.order]
    ensures !out.StatusUpdated? ==> store.orders == old(store.orders)
  {
    out := StatusUpdate(store.orders, id, requested, now);
    if out.StatusUpdated? {
      var k := FindOrder(store.orders, id).value;
      store.orders := store.orders[k := out.order];
    }
  }

  /** Marking an order `delivered` again after moving it to another status
      restarts its return window: the window is measured from `updatedAt`,
      which that save refreshes. */
  lemma {:induction false} RedeliveryRestartsReturnWindow(
    orders: seq<Order>, nextId: nat, id: Id, caller: Caller, now: int,
    reason: Option<string>, photos: Option<seq<string>>, later: int)
    requires IdsBelow(orders, nextId)
    requires FindOrder(orders, id).Some?
    requires orders[FindOrder(orders, id).value].user == caller.id
    requires orders[FindOrder(orders, id).value].status != Delivered
    requires now <= later < now + OrderRoutes.DayMs
    ensures var k := FindOrder(orders, id).value;
      var after := orders[k := StatusUpdate(orders, id, "delivered", now).order];
      OrderRoutes.ReturnDecision(after, id, caller, reason, photos, later).ReturnAccepted?
  {
    var k := FindOrder(orders, id).value;
    var out := StatusUpdate(orders, id, "delivered", now);
    assert ParseStatus("delivered") == Some(Delivered);
    var after := orders[k := out.order];
    assert IdsBelow(after, nextId) by {
      assert forall i :: 0 <= i < |after| ==> after[i].id == orders[i].id;
    }
    FindUnique(after, nextId, k);
    OrderRoutes.ReturnWindowBoundary(now, later);
  }

  /** `sum + (order.totalAmount || 0)` summed over `orders`; the amount is a
      required number, so the fallback changes nothing here. */
  function SumTotals(orders: seq<Order>): int
  {
    if orders == [] then 0 else orders[0].totalAmount + SumTotals(orders[1..])
  }

  /** The orders the revenue query selects: `status: { $ne: 'cancelled' }`. */
  predicate Counted(o: Order)
  {
    o.status != Cancelled
  }

  /** `totalRevenue`: the subtotals of all orders that are not cancelled.
      Courier charges are not part of it. */
  function Revenue(orders: seq<Order>): int
  {
    SumTotals(Filter(orders, Counted))
  }

  lemma {:induction false} SumTotalsAppend(a: seq<Order>, b: seq<Order>)
    ensures SumTotals(a + b) == SumTotals(a) + SumTotals(b)
  {
    if a != [] {
      assert (a + b)[1..] == a[1..] + b;
      SumTotalsAppend(a[1..], b);
    } else {
      assert a + b == b;
    }
  }

  /** Revenue over two lists of orders is the sum of their revenues. */
  lemma RevenueAppend(a: seq<Order>, b: seq<Order>)
    ensures Revenue(a + b) == Revenue(a) + Revenue(b)
  {
    FilterAppend(a, b, Counted);
    SumTotalsAppend(Filter(a, Counted), Filter(b, Counted));
  }

  /** One more order adds its subtotal to the revenue unless it is cancelled;
      returned and return-requested orders still count. */
  lemma RevenueAddOrder(orders: seq<Order>, o: Order)
    ensures Revenue(orders + [o]) == Revenue(orders) + (if o.status == Cancelled then 0 else o.totalAmount)
    ensures o.status == Cancelled ==> Revenue(orders + [o]) == Revenue(orders)
    ensures o.status in {Returned, ReturnRequested} ==> Revenue(orders + [o]) == Revenue(orders) + o.totalAmount
  {
    RevenueAppend(orders, [o]);
    assert [o][1..] == [];
    assert Filter([o], Counted) == if Counted(o) then [o] else [];
    assert SumTotals([o]) == o.totalAmount;
  }

  /** The revenue is the sum over all orders minus the sum over the cancelled
      ones, so with non-negative subtotals it lies between 0 and the sum of
      every subtotal. */
  lemma RevenueSplit(orders: seq<Order>)
    ensures Revenue(orders) == SumTotals(orders) - SumTotals(Filter(orders, (o: Order) => o.status == Cancelled))
    ensures (forall i :: 0 <= i < |orders| ==> orders[i].totalAmount >= 0) ==>
      0 <= Revenue(orders) <= SumTotals(orders)
  {
    RevenueDifference(orders);
    if forall i :: 0 <= i < |orders| ==> orders[i].totalAmount >= 0 {
      NonNegativeSum(Filter(orders, Counted));
      NonNegativeSum(Filter(orders, (o: Order) => o.status == Cancelled));
    }
  }

  lemma {:induction false} RevenueDifference(orders: seq<Order>)
    ensures Revenue(orders) == SumTotals(orders) - SumTotals(Filter(orders, (o: Order) => o.status == Cancelled))
  {
    var cancelled := (o: Order) => o.status == Cancelled;
    if orders != [] {
      RevenueDifference(orders[1..]);
      assert orders == [orders[0]] + orders[1..];
      RevenueAppend([orders[0]], orders[1..]);
      SumTotalsAppend([orders[0]], orders[1..]);
      FilterAppend([orders[0]], orders[1..], cancelled);
      SumTotalsAppend(Filter([orders[0]], cancelled), Filter(orders[1..], cancelled));
      assert Filter([orders[0]], Counted) == if Counted(orders[0]) then [orders[0]] else [];
      assert Filter([orders[0]], cancelled) == if cancelled(orders[0]) then [orders[0]] else [];
    }
  }

  /** A sum of non-negative subtotals taken from `orders` is non-negative. */
  lemma {:induction false} NonNegativeSum(orders: seq<Order>)
    requires forall i :: 0 <= i < |orders| ==> orders[i].totalAmount >= 0
    ensures SumTotals(orders) >= 0
  {
    if orders != [] {
      NonNegativeSum(orders[1..]);
    }
  }

  /** `GET /stats`. Users are not part of this model: their number is given. */
  datatype DashboardStats = DashboardStats(
    totalOrders: nat, totalProducts: nat, totalUsers: nat, totalRevenue: int)

  function Stats(orders: seq<Order>, totalProducts: nat, totalUsers: nat): (r: DashboardStats)
    ensures r.totalOrders == |orders|
    ensures r.totalRevenue == Revenue(orders)
    ensures r.totalProducts == totalProducts && r.totalUsers == totalUsers
  {
    DashboardStats(|orders|, totalProducts, totalUsers, Revenue(orders))
  }
}
