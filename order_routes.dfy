/** The customer order routes (`server/routes/orderRoutes.js`): the courier
    charge, order creation, the caller's order list, the return request and
    the zone table. */
module OrderRoutes {
  import opened Common
  import opened OrderModel
  import Sorting

  /** Orders of at least this subtotal ship free. */
  const FreeShippingThreshold: int := 500

  /** The charge for a zone the table does not know, or no zone at all. */
  const FallbackCharge: int := 50

  /** One day in milliseconds, the unit of the return window. */
  const DayMs: int := 1000 * 60 * 60 * 24

  /** Returns may be requested up to this many whole days after `updatedAt`. */
  const ReturnWindowDays: int := 7

  /** The `baseCharges` table of `calculateCourierCharge`. */
  function BaseCharge(z: Zone): int
  {
    match z
    case Urban => 50
    case Suburban => 100
    case Rural => 150
  }

  /** `calculateCourierCharge(zone, totalAmount)`: `zone` is the request's
      raw value, absent or any string. */
  function CourierCharge(zone: Option<string>, totalAmount: int): (fee: int)
    ensures totalAmount >= FreeShippingThreshold ==> fee == 0
    ensures totalAmount < FreeShippingThreshold ==> fee == 50 || fee == 100 || fee == 150
  {
    if totalAmount >= FreeShippingThreshold then 0
    else
      match zone
      case None => FallbackCharge
      case Some(name) =>
        match ParseZone(name)
        case Some(z) => BaseCharge(z)
        case None => FallbackCharge
  }

  /** Below the threshold each zone pays its own charge, and an unknown or
      missing zone pays what an urban order pays. */
  lemma CourierChargeByZone(totalAmount: int, other: string)
    requires totalAmount < FreeShippingThreshold
    requires ParseZone(other).None?
    ensures CourierCharge(Some("urban"), totalAmount) == 50
    ensures CourierCharge(Some("suburban"), totalAmount) == 100
    ensures CourierCharge(Some("rural"), totalAmount) == 150
    ensures CourierCharge(Some(other), totalAmount) == 50
    ensures CourierCharge(None, totalAmount) == 50
  {
  }

  /** The final amount the customer pays: subtotal plus courier charge. */
  function FinalAmount(zone: Option<string>, totalAmount: int): (r: int)
    ensures totalAmount <= r <= totalAmount + 150
    ensures totalAmount >= FreeShippingThreshold ==> r == totalAmount
  {
    totalAmount + CourierCharge(zone, totalAmount)
  }

  /** One row of the `/zones` table. */
  datatype ZoneInfo = ZoneInfo(zone: Zone, charge: int, name: string, freeShippingAbove: int)

  /** `GET /zones`: the courier charges shown to customers. */
  function ZonesTable(): seq<ZoneInfo>
  {
    [ ZoneInfo(Urban, 50, "City Center", 500),
      ZoneInfo(Suburban, 100, "Suburbs", 500),
      ZoneInfo(Rural, 150, "Remote Areas", 500) ]
  }

  /** The published table and the charge actually applied agree: every zone
      appears once, and its row gives the charge and the threshold that
      `calculateCourierCharge` uses. */
  lemma ZonesTableAgrees(z: Zone, totalAmount: int)
    ensures exists k :: 0 <= k < |ZonesTable()| && ZonesTable()[k].zone == z
    ensures forall k :: 0 <= k < |ZonesTable()| && ZonesTable()[k].zone == z ==>
      CourierCharge(Some(ZoneName(z)), totalAmount) ==
        (if totalAmount >= ZonesTable()[k].freeShippingAbove then 0 else ZonesTable()[k].charge)
  {
    var k := match z case Urban => 0 case Suburban => 1 case Rural => 2;
    assert ZonesTable()[k].zone == z;
  }

  /** The address part of an order request; `zone` is the raw value sent. */
  datatype AddressInput = AddressInput(
    fullName: Option<string>, phone: Option<string>, address: Option<string>,
    city: Option<string>, postalCode: Option<string>, country: Option<string>,
    zone: Option<string>)

  /** The body of `POST /`. */
  datatype OrderRequest = OrderRequest(
    items: seq<OrderItem>, totalAmount: Option<int>, shippingAddress: AddressInput)

  /** Creation either stores an order, or the save fails schema validation
      (a missing required field or a zone outside the enum), which the route
      reports as a server error. */
  datatype CreateOutcome = OrderCreated(order: Order) | OrderRejected

  /** The zone the schema stores: the default when none is sent, the named
      zone when it is one of the enum, nothing (a validation error) otherwise. */
  function StoredZone(zone: Option<string>): (r: Option<Zone>)
    ensures zone.None? ==> r == Some(DefaultZone)
    ensures zone.Some? ==> r == ParseZone(zone.value)
  {
    match zone
    case None => Some(DefaultZone)
    case Some(name) => ParseZone(name)
  }

  /** Whenever the zone is stored, the charge computed for the raw value is
      the charge of the stored zone. */
  lemma StoredZoneCharge(zone: Option<string>, totalAmount: int)
    requires StoredZone(zone).Some? && totalAmount < FreeShippingThreshold
    ensures CourierCharge(zone, totalAmount) == BaseCharge(StoredZone(zone).value)
  {
  }

  /** The order document `POST /` builds and saves for `caller` at time `now`. */
  function NewOrder(id: Id, caller: Caller, req: OrderRequest, now: int): (out: CreateOutcome)
    ensures out.OrderCreated? <==>
      req.totalAmount.Some? && ItemsValid(req.items) && StoredZone(req.shippingAddress.zone).Some?
    ensures out.OrderCreated? ==>
      var o := out.order;
      && ValidOrder(o)
      && o.id == id && o.user == caller.id && o.items == req.items
      && o.totalAmount == req.totalAmount.value
      && o.courierCharge == CourierCharge(req.shippingAddress.zone, o.totalAmount)
      && o.finalAmount == o.totalAmount + o.courierCharge
      && o.totalAmount <= o.finalAmount <= o.totalAmount + 150
      && o.shippingAddress == ShippingAddress(
           req.shippingAddress.fullName, req.shippingAddress.phone, req.shippingAddress.address,
           req.shippingAddress.city, req.shippingAddress.postalCode, req.shippingAddress.country,
           StoredZone(req.shippingAddress.zone).value)
      && o.status == Pending && o.paymentMethod == Cod && o.paymentStatus == PaymentPending
      && o.returnPhotos == [] && o.returnReason.None? && o.returnRequestedAt.None?
      && o.createdAt == now && o.updatedAt == now
  {
    var a := req.shippingAddress;
    match (req.totalAmount, StoredZone(a.zone))
    case (Some(total), Some(z)) =>
      if !ItemsValid(req.items) then OrderRejected
      else
        var charge := CourierCharge(a.zone, total);
        OrderCreated(Order(
          id, caller.id, req.items, total, charge, FinalAmount(a.zone, total),
          ShippingAddress(a.fullName, a.phone, a.address, a.city, a.postalCode, a.country, z),
          Cod, PaymentPending, Pending, [], None, None, now, now))
    case _ => OrderRejected
  }

  /** `POST /`: saves the new order in the collection. */
  method CreateOrder(store: OrderStore, caller: Caller, req: OrderRequest, now: int)
    returns (out: CreateOutcome)
    requires store.Valid()
    modifies store
    ensures store.Valid()
    ensures out == NewOrder(old(store.nextId), caller, req, now)
    ensures out.OrderCreated? ==>
      store.orders == old(store.orders) + [out.order] && store.nextId == old(store.nextId) + 1
    ensures out.OrderRejected? ==>
      store.orders == old(store.orders) && store.nextId == old(store.nextId)
  {
    out := NewOrder(store.nextId, caller, req, now);
    if out.OrderCreated? {
      store.orders := store.orders + [out.order];
      store.nextId := store.nextId + 1;
    }
  }

  /** `GET /myorders`: the caller's orders, each as often as it is stored,
      newest first. */
  function MyOrders(orders: seq<Order>, caller: Caller): (r: seq<Order>)
    ensures forall i :: 0 <= i < |r| ==> r[i].user == caller.id && r[i] in orders
    ensures forall i :: 0 <= i < |orders| && orders[i].user == caller.id ==> orders[i] in r
    ensures forall o :: multiset(r)[o] == if o.user == caller.id then multiset(orders)[o] else 0
    ensures Sorting.SortedDesc(r, (o: Order) => o.createdAt)
  {
    var mineP := (o: Order) => o.user == caller.id;
    var mine := Filter(orders, mineP);
    FilterMembers(orders, mineP);
    FilterMultiset(orders, mineP);
    Sorting.SortDescMembers(mine, (o: Order) => o.createdAt);
    assert forall x :: x in mine ==> x.user == caller.id && x in orders;
    Sorting.SortDesc(mine, (o: Order) => o.createdAt)
  }

  /** The index of the order with id `id` owned by `user`: the lookup
      `findOne({ _id, user })` performs. */
  function FindOwnedOrder(orders: seq<Order>, id: Id, user: Id): (r: Option<nat>)
    ensures r.Some? ==> r.value < |orders| && orders[r.value].id == id && orders[r.value].user == user
  {
    match FindOrder(orders, id)
    case Some(k) => if orders[k].user == user then Some(k) else None
    case None => None
  }

  /** With unique ids, the lookup finds nothing exactly when the caller owns
      no order with the id, as `findOne({ _id, user })` does. */
  lemma FindOwnedOrderNone(orders: seq<Order>, nextId: nat, id: Id, user: Id)
    requires IdsBelow(orders, nextId)
    ensures FindOwnedOrder(orders, id, user).None? <==>
      forall i :: 0 <= i < |orders| ==> orders[i].id != id || orders[i].user != user
  {
    var found := FindOrder(orders, id);
    if found.Some? {
      forall i | 0 <= i < |orders| && orders[i].id == id
        ensures i == found.value
      {
        FindUnique(orders, nextId, i);
      }
    }
  }

  /** Whole days from `from` to `now`, rounded down (`Math.floor` of the
      millisecond difference over one day; Dafny's division by a positive
      number rounds down as well, for negative differences too). */
  function DaysSince(from: int, now: int): int
  {
    (now - from) / DayMs
  }

  /** The return window test: at most seven whole days since `updatedAt`. */
  predicate WithinReturnWindow(updatedAt: int, now: int)
  {
    DaysSince(updatedAt, now) <= ReturnWindowDays
  }

  /** Flooring makes the window eight days long, minus one millisecond. */
  lemma ReturnWindowBoundary(updatedAt: int, now: int)
    ensures WithinReturnWindow(updatedAt, now) <==> now - updatedAt < (ReturnWindowDays + 1) * DayMs
  {
    var d := now - updatedAt;
    assert d == DayMs * (d / DayMs) + d % DayMs && 0 <= d % DayMs < DayMs;
    if d / DayMs <= ReturnWindowDays {
      assert d < (d / DayMs + 1) * DayMs;
    } else {
      assert d >= (d / DayMs) * DayMs;
    }
  }

  /** Seven days and twenty-three hours after the last update a return is
      still accepted; eight whole days after it, it is not. */
  lemma ReturnWindowExamples(updatedAt: int)
    ensures WithinReturnWindow(updatedAt, updatedAt + 7 * DayMs + 23 * 60 * 60 * 1000)
    ensures !WithinReturnWindow(updatedAt, updatedAt + 8 * DayMs)
    ensures WithinReturnWindow(updatedAt, updatedAt)
  {
    ReturnWindowBoundary(updatedAt, updatedAt + 7 * DayMs + 23 * 60 * 60 * 1000);
    ReturnWindowBoundary(updatedAt, updatedAt + 8 * DayMs);
  }

  /** The four answers of `POST /:id/return`: not found (404), not delivered
      (400), window expired (400), or the updated order. */
  datatype ReturnOutcome =
    | ReturnOrderNotFound
    | NotDelivered
    | WindowExpired
    | ReturnAccepted(order: Order)

  /** The guard chain of `POST /:id/return` and the order it saves. */
  function ReturnDecision(
    orders: seq<Order>, id: Id, caller: Caller,
    reason: Option<string>, photos: Option<seq<string>>, now: int): (out: ReturnOutcome)
    ensures out.ReturnOrderNotFound? <==> FindOwnedOrder(orders, id, caller.id).None?
    ensures out.NotDelivered? <==>
      FindOwnedOrder(orders, id, caller.id).Some? &&
      orders[FindOwnedOrder(orders, id, caller.id).value].status != Delivered
    ensures out.WindowExpired? <==>
      FindOwnedOrder(orders, id, caller.id).Some? &&
      var o := orders[FindOwnedOrder(orders, id, caller.id).value];
      o.status == Delivered && !WithinReturnWindow(o.updatedAt, now)
    ensures out.ReturnAccepted? ==>
      var o := orders[FindOwnedOrder(orders, id, caller.id).value];
      && o.status == Delivered && WithinReturnWindow(o.updatedAt, now)
      && out.order == o.(status := ReturnRequested, returnReason := reason,
                         returnPhotos := photos.GetOr([]), returnRequestedAt := Some(now),
                         updatedAt := now)
  {
    match FindOwnedOrder(orders, id, caller.id)
    case None => ReturnOrderNotFound
    case Some(k) =>
      var o := orders[k];
      if o.status != Delivered then NotDelivered
      else if !WithinReturnWindow(o.updatedAt, now) then WindowExpired
      else
        ReturnAccepted(o.(status := ReturnRequested, returnReason := reason,
                          returnPhotos := photos.GetOr([]), returnRequestedAt := Some(now),
                          updatedAt := now))
  }

  /** An accepted return touches neither the items nor the amounts, the
      owner or the addresses; no photo is required. */
  lemma ReturnKeepsOrderData(
    orders: seq<Order>, id: Id, caller: Caller,
    reason: Option<string>, photos: Option<seq<string>>, now: int)
    requires ReturnDecision(orders, id, caller, reason, photos, now).ReturnAccepted?
    ensures var o := orders[FindOwnedOrder(orders, id, caller.id).value];
      var o' := ReturnDecision(orders, id, caller, reason, photos, now).order;
      && o'.id == o.id && o'.user == o.user == caller.id && o'.items == o.items
      && o'.totalAmount == o.totalAmount && o'.courierCharge == o.courierCharge
      && o'.finalAmount == o.finalAmount && o'.shippingAddress == o.shippingAddress
      && o'.createdAt == o.createdAt && o'.status == ReturnRequested
      && (photos.None? ==> o'.returnPhotos == [])
  {
  }

  /** `POST /:id/return`: updates the order in place when every check passes. */
  method RequestReturn(
    store: OrderStore, id: Id, caller: Caller,
    reason: Option<string>, photos: Option<seq<string>>, now: int) returns (out: ReturnOutcome)
    requires store.Valid()
    modifies store
    ensures store.Valid() && store.nextId == old(store.nextId)
    ensures out == ReturnDecision(old(store.orders), id, caller, reason, photos, now)
    ensures out.ReturnAccepted? ==>
      store.orders == old(store.orders)[FindOrder(old(store.orders), id).value := out.order]
    ensures !out.ReturnAccepted? ==> store.orders == old(store.orders)
  {
    out := ReturnDecision(store.orders, id, caller, reason, photos, now);
    if out.ReturnAccepted? {
      var k := FindOrder(store.orders, id).value;
      store.orders := store.orders[k := out.order];
    }
  }

  /** A return can be requested only once: after an accepted request the
      order is no longer `delivered`, so the same request is refused. */
  lemma {:induction false} ReturnOnlyOnce(
    orders: seq<Order>, nextId: nat, id: Id, caller: Caller,
    reason: Option<string>, photos: Option<seq<string>>, now: int, later: int)
    requires IdsBelow(orders, nextId)
    requires ReturnDecision(orders, id, caller, reason, photos, now).ReturnAccepted?
    ensures var k := FindOrder(orders, id).value;
      var after := orders[k := ReturnDecision(orders, id, caller, reason, photos, now).order];
      ReturnDecision(after, id, caller, reason, photos, later) == NotDelivered
  {
    var k := FindOrder(orders, id).value;
    var after := orders[k := ReturnDecision(orders, id, caller, reason, photos, now).order];
    assert IdsBelow(after, nextId) by {
      assert forall i :: 0 <= i < |after| ==> after[i].id == orders[i].id;
    }
    FindUnique(after, nextId, k);
  }

  /** A freshly created order is `pending`, so a return request on it is
      refused until an administrator marks it delivered. */
  lemma {:induction false} NewOrderNotReturnable(
    orders: seq<Order>, nextId: nat, caller: Caller, req: OrderRequest, now: int,
    reason: Option<string>, photos: Option<seq<string>>, later: int)
    requires IdsBelow(orders, nextId)
    requires NewOrder(nextId, caller, req, now).OrderCreated?
    ensures ReturnDecision(orders + [NewOrder(nextId, caller, req, now).order], nextId, caller,
                           reason, photos, later) == NotDelivered
  {
    var o := NewOrder(nextId, caller, req, now).order;
    var after := orders + [o];
    assert IdsBelow(after, nextId + 1);
    FindUnique(after, nextId + 1, |orders|);
  }
}
