/** The order document (`server/models/Order.js`): its fields, the enumerations
    with their defaults, and the order collection. */
module OrderModel {
  import opened Common

  /** `status`, one of seven values. */
  datatype OrderStatus =
    | Pending | Processing | Shipped | Delivered | Cancelled | ReturnRequested | Returned

  function StatusName(s: OrderStatus): string
  {
    match s
    case Pending => "pending"
    case Processing => "processing"
    case Shipped => "shipped"
    case Delivered => "delivered"
    case Cancelled => "cancelled"
    case ReturnRequested => "return_requested"
    case Returned => "returned"
  }

  /** The enum check on `status`: a string is accepted iff it names a status. */
  function ParseStatus(name: string): (r: Option<OrderStatus>)
    ensures r.Some? ==> StatusName(r.value) == name
  {
    if name == "pending" then Some(Pending)
    else if name == "processing" then Some(Processing)
    else if name == "shipped" then Some(Shipped)
    else if name == "delivered" then Some(Delivered)
    else if name == "cancelled" then Some(Cancelled)
    else if name == "return_requested" then Some(ReturnRequested)
    else if name == "returned" then Some(Returned)
    else None
  }

  /** Every status name is accepted by the enum check, and as itself. */
  lemma ParseStatusName(s: OrderStatus)
    ensures ParseStatus(StatusName(s)) == Some(s)
  {
  }

  /** `shippingAddress.zone`, one of three values, `urban` by default. */
  datatype Zone = Urban | Suburban | Rural

  const DefaultZone: Zone := Urban

  function ZoneName(z: Zone): string
  {
    match z
    case Urban => "urban"
    case Suburban => "suburban"
    case Rural => "rural"
  }

  /** The enum check on `zone`. */
  function ParseZone(name: string): (r: Option<Zone>)
    ensures r.Some? ==> ZoneName(r.value) == name
    ensures forall z :: name == ZoneName(z) ==> r == Some(z)
  {
    if name == "urban" then Some(Urban)
    else if name == "suburban" then Some(Suburban)
    else if name == "rural" then Some(Rural)
    else None
  }

  /** `paymentMethod` is `cod` or `card`, `cod` by default. */
  datatype PaymentMethod = Cod | Card

  const DefaultPaymentMethod: PaymentMethod := Cod

  /** `paymentStatus` is `pending` or `completed`, `pending` by default. */
  datatype PaymentStatus = PaymentPending | Completed

  const DefaultPaymentStatus: PaymentStatus := PaymentPending

  /** One line of the order: a required product reference and optional
      name, quantity and unit price captured when the order was placed. */
  datatype OrderItem = OrderItem(
    product: Option<Id>, name: Option<string>, quantity: Option<int>, price: Option<int>)

  /** The delivery address; every part is optional except the zone, which
      the schema fills with its default. */
  datatype ShippingAddress = ShippingAddress(
    fullName: Option<string>, phone: Option<string>, address: Option<string>,
    city: Option<string>, postalCode: Option<string>, country: Option<string>,
    zone: Zone)

  /** A stored order. `user`, `totalAmount` and `finalAmount` are required and
      so always present; money is in whole currency units and times are
      milliseconds since the epoch. `createdAt` and `updatedAt` are kept by
      the schema's timestamps option. */
  datatype Order = Order(
    id: Id,
    user: Id,
    items: seq<OrderItem>,
    totalAmount: int,
    courierCharge: int,
    finalAmount: int,
    shippingAddress: ShippingAddress,
    paymentMethod: PaymentMethod,
    paymentStatus: PaymentStatus,
    status: OrderStatus,
    returnPhotos: seq<string>,
    returnReason: Option<string>,
    returnRequestedAt: Option<int>,
    createdAt: int,
    updatedAt: int)

  /** Every item carries its required product reference. */
  predicate ItemsValid(items: seq<OrderItem>)
  {
    forall i :: 0 <= i < |items| ==> items[i].product.Some?
  }

  /** The schema's constraints that the Dafny types do not already enforce. */
  predicate ValidOrder(o: Order)
  {
    ItemsValid(o.items)
  }

  /** The first stored order with id `id`, the lookup `findById` performs. */
  function FindOrder(orders: seq<Order>, id: Id): (r: Option<nat>)
    ensures r.Some? ==> r.value < |orders| && orders[r.value].id == id
    ensures r.None? <==> forall i :: 0 <= i < |orders| ==> orders[i].id != id
  {
    if orders == [] then None
    else if orders[0].id == id then Some(0)
    else
      match FindOrder(orders[1..], id)
      case None => None
      case Some(k) => Some(k + 1)
  }

  /** Order ids are unique and all below the next id to be handed out. */
  predicate IdsBelow(orders: seq<Order>, nextId: nat)
  {
    (forall i :: 0 <= i < |orders| ==> orders[i].id < nextId) &&
    (forall i, j :: 0 <= i < j < |orders| ==> orders[i].id != orders[j].id)
  }

  /** With unique ids, the lookup finds the one order that has the id. */
  lemma FindUnique(orders: seq<Order>, nextId: nat, k: nat)
    requires IdsBelow(orders, nextId) && k < |orders|
    ensures FindOrder(orders, orders[k].id) == Some(k)
  {
  }

  /** The order collection. New orders receive the id `nextId`, standing for
      the database's fresh ObjectIds. */
  class OrderStore {
    var orders: seq<Order>
    var nextId: nat

    ghost predicate Valid()
      reads this
    {
      IdsBelow(orders, nextId) &&
      forall i :: 0 <= i < |orders| ==> ValidOrder(orders[i])
    }

    constructor ()
      ensures Valid() && orders == [] && nextId == 0
    {
      orders := [];
      nextId := 0;
    }
  }
}
