/** The shopping cart state of the client (`features/cart/cartSlice.js`): the
    item list with its two running totals, and the three reducers that
    change them in place. */
module CartSlice {
  import opened Common

  /** One cart line: the product fields the payload carried, and how many. */
  datatype CartItem = CartItem(id: Id, name: string, price: int, quantity: int)

  /** The product passed to `addToCart`. */
  datatype ProductPayload = ProductPayload(id: Id, name: string, price: int)

  function Quantity(it: CartItem): int
  {
    it.quantity
  }

  function LineTotal(it: CartItem): int
  {
    it.price * it.quantity
  }

  /** The sum of `f` over the lines. */
  function Sum(items: seq<CartItem>, f: CartItem -> int): int
  {
    if items == [] then 0 else f(items[0]) + Sum(items[1..], f)
  }

  lemma {:induction false} SumAppend(items: seq<CartItem>, x: CartItem, f: CartItem -> int)
    ensures Sum(items + [x], f) == Sum(items, f) + f(x)
  {
    if items != [] {
      assert (items + [x])[1..] == items[1..] + [x];
      SumAppend(items[1..], x, f);
    }
  }

  lemma {:induction false} SumUpdate(items: seq<CartItem>, k: nat, x: CartItem, f: CartItem -> int)
    requires k < |items|
    ensures Sum(items[k := x], f) == Sum(items, f) - f(items[k]) + f(x)
  {
    if k > 0 {
      assert items[k := x][1..] == items[1..][k - 1 := x];
      SumUpdate(items[1..], k - 1, x, f);
    } else {
      assert items[k := x][1..] == items[1..];
    }
  }

  /** No two lines share a product id. */
  predicate DistinctIds(items: seq<CartItem>)
  {
    forall i, j :: 0 <= i < j < |items| ==> items[i].id != items[j].id
  }

  /** The shape every cart keeps: distinct ids and positive quantities. */
  predicate WellFormed(items: seq<CartItem>)
  {
    DistinctIds(items) && forall i :: 0 <= i < |items| ==> items[i].quantity >= 1
  }

  /** `items.find(item => item._id === id)`, as a position. */
  function IndexOf(items: seq<CartItem>, id: Id): (r: Option<nat>)
    ensures r.Some? ==> r.value < |items| && items[r.value].id == id
    ensures r.None? <==> forall i :: 0 <= i < |items| ==> items[i].id != id
  {
    FindFirst(items, (x: CartItem) => x.id == id)
  }

  /** Every line for the payload's product has the payload's price: the
      proviso under which `totalAmount` stays the sum of the lines. */
  predicate PriceAgrees(items: seq<CartItem>, p: ProductPayload)
  {
    forall i :: 0 <= i < |items| && items[i].id == p.id ==> items[i].price == p.price
  }

  /** The lines after `addToCart(p)`: one more unit of an existing line, or
      a new line with quantity 1 at the end. */
  function Added(items: seq<CartItem>, p: ProductPayload): (r: seq<CartItem>)
    ensures IndexOf(items, p.id).None? ==> r == items + [CartItem(p.id, p.name, p.price, 1)]
    ensures IndexOf(items, p.id).Some? ==>
      var k := IndexOf(items, p.id).value;
      && |r| == |items|
      && r[k] == items[k].(quantity := items[k].quantity + 1)
      && forall i :: 0 <= i < |items| && i != k ==> r[i] == items[i]
    ensures WellFormed(items) ==> WellFormed(r)
    ensures Sum(r, Quantity) == Sum(items, Quantity) + 1
    ensures PriceAgrees(items, p) ==> Sum(r, LineTotal) == Sum(items, LineTotal) + p.price
  {
    match IndexOf(items, p.id)
    case None =>
      var line := CartItem(p.id, p.name, p.price, 1);
      SumAppend(items, line, Quantity);
      SumAppend(items, line, LineTotal);
      AppendKeepsWellFormed(items, line);
      items + [line]
    case Some(k) =>
      var line := items[k].(quantity := items[k].quantity + 1);
      SumUpdate(items, k, line, Quantity);
      SumUpdate(items, k, line, LineTotal);
      BumpKeepsWellFormed(items, k);
      items[k := line]
  }

  lemma AppendKeepsWellFormed(items: seq<CartItem>, line: CartItem)
    requires forall i :: 0 <= i < |items| ==> items[i].id != line.id
    requires line.quantity >= 1
    ensures WellFormed(items) ==> WellFormed(items + [line])
  {
    var r := items + [line];
    assert forall i :: 0 <= i < |items| ==> r[i] == items[i];
  }

  lemma BumpKeepsWellFormed(items: seq<CartItem>, k: nat)
    requires k < |items|
    ensures WellFormed(items) ==> WellFormed(items[k := items[k].(quantity := items[k].quantity + 1)])
  {
  }

  /** `items.filter(item => item._id !== id)`. */
  function Without(items: seq<CartItem>, id: Id): (r: seq<CartItem>)
    ensures forall x :: x in r <==> x in items && x.id != id
    ensures IsSubsequence(r, items)
    ensures IndexOf(items, id).None? ==> r == items
  {
    if items == [] then []
    else if items[0].id == id then
      var rest := Without(items[1..], id);
      SkipOne(rest, items[1..], items[0]);
      assert [items[0]] + items[1..] == items;
      rest
    else
      var rest := Without(items[1..], id);
      assert ([items[0]] + rest)[1..] == rest;
      [items[0]] + rest
  }

  /** Removing a present line takes exactly its share off a sum and one line
      off the list; removing an absent one changes no sum. Ids stay
      distinct. */
  lemma WithoutSums(items: seq<CartItem>, id: Id, f: CartItem -> int)
    requires DistinctIds(items)
    ensures IndexOf(items, id).Some? ==>
      && Sum(Without(items, id), f) == Sum(items, f) - f(items[IndexOf(items, id).value])
      && |Without(items, id)| == |items| - 1
    ensures IndexOf(items, id).None? ==> Sum(Without(items, id), f) == Sum(items, f)
    ensures DistinctIds(Without(items, id))
  {
    WithoutDistinct(items, id);
    if IndexOf(items, id).Some? {
      WithoutPresent(items, id, IndexOf(items, id).value, f);
    }
  }

  lemma DistinctTail(items: seq<CartItem>)
    requires items != [] && DistinctIds(items)
    ensures DistinctIds(items[1..])
    ensures forall x :: x in items[1..] ==> x.id != items[0].id
  {
    forall i, j | 0 <= i < j < |items[1..]| ensures items[1..][i].id != items[1..][j].id {
      assert items[1..][i] == items[i + 1] && items[1..][j] == items[j + 1];
    }
  }

  /** Removing the line at `k`, the only one with its id. */
  lemma {:induction false} WithoutPresent(items: seq<CartItem>, id: Id, k: nat, f: CartItem -> int)
    requires DistinctIds(items) && k < |items| && items[k].id == id
    ensures Sum(Without(items, id), f) == Sum(items, f) - f(items[k])
    ensures |Without(items, id)| == |items| - 1
  {
    DistinctTail(items);
    if k == 0 {
      assert forall i :: 0 <= i < |items[1..]| ==> items[1..][i] in items[1..];
      assert Without(items[1..], id) == items[1..];
    } else {
      assert items[1..][k - 1] == items[k];
      WithoutPresent(items[1..], id, k - 1, f);
    }
  }

  /** Removal keeps ids distinct. */
  lemma {:induction false} WithoutDistinct(items: seq<CartItem>, id: Id)
    requires DistinctIds(items)
    ensures DistinctIds(Without(items, id))
  {
    if items != [] {
      DistinctTail(items);
      WithoutDistinct(items[1..], id);
      var rest := Without(items[1..], id);
      if items[0].id != id {
        var r := Without(items, id);
        assert r == [items[0]] + rest;
        forall i, j | 0 <= i < j < |r| ensures r[i].id != r[j].id {
          if i == 0 {
            assert r[j] == rest[j - 1] && r[j] in items[1..];
          } else {
            assert r[i] == rest[i - 1] && r[j] == rest[j - 1];
          }
        }
      }
    }
  }

  /** The cart state. */
  class Cart {
    var items: seq<CartItem>
    var totalQuantity: int
    var totalAmount: int

    /** The item list is well formed and `totalQuantity` counts its units. */
    ghost predicate Valid()
      reads this
    {
      WellFormed(items) && totalQuantity == Sum(items, Quantity)
    }

    /** `totalAmount` is the value of the lines. */
    ghost predicate AmountInStep()
      reads this
    {
      totalAmount == Sum(items, LineTotal)
    }

    /** The initial state: no items, both totals zero. */
    constructor ()
      ensures Valid() && AmountInStep()
      ensures items == [] && totalQuantity == 0 && totalAmount == 0
    {
      items := [];
      totalQuantity := 0;
      totalAmount := 0;
    }

    /** `addToCart`. The amount grows by the payload's price even when the
        existing line was added at another price. */
    method AddToCart(p: ProductPayload)
      requires Valid()
      modifies this
      ensures Valid()
      ensures items == Added(old(items), p)
      ensures totalQuantity == old(totalQuantity) + 1
      ensures totalAmount == old(totalAmount) + p.price
      ensures old(AmountInStep()) && PriceAgrees(old(items), p) ==> AmountInStep()
    {
      ghost var before := items;
      var existing := IndexOf(items, p.id);
      if existing.Some? {
        var k := existing.value;
        items := items[k := items[k].(quantity := items[k].quantity + 1)];
      } else {
        items := items + [CartItem(p.id, p.name, p.price, 1)];
      }
      assert items == Added(before, p);
      totalQuantity := totalQuantity + 1;
      totalAmount := totalAmount + p.price;
    }

    /** `removeFromCart`: an absent id changes nothing. */
    method RemoveFromCart(id: Id)
      requires Valid()
      modifies this
      ensures Valid()
      ensures IndexOf(old(items), id).None? ==>
        items == old(items) && totalQuantity == old(totalQuantity) && totalAmount == old(totalAmount)
      ensures IndexOf(old(items), id).Some? ==>
        var line := old(items)[IndexOf(old(items), id).value];
        && items == Without(old(items), id)
        && |items| == |old(items)| - 1
        && totalQuantity == old(totalQuantity) - line.quantity
        && totalAmount == old(totalAmount) - line.price * line.quantity
      ensures old(AmountInStep()) ==> AmountInStep()
    {
      var found := IndexOf(items, id);
      if found.Some? {
        var line := items[found.value];
        WithoutSums(items, id, Quantity);
        WithoutSums(items, id, LineTotal);
        totalQuantity := totalQuantity - line.quantity;
        totalAmount := totalAmount - line.price * line.quantity;
        items := Without(items, id);
      }
    }

    /** `clearCart`. */
    method ClearCart()
      modifies this
      ensures Valid() && AmountInStep()
      ensures items == [] && totalQuantity == 0 && totalAmount == 0
    {
      items := [];
      totalQuantity := 0;
      totalAmount := 0;
    }
  }

  /** The price proviso is needed: a product already in the cart at 10 and
      added again at 12 leaves `totalAmount` at 22 while the line, still
      priced at 10, is worth 20. */
  lemma PriceDriftExample()
    ensures var before := [CartItem(1, "mug", 10, 1)];
      var p := ProductPayload(1, "mug", 12);
      && Sum(before, LineTotal) == 10
      && Sum(before, LineTotal) + p.price == 22
      && Sum(Added(before, p), LineTotal) == 20
  {
    var before := [CartItem(1, "mug", 10, 1)];
    var p := ProductPayload(1, "mug", 12);
    assert IndexOf(before, 1) == Some(0);
    assert Added(before, p) == [CartItem(1, "mug", 10, 2)];
    assert [CartItem(1, "mug", 10, 2)][1..] == [];
    assert before[1..] == [];
  }
}
