/** The product document (`server/models/Product.js`): required fields,
    defaults, and the product collection. */
module ProductModel {
  import opened Common

  /** Defaults the schema fills in. */
  const DefaultStock: int := 0
  const DefaultImage: string := ""

  /** A stored product. Prices are whole currency units. */
  datatype Product = Product(
    id: Id,
    name: string,
    description: string,
    price: int,
    category: string,
    stock: int,
    image: string,
    relatedProducts: seq<Id>)

  /** The schema's checks on save: the required strings are non-empty (a
      required number only has to be present, which the type ensures). */
  predicate ValidProduct(p: Product)
  {
    p.name != "" && p.description != "" && p.category != ""
  }

  /** `findById`: the first product with id `id`. */
  function FindProduct(products: seq<Product>, id: Id): (r: Option<nat>)
    ensures r.Some? ==> r.value < |products| && products[r.value].id == id
    ensures r.None? <==> forall i :: 0 <= i < |products| ==> products[i].id != id
  {
    FindFirst(products, (p: Product) => p.id == id)
  }

  /** Product ids are unique and below the next id to be handed out. */
  predicate ProductIdsBelow(products: seq<Product>, nextId: nat)
  {
    (forall i :: 0 <= i < |products| ==> products[i].id < nextId) &&
    (forall i, j :: 0 <= i < j < |products| ==> products[i].id != products[j].id)
  }

  /** The product collection. New products receive the id `nextId`. */
  class ProductStore {
    var products: seq<Product>
    var nextId: nat

    ghost predicate Valid()
      reads this
    {
      ProductIdsBelow(products, nextId) &&
      forall i :: 0 <= i < |products| ==> ValidProduct(products[i])
    }

    constructor ()
      ensures Valid() && products == [] && nextId == 0
    {
      products := [];
      nextId := 0;
    }
  }
}
