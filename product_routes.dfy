/** The product routes (`server/routes/productRoutes.js`): lookup, related
    products, creation, the field-by-field update and deletion. */
module ProductRoutes {
  import opened Common
  import opened ProductModel

  /** The same-category fallback returns at most this many products. */
  const RelatedLimit: nat := 4

  /** `GET /:id`: the product, or nothing (404). */
  function GetProduct(products: seq<Product>, id: Id): (r: Option<Product>)
    ensures r.None? <==> forall i :: 0 <= i < |products| ==> products[i].id != id
    ensures r.Some? ==> r.value in products && r.value.id == id
  {
    match FindProduct(products, id)
    case None => None
    case Some(k) => Some(products[k])
  }

  predicate Listed(ids: seq<Id>, p: Product)
  {
    p.id in ids
  }

  predicate SameCategoryOther(of: Product, p: Product)
  {
    p.category == of.category && p.id != of.id
  }

  /** `GET /:id/related`: nothing (404) for an unknown id; the products whose
      ids the product lists, when it lists any; otherwise the first four
      other products of its category. */
  function Related(products: seq<Product>, id: Id): (r: Option<seq<Product>>)
    ensures r.None? <==> GetProduct(products, id).None?
    ensures r.Some? && GetProduct(products, id).value.relatedProducts != [] ==>
      forall x :: x in r.value <==> x in products && x.id in GetProduct(products, id).value.relatedProducts
    ensures r.Some? && GetProduct(products, id).value.relatedProducts == [] ==>
      var p := GetProduct(products, id).value;
      && |r.value| <= RelatedLimit
      && (forall x :: x in r.value ==> x in products && x.category == p.category && x.id != p.id)
  {
    match GetProduct(products, id)
    case None => None
    case Some(p) =>
      if p.relatedProducts != [] then
        FilterMembers(products, (x: Product) => Listed(p.relatedProducts, x));
        Some(Filter(products, (x: Product) => Listed(p.relatedProducts, x)))
      else
        var same := Filter(products, (x: Product) => SameCategoryOther(p, x));
        FilterMembers(products, (x: Product) => SameCategoryOther(p, x));
        assert forall i :: 0 <= i < |Take(same, RelatedLimit)| ==> Take(same, RelatedLimit)[i] == same[i];
        Some(Take(same, RelatedLimit))
  }

  /** The fallback lists as many candidates as it may: four when the
      category has at least four other products, all of them otherwise. */
  lemma RelatedFallbackCount(products: seq<Product>, id: Id)
    requires GetProduct(products, id).Some? && GetProduct(products, id).value.relatedProducts == []
    ensures var p := GetProduct(products, id).value;
      var n := |Filter(products, (x: Product) => SameCategoryOther(p, x))|;
      |Related(products, id).value| == if n < RelatedLimit then n else RelatedLimit
  {
  }

  /** A product never falls back to itself; with explicit links it is listed
      only when it links to itself. */
  lemma RelatedExcludesSelf(products: seq<Product>, id: Id)
    requires GetProduct(products, id).Some?
    requires id !in GetProduct(products, id).value.relatedProducts
    ensures forall x :: x in Related(products, id).value ==> x.id != id
  {
  }

  /** The body of `POST /` and `PUT /:id`; absent fields are `None`. */
  datatype ProductInput = ProductInput(
    name: Option<string>, description: Option<string>, price: Option<int>,
    category: Option<string>, stock: Option<int>, image: Option<string>,
    relatedProducts: Option<seq<Id>>)

  /** `new Product(req.body)` and `save()`: the product with defaults filled
      in, or nothing when a required field is missing or empty (500). */
  function NewProduct(id: Id, input: ProductInput): (r: Option<Product>)
    ensures r.Some? <==>
      && input.name.Some? && input.name.value != ""
      && input.description.Some? && input.description.value != ""
      && input.price.Some?
      && input.category.Some? && input.category.value != ""
    ensures r.Some? ==>
      && ValidProduct(r.value) && r.value.id == id
      && r.value.name == input.name.value && r.value.description == input.description.value
      && r.value.price == input.price.value && r.value.category == input.category.value
      && r.value.stock == input.stock.GetOr(DefaultStock)
      && r.value.image == input.image.GetOr(DefaultImage)
      && r.value.relatedProducts == input.relatedProducts.GetOr([])
  {
    match (input.name, input.description, input.price, input.category)
    case (Some(name), Some(description), Some(price), Some(category)) =>
      if name == "" || description == "" || category == "" then None
      else
        Some(Product(
          id, name, description, price, category, input.stock.GetOr(DefaultStock),
          input.image.GetOr(DefaultImage), input.relatedProducts.GetOr([])))
    case _ => None
  }

  /** `POST /`: stores the new product. */
  method CreateProduct(store: ProductStore, input: ProductInput) returns (r: Option<Product>)
    requires store.Valid()
    modifies store
    ensures store.Valid()
    ensures r == NewProduct(old(store.nextId), input)
    ensures r.Some? ==> store.products == old(store.products) + [r.value] && store.nextId == old(store.nextId) + 1
    ensures r.None? ==> store.products == old(store.products) && store.nextId == old(store.nextId)
  {
    r := NewProduct(store.nextId, input);
    if r.Some? {
      store.products := store.products + [r.value];
      store.nextId := store.nextId + 1;
    }
  }

  /** `value || current` for strings: the empty string is falsy. */
  function OrString(value: Option<string>, current: string): (r: string)
    ensures value.Some? && value.value != "" ==> r == value.value
    ensures value.None? || value.value == "" ==> r == current
  {
    if value.Some? && value.value != "" then value.value else current
  }

  /** `value || current` for numbers: zero is falsy. */
  function OrNumber(value: Option<int>, current: int): (r: int)
    ensures value.Some? && value.value != 0 ==> r == value.value
    ensures value.None? || value.value == 0 ==> r == current
  {
    if value.Some? && value.value != 0 then value.value else current
  }

  /** The seven assignments of `PUT /:id`: each field takes the sent value
      when it is truthy and keeps its own otherwise. An array, even an empty
      one, is truthy. */
  function Merge(p: Product, input: ProductInput): (r: Product)
    ensures r.id == p.id
    ensures r.name == OrString(input.name, p.name)
    ensures r.description == OrString(input.description, p.description)
    ensures r.price == OrNumber(input.price, p.price)
    ensures r.category == OrString(input.category, p.category)
    ensures r.stock == OrNumber(input.stock, p.stock)
    ensures r.image == OrString(input.image, p.image)
    ensures r.relatedProducts == input.relatedProducts.GetOr(p.relatedProducts)
  {
    p.(name := OrString(input.name, p.name),
       description := OrString(input.description, p.description),
       price := OrNumber(input.price, p.price),
       category := OrString(input.category, p.category),
       stock := OrNumber(input.stock, p.stock),
       image := OrString(input.image, p.image),
       relatedProducts := input.relatedProducts.GetOr(p.relatedProducts))
  }

  /** The merge keeps a valid product valid: a required string is replaced
      only by a non-empty one, so the save after it cannot fail. */
  lemma MergeKeepsValid(p: Product, input: ProductInput)
    requires ValidProduct(p)
    ensures ValidProduct(Merge(p, input))
  {
  }

  /** Applying the same update twice changes nothing more. */
  lemma MergeIdempotent(p: Product, input: ProductInput)
    ensures Merge(Merge(p, input), input) == Merge(p, input)
  {
  }

  /** An update with no fields leaves the product as it is. */
  lemma MergeEmpty(p: Product)
    ensures Merge(p, ProductInput(None, None, None, None, None, None, None)) == p
  {
  }

  /** Falsy values cannot be written: a non-zero stock or price is never set
      to zero, and a non-empty name, description, category or image never to
      the empty string, while an empty related list does clear the links. */
  lemma MergeFalsyKept(p: Product, input: ProductInput)
    ensures p.stock != 0 ==> Merge(p, input).stock != 0
    ensures p.price != 0 ==> Merge(p, input).price != 0
    ensures p.name != "" ==> Merge(p, input).name != ""
    ensures p.description != "" ==> Merge(p, input).description != ""
    ensures p.category != "" ==> Merge(p, input).category != ""
    ensures p.image != "" ==> Merge(p, input).image != ""
    ensures input.relatedProducts == Some([]) ==> Merge(p, input).relatedProducts == []
  {
  }

  /** `PUT /:id`: the updated product, or nothing (404). */
  method UpdateProduct(store: ProductStore, id: Id, input: ProductInput) returns (r: Option<Product>)
    requires store.Valid()
    modifies store
    ensures store.Valid() && store.nextId == old(store.nextId)
    ensures r.None? <==> FindProduct(old(store.products), id).None?
    ensures r.Some? ==>
      var k := FindProduct(old(store.products), id).value;
      && r.value == Merge(old(store.products)[k], input)
      && store.products == old(store.products)[k := r.value]
    ensures r.None? ==> store.products == old(store.products)
  {
    var k := FindProduct(store.products, id);
    if k.None? {
      r := None;
    } else {
      var p := Merge(store.products[k.value], input);
      MergeKeepsValid(store.products[k.value], input);
      store.products := store.products[k.value := p];
      r := Some(p);
    }
  }

  /** `DELETE /:id`: removes the product; `false` answers not found. */
  method DeleteProduct(store: ProductStore, id: Id) returns (found: bool)
    requires store.Valid()
    modifies store
    ensures store.Valid() && store.nextId == old(store.nextId)
    ensures found <==> FindProduct(old(store.products), id).Some?
    ensures found ==>
      var k := FindProduct(old(store.products), id).value;
      store.products == old(store.products)[..k] + old(store.products)[k + 1..]
    ensures !found ==> store.products == old(store.products)
  {
    var k := FindProduct(store.products, id);
    found := k.Some?;
    if found {
      var before := store.products;
      var i := k.value;
      store.products := before[..i] + before[i + 1..];
      assert forall a :: 0 <= a < |store.products| ==>
        store.products[a] == before[if a < i then a else a + 1];
    }
  }

  /** After a deletion the id is gone and every other product remains, in
      its order. */
  lemma {:induction false} DeleteOnlyNamed(products: seq<Product>, nextId: nat, id: Id)
    requires ProductIdsBelow(products, nextId)
    requires FindProduct(products, id).Some?
    ensures var k := FindProduct(products, id).value;
      var after := products[..k] + products[k + 1..];
      && GetProduct(after, id).None?
      && (forall x :: x in products && x.id != id ==> x in after)
      && IsSubsequence(after, products)
  {
    var k := FindProduct(products, id).value;
    var after := products[..k] + products[k + 1..];
    forall i | 0 <= i < |after| ensures after[i].id != id {
      if i < k {
        assert after[i] == products[i];
      } else {
        assert after[i] == products[i + 1];
      }
    }
    forall x | x in products && x.id != id ensures x in after {
      var j :| 0 <= j < |products| && products[j] == x;
      if j < k {
        assert after[j] == x;
      } else {
        assert after[j - 1] == x;
      }
    }
    RemoveAtIsSubsequence(products, k);
  }
}
