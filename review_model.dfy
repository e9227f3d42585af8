/** The review document (`server/models/Review.js`): its fields, defaults and
    schema constraints, the unique (order, product, user) index, and the
    review collection. */
module ReviewModel {
  import opened Common

  /** The three values of the `status` enum. The stored field is a plain
      string: the admin update writes whatever it is given. */
  const StatusPending: string := "pending"
  const StatusApproved: string := "approved"
  const StatusRejected: string := "rejected"

  /** Defaults the schema fills in. */
  const DefaultTitle: string := ""
  const DefaultRecommend: bool := true

  /** The bounds of `rating`. */
  const MinRating: int := 1
  const MaxRating: int := 5

  predicate IsStatus(s: string)
  {
    s == StatusPending || s == StatusApproved || s == StatusRejected
  }

  /** A stored review. `productId` is an id here, standing for the string
      the client sent; `createdAt` is milliseconds since the epoch. */
  datatype Review = Review(
    id: Id,
    orderId: Id,
    productId: Id,
    userId: Id,
    userName: string,
    rating: int,
    title: string,
    comment: string,
    photos: seq<string>,
    recommend: bool,
    status: string,
    createdAt: int)

  /** The schema's checks on save: the required strings are non-empty, the
      rating lies in [1, 5] and the status is one of the enum. */
  predicate ValidReview(r: Review)
  {
    && r.userName != ""
    && r.comment != ""
    && MinRating <= r.rating <= MaxRating
    && IsStatus(r.status)
  }

  /** The fields of the unique compound index. */
  datatype ReviewKey = ReviewKey(orderId: Id, productId: Id, userId: Id)

  function KeyOf(r: Review): ReviewKey
  {
    ReviewKey(r.orderId, r.productId, r.userId)
  }

  /** No two stored reviews share an (order, product, user) triple. */
  predicate UniqueKeys(reviews: seq<Review>)
  {
    forall i, j :: 0 <= i < j < |reviews| ==> KeyOf(reviews[i]) != KeyOf(reviews[j])
  }

  /** Some stored review has the triple `key`. */
  predicate HasKey(reviews: seq<Review>, key: ReviewKey)
  {
    exists i :: 0 <= i < |reviews| && KeyOf(reviews[i]) == key
  }

  /** `findOne({ orderId, productId, userId })`: the first review with the
      triple `key`. */
  function FindByKey(reviews: seq<Review>, key: ReviewKey): (r: Option<nat>)
    ensures r.Some? <==> HasKey(reviews, key)
    ensures r.Some? ==> r.value < |reviews| && KeyOf(reviews[r.value]) == key
  {
    FindFirst(reviews, (x: Review) => KeyOf(x) == key)
  }

  /** `findById`: the first review with id `id`. */
  function FindReview(reviews: seq<Review>, id: Id): (r: Option<nat>)
    ensures r.Some? ==> r.value < |reviews| && reviews[r.value].id == id
    ensures r.None? <==> forall i :: 0 <= i < |reviews| ==> reviews[i].id != id
  {
    FindFirst(reviews, (x: Review) => x.id == id)
  }

  /** Review ids are unique and below the next id to be handed out. */
  predicate ReviewIdsBelow(reviews: seq<Review>, nextId: nat)
  {
    (forall i :: 0 <= i < |reviews| ==> reviews[i].id < nextId) &&
    (forall i, j :: 0 <= i < j < |reviews| ==> reviews[i].id != reviews[j].id)
  }

  /** Every stored review passed the schema's checks. */
  predicate AllValid(reviews: seq<Review>)
  {
    forall i :: 0 <= i < |reviews| ==> ValidReview(reviews[i])
  }

  /** With the unique index, a key lookup finds the one review that has it. */
  lemma FindByKeyUnique(reviews: seq<Review>, k: nat)
    requires UniqueKeys(reviews) && k < |reviews|
    ensures FindByKey(reviews, KeyOf(reviews[k])) == Some(k)
  {
  }

  /** The review collection. New reviews receive the id `nextId`, standing
      for the database's fresh ObjectIds; the unique index is part of its
      invariant. */
  class ReviewStore {
    var reviews: seq<Review>
    var nextId: nat

    ghost predicate Valid()
      reads this
    {
      ReviewIdsBelow(reviews, nextId) && UniqueKeys(reviews)
    }

    constructor ()
      ensures Valid() && reviews == [] && nextId == 0
    {
      reviews := [];
      nextId := 0;
    }
  }
}
