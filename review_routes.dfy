/** The review routes (`server/routes/reviewRoutes.js`): the reviewed-check,
    the public per-product listing, submission, the administrator's list and
    overview, the status overwrite and deletion, and the caller's reviews. */
module ReviewRoutes {
  import opened Common
  import opened ReviewModel
  import O = OrderModel
  import Sorting

  /** The public listing returns at most this many reviews. */
  const ProductPageSize: nat := 50

  function CreatedAt(r: Review): int
  {
    r.createdAt
  }

  // ---------------------------------------------------------------------
  // GET /check/:orderId/:productId

  /** The body answered by the check route. */
  datatype CheckResult = CheckResult(hasReviewed: bool, review: Option<Review>, canReview: bool)

  function Check(reviews: seq<Review>, orderId: Id, productId: Id, caller: Caller): (r: CheckResult)
    ensures r.hasReviewed <==> HasKey(reviews, ReviewKey(orderId, productId, caller.id))
    ensures r.review.Some? <==> r.hasReviewed
    ensures r.review.Some? ==>
      r.review.value in reviews && KeyOf(r.review.value) == ReviewKey(orderId, productId, caller.id)
    ensures r.canReview
  {
    match FindByKey(reviews, ReviewKey(orderId, productId, caller.id))
    case None => CheckResult(false, None, true)
    case Some(k) => CheckResult(true, Some(reviews[k]), true)
  }

  // ---------------------------------------------------------------------
  // GET /product/:productId

  predicate ApprovedOf(productId: Id, r: Review)
  {
    r.productId == productId && r.status == StatusApproved
  }

  /** The reviews the listing's query and aggregation select. */
  function Approved(reviews: seq<Review>, productId: Id): seq<Review>
  {
    Filter(reviews, (r: Review) => ApprovedOf(productId, r))
  }

  function RatingSum(reviews: seq<Review>): int
  {
    if reviews == [] then 0 else reviews[0].rating + RatingSum(reviews[1..])
  }

  /** `$avg` of the ratings, `0` when there is nothing to average. */
  function Average(reviews: seq<Review>): (avg: real)
    ensures reviews == [] ==> avg == 0.0
    ensures reviews != [] ==> avg * |reviews| as real == RatingSum(reviews) as real
  {
    if reviews == [] then 0.0 else RatingSum(reviews) as real / |reviews| as real
  }

  /** Ratings that pass the schema's bounds sum to between one and five times
      their number. */
  lemma {:induction false} RatingSumBounds(reviews: seq<Review>)
    requires AllValid(reviews)
    ensures MinRating * |reviews| <= RatingSum(reviews) <= MaxRating * |reviews|
  {
    if reviews != [] {
      assert AllValid(reviews[1..]) by {
        forall i | 0 <= i < |reviews[1..]| ensures ValidReview(reviews[1..][i]) {
          assert reviews[1..][i] == reviews[i + 1];
        }
      }
      RatingSumBounds(reviews[1..]);
      assert ValidReview(reviews[0]);
    }
  }

  /** The average of stored reviews lies between 1 and 5. */
  lemma AverageInRange(reviews: seq<Review>)
    requires AllValid(reviews) && reviews != []
    ensures MinRating as real <= Average(reviews) <= MaxRating as real
  {
    RatingSumBounds(reviews);
    QuotientBetween(RatingSum(reviews), |reviews|, MinRating, MaxRating);
  }

  /** A sum between `lo` and `hi` times `n` gives a mean between `lo` and
      `hi`. */
  lemma QuotientBetween(sum: int, n: int, lo: int, hi: int)
    requires n > 0 && lo * n <= sum <= hi * n
    ensures lo as real <= sum as real / n as real <= hi as real
  {
    var q := sum as real / n as real;
    var m := n as real;
    assert q * m == sum as real;
    assert (lo * n) as real == lo as real * m && (hi * n) as real == hi as real * m;
  }

  /** The body answered by the public listing. */
  datatype ProductListing = ProductListing(reviews: seq<Review>, averageRating: real, totalReviews: nat)

  /** The approved reviews of `productId`, newest first, at most fifty of
      them; count and average are taken over every approved review of the
      product, not only the fifty listed. */
  function ProductReviews(reviews: seq<Review>, productId: Id): (r: ProductListing)
    ensures forall i :: 0 <= i < |r.reviews| ==>
      r.reviews[i] in reviews && r.reviews[i].productId == productId && r.reviews[i].status == StatusApproved
    ensures Sorting.SortedDesc(r.reviews, CreatedAt)
    ensures r.totalReviews == |Approved(reviews, productId)|
    ensures |r.reviews| == if r.totalReviews <= ProductPageSize then r.totalReviews else ProductPageSize
    ensures multiset(r.reviews) <= multiset(Approved(reviews, productId))
    ensures r.totalReviews <= ProductPageSize ==> multiset(r.reviews) == multiset(Approved(reviews, productId))
    ensures r.averageRating == Average(Approved(reviews, productId))
  {
    var approved := Approved(reviews, productId);
    var sorted := Sorting.SortDesc(approved, CreatedAt);
    var listed := Take(sorted, ProductPageSize);
    TakeMultiset(sorted, ProductPageSize);
    Sorting.SortDescMembers(approved, CreatedAt);
    FilterMembers(reviews, (x: Review) => ApprovedOf(productId, x));
    assert forall i :: 0 <= i < |listed| ==> listed[i] == sorted[i] && listed[i] in sorted;
    ProductListing(listed, Average(approved), |approved|)
  }

  /** The fifty listed are the newest: an approved review left out of the
      listing is no newer than any listed one. */
  lemma {:induction false} ListingKeepsNewest(reviews: seq<Review>, productId: Id, x: Review)
    requires x in Approved(reviews, productId)
    requires x !in ProductReviews(reviews, productId).reviews
    ensures forall j :: 0 <= j < |ProductReviews(reviews, productId).reviews| ==>
      x.createdAt <= ProductReviews(reviews, productId).reviews[j].createdAt
  {
    var approved := Approved(reviews, productId);
    var sorted := Sorting.SortDesc(approved, CreatedAt);
    var listed := ProductReviews(reviews, productId).reviews;
    Sorting.SortDescMembers(approved, CreatedAt);
    var i :| 0 <= i < |sorted| && sorted[i] == x;
    assert listed == Take(sorted, ProductPageSize);
    assert listed == sorted[..|listed|];
    if i < |listed| {
      assert false;
    }
    forall j | 0 <= j < |listed|
      ensures x.createdAt <= listed[j].createdAt
    {
      assert listed[j] == sorted[j];
    }
  }

  /** With stored reviews every listing's average lies between 1 and 5. */
  lemma ListingAverageInRange(reviews: seq<Review>, productId: Id)
    requires AllValid(reviews)
    ensures ProductReviews(reviews, productId).totalReviews == 0 ==>
      ProductReviews(reviews, productId).averageRating == 0.0
    ensures ProductReviews(reviews, productId).totalReviews > 0 ==>
      1.0 <= ProductReviews(reviews, productId).averageRating <= 5.0
  {
    var approved := Approved(reviews, productId);
    if approved != [] {
      assert AllValid(approved);
      AverageInRange(approved);
    }
  }

  // ---------------------------------------------------------------------
  // POST /

  /** The body of a submission; absent fields are `None`. */
  datatype SubmitRequest = SubmitRequest(
    orderId: Id, productId: Id, rating: Option<int>, title: Option<string>,
    comment: Option<string>, photos: Option<seq<string>>, recommend: Option<bool>)

  /** The answers of a submission: order not found or not delivered (404),
      product not in the order (400), already reviewed (400), a save that
      fails the schema's checks (500), or the stored review (201). */
  datatype SubmitOutcome =
    | ReviewOrderNotFound
    | ProductNotInOrder
    | AlreadyReviewed
    | ReviewRejected
    | ReviewCreated(review: Review)

  predicate DeliveredTo(orderId: Id, userId: Id, o: O.Order)
  {
    o.id == orderId && o.user == userId && o.status == O.Delivered
  }

  /** `Order.findOne({ _id, user, status: 'delivered' })`. */
  function FindDeliveredOrder(orders: seq<O.Order>, orderId: Id, userId: Id): (r: Option<nat>)
    ensures r.Some? ==> r.value < |orders| && DeliveredTo(orderId, userId, orders[r.value])
    ensures r.None? <==> forall i :: 0 <= i < |orders| ==> !DeliveredTo(orderId, userId, orders[i])
  {
    FindFirst(orders, (o: O.Order) => DeliveredTo(orderId, userId, o))
  }

  /** Some line of the order refers to `productId`. */
  predicate InOrder(o: O.Order, productId: Id)
  {
    exists i :: 0 <= i < |o.items| && o.items[i].product == Some(productId)
  }

  /** The fields a submission supplies pass the schema's checks. */
  predicate AcceptableFields(caller: Caller, req: SubmitRequest)
  {
    && req.rating.Some? && MinRating <= req.rating.value <= MaxRating
    && req.comment.Some? && req.comment.value != ""
    && caller.name != ""
  }

  /** The guard chain of a submission and the review it stores, with id
      `id` at time `now`. */
  function SubmitDecision(
    orders: seq<O.Order>, reviews: seq<Review>, id: Id, caller: Caller,
    req: SubmitRequest, now: int): (out: SubmitOutcome)
    ensures out.ReviewOrderNotFound? <==> FindDeliveredOrder(orders, req.orderId, caller.id).None?
    ensures out.ProductNotInOrder? <==>
      FindDeliveredOrder(orders, req.orderId, caller.id).Some? &&
      !InOrder(orders[FindDeliveredOrder(orders, req.orderId, caller.id).value], req.productId)
    ensures out.AlreadyReviewed? <==>
      FindDeliveredOrder(orders, req.orderId, caller.id).Some? &&
      InOrder(orders[FindDeliveredOrder(orders, req.orderId, caller.id).value], req.productId) &&
      HasKey(reviews, ReviewKey(req.orderId, req.productId, caller.id))
    ensures out.ReviewRejected? <==>
      FindDeliveredOrder(orders, req.orderId, caller.id).Some? &&
      InOrder(orders[FindDeliveredOrder(orders, req.orderId, caller.id).value], req.productId) &&
      !HasKey(reviews, ReviewKey(req.orderId, req.productId, caller.id)) &&
      !AcceptableFields(caller, req)
    ensures out.ReviewCreated? ==>
      var r := out.review;
      && ValidReview(r)
      && r.id == id
      && KeyOf(r) == ReviewKey(req.orderId, req.productId, caller.id)
      && !HasKey(reviews, KeyOf(r))
      && r.userName == caller.name
      && r.rating == req.rating.value && r.comment == req.comment.value
      && r.title == req.title.GetOr(DefaultTitle)
      && r.photos == req.photos.GetOr([])
      && r.recommend == req.recommend.GetOr(DefaultRecommend)
      && r.status == StatusPending
      && r.createdAt == now
  {
    match FindDeliveredOrder(orders, req.orderId, caller.id)
    case None => ReviewOrderNotFound
    case Some(k) =>
      if !InOrder(orders[k], req.productId) then ProductNotInOrder
      else if FindByKey(reviews, ReviewKey(req.orderId, req.productId, caller.id)).Some? then AlreadyReviewed
      else if !AcceptableFields(caller, req) then ReviewRejected
      else
        ReviewCreated(Review(
          id, req.orderId, req.productId, caller.id, caller.name, req.rating.value,
          req.title.GetOr(DefaultTitle), req.comment.value, req.photos.GetOr([]),
          req.recommend.GetOr(DefaultRecommend), StatusPending, now))
  }

  /** A stored submission keeps the collection's invariants: fresh id, the
      unique index, and every review passing the schema's checks. */
  lemma {:induction false} SubmitKeepsInvariant(
    orders: seq<O.Order>, reviews: seq<Review>, nextId: nat, caller: Caller,
    req: SubmitRequest, now: int)
    requires ReviewIdsBelow(reviews, nextId) && UniqueKeys(reviews) && AllValid(reviews)
    requires SubmitDecision(orders, reviews, nextId, caller, req, now).ReviewCreated?
    ensures var after := reviews + [SubmitDecision(orders, reviews, nextId, caller, req, now).review];
      ReviewIdsBelow(after, nextId + 1) && UniqueKeys(after) && AllValid(after)
  {
    var r := SubmitDecision(orders, reviews, nextId, caller, req, now).review;
    var after := reviews + [r];
    forall i | 0 <= i < |reviews|
      ensures KeyOf(after[i]) != KeyOf(r)
    {
      assert after[i] == reviews[i];
    }
  }

  /** A second identical submission is refused as already reviewed. */
  lemma {:induction false} SubmitOnlyOnce(
    orders: seq<O.Order>, reviews: seq<Review>, nextId: nat, caller: Caller,
    req: SubmitRequest, now: int, later: int)
    requires SubmitDecision(orders, reviews, nextId, caller, req, now).ReviewCreated?
    ensures var after := reviews + [SubmitDecision(orders, reviews, nextId, caller, req, now).review];
      SubmitDecision(orders, after, nextId + 1, caller, req, later) == AlreadyReviewed
  {
    var r := SubmitDecision(orders, reviews, nextId, caller, req, now).review;
    var after := reviews + [r];
    assert KeyOf(after[|reviews|]) == ReviewKey(req.orderId, req.productId, caller.id);
  }

  /** An explicit `recommend: false` is kept; only an absent one defaults. */
  lemma ExplicitRecommendKept(
    orders: seq<O.Order>, reviews: seq<Review>, id: Id, caller: Caller, req: SubmitRequest, now: int)
    requires req.recommend == Some(false)
    requires SubmitDecision(orders, reviews, id, caller, req, now).ReviewCreated?
    ensures !SubmitDecision(orders, reviews, id, caller, req, now).review.recommend
  {
  }

  /** `POST /`: stores the review when every check passes. */
  method Submit(store: ReviewStore, orders: seq<O.Order>, caller: Caller, req: SubmitRequest, now: int)
    returns (out: SubmitOutcome)
    requires store.Valid()
    modifies store
    ensures store.Valid()
    ensures out == SubmitDecision(orders, old(store.reviews), old(store.nextId), caller, req, now)
    ensures out.ReviewCreated? ==>
      store.reviews == old(store.reviews) + [out.review] && store.nextId == old(store.nextId) + 1
    ensures !out.ReviewCreated? ==>
      store.reviews == old(store.reviews) && store.nextId == old(store.nextId)
  {
    out := SubmitDecision(orders, store.reviews, store.nextId, caller, req, now);
    if out.ReviewCreated? {
      var r := out.review;
      forall i | 0 <= i < |store.reviews|
        ensures KeyOf(store.reviews[i]) != KeyOf(r)
      {
      }
      store.reviews := store.reviews + [r];
      store.nextId := store.nextId + 1;
    }
  }

  // ---------------------------------------------------------------------
  // GET / (administrator)

  /** The admin query: `status` and `productId` filters, each applied only
      when given (`""` for an absent or empty status). */
  predicate Matches(status: string, productId: Option<Id>, r: Review)
  {
    (status == "" || r.status == status) && (productId.None? || r.productId == productId.value)
  }

  function Matching(reviews: seq<Review>, status: string, productId: Option<Id>): seq<Review>
  {
    Filter(reviews, (r: Review) => Matches(status, productId, r))
  }

  /** With neither filter every review matches. */
  lemma {:induction false} AllMatch(reviews: seq<Review>)
    ensures Matching(reviews, "", None) == reviews
  {
    if reviews != [] {
      AllMatch(reviews[1..]);
    }
  }

  /** `countDocuments({ status: s })`. */
  function CountStatus(reviews: seq<Review>, s: string): nat
  {
    |Filter(reviews, (r: Review) => r.status == s)|
  }

  lemma CountStatusPositive(reviews: seq<Review>, s: string)
    ensures CountStatus(reviews, s) > 0 <==> exists i :: 0 <= i < |reviews| && reviews[i].status == s
  {
    var f := Filter(reviews, (r: Review) => r.status == s);
    if |f| > 0 {
      assert f[0] in reviews;
    }
  }

  /** The `$group` by status folded into an object: one key per status that
      occurs, with its number of reviews. */
  function StatusCounts(reviews: seq<Review>): (m: map<string, nat>)
    ensures forall s :: s in m <==> CountStatus(reviews, s) > 0
    ensures forall s :: s in m ==> m[s] == CountStatus(reviews, s)
  {
    var present := set i | 0 <= i < |reviews| :: reviews[i].status;
    forall s ensures s in present <==> CountStatus(reviews, s) > 0 {
      CountStatusPositive(reviews, s);
    }
    map s | s in present :: CountStatus(reviews, s)
  }

  /** The sorted matching reviews are stored reviews that match. */
  lemma SortedMatching(reviews: seq<Review>, status: string, productId: Option<Id>)
    ensures forall x :: x in Sorting.SortDesc(Matching(reviews, status, productId), CreatedAt) ==>
      x in reviews && Matches(status, productId, x)
  {
    FilterMembers(reviews, (x: Review) => Matches(status, productId, x));
    Sorting.SortDescMembers(Matching(reviews, status, productId), CreatedAt);
  }

  /** `skip(start).limit(limit)` applied to an already ordered list. */
  function Slice(sorted: seq<Review>, start: nat, limit: nat): (slice: seq<Review>)
    ensures start <= |sorted| ==>
      slice == sorted[start..if start + limit <= |sorted| then start + limit else |sorted|]
    ensures start >= |sorted| ==> slice == []
  {
    Take(Drop(sorted, start), limit)
  }

  /** A slice of a newest-first list is newest first and holds only
      elements of the list. */
  lemma SliceOfSorted(sorted: seq<Review>, start: nat, limit: nat)
    requires limit >= 1 && Sorting.SortedDesc(sorted, CreatedAt)
    ensures Sorting.SortedDesc(Slice(sorted, start, limit), CreatedAt)
    ensures forall x :: x in Slice(sorted, start, limit) ==> x in sorted
    ensures |Slice(sorted, start, limit)| <= limit
    ensures Slice(sorted, start, limit) != [] <==> start < |sorted|
  {
    var slice := Slice(sorted, start, limit);
    if start <= |sorted| {
      assert forall i :: 0 <= i < |slice| ==> slice[i] == sorted[start + i];
    }
  }

  /** The number of pages of `limit` needed for `total` reviews, counted
      page by page; `PageCountIsCeil` shows it is `Math.ceil(total / limit)`. */
  function PageCount(total: nat, limit: nat): (n: nat)
    requires limit >= 1
    decreases total
  {
    if total == 0 then 0
    else if total <= limit then 1
    else 1 + PageCount(total - limit, limit)
  }

  /** Where page `page` starts, counted page by page; `PageStartIsProduct`
      shows it is the route's `(page - 1) * limit`. */
  function PageStart(page: nat, limit: nat): nat
  {
    if page <= 1 then 0 else PageStart(page - 1, limit) + limit
  }

  /** Page `page` starts after `(page - 1) * limit` reviews. */
  lemma {:induction false} PageStartIsProduct(page: nat, limit: nat)
    requires page >= 1
    ensures PageStart(page, limit) == (page - 1) * limit
  {
    if page > 1 {
      PageStartIsProduct(page - 1, limit);
      assert (page - 2) * limit + limit == (page - 1) * limit;
    }
  }

  /** Pages up to the page count have something to show; later ones do
      not. */
  lemma {:induction false} PageBounds(total: nat, page: nat, limit: nat)
    requires page >= 1 && limit >= 1
    ensures page <= PageCount(total, limit) <==> PageStart(page, limit) < total
    decreases total
  {
    if page > 1 && total > limit {
      PageBounds(total - limit, page - 1, limit);
    }
  }

  /** The pages up to the page count reach past the last review. */
  lemma {:induction false} PageCountCovers(total: nat, limit: nat)
    requires limit >= 1
    ensures PageStart(PageCount(total, limit) + 1, limit) >= total
    decreases total
  {
    if total > limit {
      PageCountCovers(total - limit, limit);
    }
  }

  /** The page count is `Math.ceil(total / limit)`: the fewest pages of
      `limit` that hold `total` reviews. */
  lemma PageCountIsCeil(total: nat, limit: nat)
    requires limit >= 1
    ensures var n := PageCount(total, limit);
      n * limit >= total && (n == 0 || (n - 1) * limit < total)
  {
    var n := PageCount(total, limit);
    PageCountCovers(total, limit);
    PageStartIsProduct(n + 1, limit);
    if n > 0 {
      PageBounds(total, n, limit);
      PageStartIsProduct(n, limit);
    }
  }

  /** The page numbered `page` of a newest-first list. */
  function PageOf(sorted: seq<Review>, page: nat, limit: nat): (slice: seq<Review>)
    requires page >= 1 && limit >= 1 && Sorting.SortedDesc(sorted, CreatedAt)
    ensures slice == Slice(sorted, PageStart(page, limit), limit)
    ensures Sorting.SortedDesc(slice, CreatedAt)
    ensures forall x :: x in slice ==> x in sorted
    ensures |slice| <= limit
    ensures slice != [] <==> page <= PageCount(|sorted|, limit)
  {
    var start := PageStart(page, limit);
    SliceOfSorted(sorted, start, limit);
    PageBounds(|sorted|, page, limit);
    Slice(sorted, start, limit)
  }

  /** The body answered by the admin list. */
  datatype AdminPage = AdminPage(
    reviews: seq<Review>, totalPages: nat, currentPage: nat, total: nat, stats: map<string, nat>)

  /** The matching reviews, newest first, the page of `limit` of them that
      starts after `(page - 1) * limit` (`PageStartIsProduct`), their total,
      the number of pages (`PageCountIsCeil`) and the per-status counts over
      the whole collection. */
  function AdminList(reviews: seq<Review>, status: string, productId: Option<Id>, page: nat, limit: nat)
    : (r: AdminPage)
    requires page >= 1 && limit >= 1
    ensures r.reviews == Slice(Sorting.SortDesc(Matching(reviews, status, productId), CreatedAt), PageStart(page, limit), limit)
    ensures forall x :: x in r.reviews ==> x in reviews && Matches(status, productId, x)
    ensures Sorting.SortedDesc(r.reviews, CreatedAt)
    ensures r.total == |Matching(reviews, status, productId)|
    ensures |r.reviews| <= limit
    ensures r.totalPages == PageCount(r.total, limit)
    ensures r.reviews != [] <==> page <= r.totalPages
    ensures r.currentPage == page
    ensures r.stats == StatusCounts(reviews)
  {
    var matching := Matching(reviews, status, productId);
    var sorted := Sorting.SortDesc(matching, CreatedAt);
    var slice := PageOf(sorted, page, limit);
    SortedMatching(reviews, status, productId);
    AdminPage(slice, PageCount(|matching|, limit), page, |matching|, StatusCounts(reviews))
  }

  /** The first `n` pages of `limit` elements of `sorted`, laid end to end;
      page `p` is the slice `AdminList` answers for `page = p`. */
  function Pages(sorted: seq<Review>, limit: nat, n: nat): seq<Review>
  {
    if n == 0 then [] else Pages(sorted, limit, n - 1) + Slice(sorted, PageStart(n, limit), limit)
  }

  /** The first `n` elements of `sorted`, or all of them when there are
      fewer. */
  function Prefix(sorted: seq<Review>, n: nat): seq<Review>
  {
    sorted[..if n <= |sorted| then n else |sorted|]
  }

  /** Paging neither skips nor repeats: pages 1 to `totalPages` of the
      matching reviews, laid end to end, are exactly those reviews, newest
      first. */
  lemma {:induction false} PagesCoverMatching(reviews: seq<Review>, status: string, productId: Option<Id>, limit: nat)
    requires limit >= 1
    ensures var sorted := Sorting.SortDesc(Matching(reviews, status, productId), CreatedAt);
      var n := AdminList(reviews, status, productId, 1, limit).totalPages;
      && Pages(sorted, limit, n) == sorted
      && Sorting.SortedDesc(Pages(sorted, limit, n), CreatedAt)
      && multiset(Pages(sorted, limit, n)) == multiset(Matching(reviews, status, productId))
  {
    var sorted := Sorting.SortDesc(Matching(reviews, status, productId), CreatedAt);
    assert AdminList(reviews, status, productId, 1, limit).totalPages == PageCount(|sorted|, limit);
    PagesCoverAll(sorted, limit);
  }

  /** The pages up to the page count, laid end to end, are the whole list. */
  lemma PagesCoverAll(sorted: seq<Review>, limit: nat)
    requires limit >= 1
    ensures Pages(sorted, limit, PageCount(|sorted|, limit)) == sorted
  {
    var n := PageCount(|sorted|, limit);
    PagesPrefix(sorted, limit, n);
    PageCountCovers(|sorted|, limit);
  }

  /** The first `n` pages are the elements before page `n + 1` starts. */
  lemma {:induction false} PagesPrefix(sorted: seq<Review>, limit: nat, n: nat)
    ensures Pages(sorted, limit, n) == Prefix(sorted, PageStart(n + 1, limit))
  {
    if n > 0 {
      PagesPrefix(sorted, limit, n - 1);
      var a := PageStart(n, limit);
      assert PageStart(n + 1, limit) == a + limit;
      var before := Prefix(sorted, a);
      var page := Slice(sorted, a, limit);
      assert Pages(sorted, limit, n) == before + page;
      if a <= |sorted| {
        var hi := if a + limit <= |sorted| then a + limit else |sorted|;
        assert before == sorted[..a] && page == sorted[a..hi];
        assert sorted[..hi] == sorted[..a] + sorted[a..hi];
        assert Prefix(sorted, a + limit) == sorted[..hi];
      } else {
        assert before == sorted && page == [];
        assert before + page == sorted;
      }
    }
  }

  // ---------------------------------------------------------------------
  // GET /stats/overview

  /** The body answered by the overview route. */
  datatype Overview = Overview(
    totalReviews: nat, pendingReviews: nat, approvedReviews: nat, rejectedReviews: nat, averageRating: real)

  function OverviewOf(reviews: seq<Review>): (r: Overview)
    ensures r.totalReviews == |reviews|
    ensures r.pendingReviews == CountStatus(reviews, StatusPending)
    ensures r.approvedReviews == CountStatus(reviews, StatusApproved)
    ensures r.rejectedReviews == CountStatus(reviews, StatusRejected)
    ensures r.averageRating == Average(Filter(reviews, (x: Review) => x.status == StatusApproved))
  {
    Overview(
      |reviews|,
      CountStatus(reviews, StatusPending), CountStatus(reviews, StatusApproved),
      CountStatus(reviews, StatusRejected),
      Average(Filter(reviews, (x: Review) => x.status == StatusApproved)))
  }

  /** When every status is one of the enum, the three counts add up to the
      total. */
  lemma {:induction false} OverviewCountsAddUp(reviews: seq<Review>)
    requires forall i :: 0 <= i < |reviews| ==> IsStatus(reviews[i].status)
    ensures var r := OverviewOf(reviews);
      r.pendingReviews + r.approvedReviews + r.rejectedReviews == r.totalReviews
  {
    if reviews != [] {
      OverviewCountsAddUp(reviews[1..]);
    }
  }

  /** The overview and the admin list's stats agree on every status that
      occurs. */
  lemma OverviewMatchesStats(reviews: seq<Review>)
    ensures StatusPending in StatusCounts(reviews) ==>
      StatusCounts(reviews)[StatusPending] == OverviewOf(reviews).pendingReviews
    ensures StatusPending !in StatusCounts(reviews) ==> OverviewOf(reviews).pendingReviews == 0
    ensures StatusApproved in StatusCounts(reviews) ==>
      StatusCounts(reviews)[StatusApproved] == OverviewOf(reviews).approvedReviews
    ensures StatusRejected in StatusCounts(reviews) ==>
      StatusCounts(reviews)[StatusRejected] == OverviewOf(reviews).rejectedReviews
  {
  }

  // ---------------------------------------------------------------------
  // PUT /:id/status and DELETE /:id

  /** `findByIdAndUpdate(id, { status }, { new: true })`: the updated review,
      or nothing when no review has the id. The current status is not
      consulted. */
  function StatusUpdate(reviews: seq<Review>, id: Id, status: string): (r: Option<Review>)
    ensures r.None? <==> FindReview(reviews, id).None?
    ensures r.Some? ==> r.value == reviews[FindReview(reviews, id).value].(status := status)
  {
    match FindReview(reviews, id)
    case None => None
    case Some(k) => Some(reviews[k].(status := status))
  }

  /** `PUT /:id/status`. */
  method UpdateReviewStatus(store: ReviewStore, id: Id, status: string) returns (r: Option<Review>)
    requires store.Valid()
    modifies store
    ensures store.Valid() && store.nextId == old(store.nextId)
    ensures r == StatusUpdate(old(store.reviews), id, status)
    ensures r.Some? ==> store.reviews == old(store.reviews)[FindReview(old(store.reviews), id).value := r.value]
    ensures r.None? ==> store.reviews == old(store.reviews)
  {
    r := StatusUpdate(store.reviews, id, status);
    if r.Some? {
      var k := FindReview(store.reviews, id).value;
      store.reviews := store.reviews[k := r.value];
      assert forall i :: 0 <= i < |store.reviews| ==>
        KeyOf(store.reviews[i]) == KeyOf(old(store.reviews)[i]) && store.reviews[i].id == old(store.reviews)[i].id;
    }
  }

  /** A status from the enum keeps every stored review valid. */
  lemma {:induction false} StatusUpdateKeepsValid(reviews: seq<Review>, id: Id, status: string)
    requires AllValid(reviews) && IsStatus(status)
    requires StatusUpdate(reviews, id, status).Some?
    ensures AllValid(reviews[FindReview(reviews, id).value := StatusUpdate(reviews, id, status).value])
  {
    var k := FindReview(reviews, id).value;
    assert ValidReview(reviews[k]);
  }

  /** `findByIdAndDelete`: the collection without the review `id`, or nothing
      when no review has it. */
  function Deleted(reviews: seq<Review>, id: Id): (r: Option<seq<Review>>)
    ensures r.None? <==> FindReview(reviews, id).None?
    ensures r.Some? ==> |r.value| == |reviews| - 1
  {
    match FindReview(reviews, id)
    case None => None
    case Some(k) => Some(reviews[..k] + reviews[k + 1..])
  }

  /** Deleting removes exactly the named review and keeps the others in
      their order. */
  lemma {:induction false} DeleteOnlyNamed(reviews: seq<Review>, nextId: nat, id: Id)
    requires ReviewIdsBelow(reviews, nextId)
    requires Deleted(reviews, id).Some?
    ensures var after := Deleted(reviews, id).value;
      && FindReview(after, id).None?
      && (forall x :: x in reviews && x.id != id ==> x in after)
      && IsSubsequence(after, reviews)
  {
    var k := FindReview(reviews, id).value;
    var after := Deleted(reviews, id).value;
    assert after == reviews[..k] + reviews[k + 1..];
    forall i | 0 <= i < |after| ensures after[i].id != id {
      if i < k {
        assert after[i] == reviews[i];
      } else {
        assert after[i] == reviews[i + 1];
      }
    }
    forall x | x in reviews && x.id != id ensures x in after {
      var j :| 0 <= j < |reviews| && reviews[j] == x;
      if j < k {
        assert after[j] == x;
      } else {
        assert j != k;
        assert after[j - 1] == x;
      }
    }
    RemoveAtIsSubsequence(reviews, k);
  }

  /** `DELETE /:id`: removes the review; `false` answers not found. */
  method DeleteReview(store: ReviewStore, id: Id) returns (found: bool)
    requires store.Valid()
    modifies store
    ensures store.Valid() && store.nextId == old(store.nextId)
    ensures found <==> Deleted(old(store.reviews), id).Some?
    ensures found ==> store.reviews == Deleted(old(store.reviews), id).value
    ensures !found ==> store.reviews == old(store.reviews)
  {
    var k := FindReview(store.reviews, id);
    found := k.Some?;
    if found {
      var before := store.reviews;
      var i := k.value;
      store.reviews := before[..i] + before[i + 1..];
      assert forall a :: 0 <= a < |store.reviews| ==>
        store.reviews[a] == before[if a < i then a else a + 1];
    }
  }

  // ---------------------------------------------------------------------
  // GET /my-reviews

  /** The caller's reviews, each as often as it is stored, newest first,
      whatever their status. */
  function MyReviews(reviews: seq<Review>, caller: Caller): (r: seq<Review>)
    ensures forall i :: 0 <= i < |r| ==> r[i].userId == caller.id && r[i] in reviews
    ensures forall i :: 0 <= i < |reviews| && reviews[i].userId == caller.id ==> reviews[i] in r
    ensures forall x :: multiset(r)[x] == if x.userId == caller.id then multiset(reviews)[x] else 0
    ensures Sorting.SortedDesc(r, CreatedAt)
  {
    var mineP := (x: Review) => x.userId == caller.id;
    var mine := Filter(reviews, mineP);
    FilterMembers(reviews, mineP);
    FilterMultiset(reviews, mineP);
    Sorting.SortDescMembers(mine, CreatedAt);
    assert forall x :: x in mine ==> x.userId == caller.id && x in reviews;
    Sorting.SortDesc(mine, CreatedAt)
  }
}
