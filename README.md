# MERN storefront core, modelled in Dafny

This project models the core of a small MERN storefront (MongoDB, Express, React, Node).

- **Server side:** the models and routes the server is built on.
  - The order, review and product documents with their schema checks.
  - Customer orders:
    - the zone-based courier charge;
    - order creation;
    - the caller's order list;
    - the seven-day return request.
  - Administrator orders:
    - the order list;
    - the status overwrite;
    - dashboard revenue.
  - Review routes:
    - the "already reviewed" check;
    - the public per-product listing with its average;
    - submission behind the delivered-order and one-review-per-item guards;
    - the paginated administrator list with per-status counts;
    - the overview, status overwrite, deletion and "my reviews".
  - Product routes:
    - lookup;
    - related products with a same-category fallback;
    - creation;
    - the field-by-field `||` update;
    - deletion.
- **Client side:**
  - The cart, review and auth state slices. Their reducers become classes whose methods assign fields in place.
  - The review form's bounded image list, rating guard and comma-separated pros/cons parsing.
  - The admin review page:
    - its request query string;
    - the case-insensitive search;
    - the capitalised filter labels.

Collections of documents are sequences held by store classes (`OrderStore`, `ReviewStore`, `ProductStore`). Each store has a `nextId` that stands for the database's fresh ids. Each route is a pure decision function that returns one outcome per HTTP answer. A route that writes is a method on the store, specified by that function. Database queries such as `find`, `sort`, `skip`, `limit`, `countDocuments` and `$group` are written out as filters, an insertion sort and counts over the sequence.

Modules:

| module | source | contents |
|---|---|---|
| `Common` | — | `Option` type, ids, filtering, subsequences |
| `Text` | — | ASCII text: lower/upper case, `trim`, `split`/`join`, `includes` |
| `Sorting` | — | newest-first insertion sort |
| `OrderModel` | `server/models/Order.js` | order document |
| `ReviewModel` | `server/models/Review.js` | review document |
| `ProductModel` | `server/models/Product.js` | product document |
| `OrderRoutes` | `orderRoutes.js` | customer order routes |
| `AdminRoutes` | `adminRoutes.js` | administrator order routes |
| `ReviewRoutes` | `reviewRoutes.js` | review routes |
| `ProductRoutes` | `productRoutes.js` | product routes |
| `CartSlice` | `cartSlice.js` | cart state |
| `ReviewSlice` | `reviewSlice.js` | review state |
| `AuthSlice` | `authSlice.js` | auth state |
| `WriteReview` | `WriteReview.jsx` | review form |
| `AdminReviews` | `AdminReviews.jsx` | admin review page |

## Model

| member | source | states |
|---|---|---|
| OrderModel.ParseStatus | mern-ecommerce/server/models/Order.js:25 | An accepted status string is the name of the status it parses to. `ParseStatusName` gives the converse. |
| OrderModel.ParseStatusName | mern-ecommerce/server/models/Order.js:25 | Every one of the seven status names passes the enum check, as itself. |
| OrderModel.ParseZone | mern-ecommerce/server/models/Order.js:21 | Exactly the three zone names pass the zone enum check, each as its own zone. |
| OrderModel.FindOrder | mern-ecommerce/server/routes/adminRoutes.js:34 | `findById` finds an order carrying the id, and finds nothing iff no order has it. |
| OrderModel.OrderStore.constructor | mern-ecommerce/server/models/Order.js:3-29 | The collection starts empty, with its id invariant holding. |
| OrderRoutes.CourierCharge | mern-ecommerce/server/routes/orderRoutes.js:9-20 | Subtotals of 500 or more ship free. Below that the charge is always 50, 100 or 150. |
| OrderRoutes.CourierChargeByZone | mern-ecommerce/server/routes/orderRoutes.js:10-19 | Below the threshold, urban pays 50, suburban 100 and rural 150. An unknown or missing zone pays the fallback 50. |
| OrderRoutes.FinalAmount | mern-ecommerce/server/routes/orderRoutes.js:28 | The final amount lies between the subtotal and the subtotal plus 150. From 500 up it equals the subtotal. |
| OrderRoutes.ZonesTableAgrees | mern-ecommerce/server/routes/orderRoutes.js:97-103 | Every zone has a row in the published `/zones` table. That row's charge and free-shipping threshold are exactly what the charge computation applies. |
| OrderRoutes.StoredZone | mern-ecommerce/server/models/Order.js:21 | The schema stores `urban` when no zone is sent and the named zone when it is in the enum. Otherwise validation fails. |
| OrderRoutes.StoredZoneCharge | mern-ecommerce/server/routes/orderRoutes.js:27 | Whenever the zone is stored, the charge computed from the raw request value is the charge of the stored zone. |
| OrderRoutes.NewOrder | mern-ecommerce/server/routes/orderRoutes.js:23-47 | Creation succeeds iff the subtotal is present, every item names a product and the zone passes the enum. The created order has all of these: the caller as owner, the request's items and subtotal, the computed charge, final = subtotal + charge, the request's shipping address field by field (full name, phone, address, city, postal code, country) with the stored zone, status/payment `pending`, payment method `cod`, no return data, both timestamps `now`. |
| OrderRoutes.CreateOrder | mern-ecommerce/server/routes/orderRoutes.js:30-43 | Appends exactly the order `NewOrder` describes, under the next id, keeping the store invariant. A rejected save leaves the collection unchanged. |
| OrderRoutes.MyOrders | mern-ecommerce/server/routes/orderRoutes.js:50-59 | Returns exactly the caller's orders, each as often as it is stored, newest first. |
| OrderRoutes.FindOwnedOrder | mern-ecommerce/server/routes/orderRoutes.js:65 | A found order carries the requested id and belongs to the caller. |
| OrderRoutes.FindOwnedOrderNone | mern-ecommerce/server/routes/orderRoutes.js:65 | With unique ids, the lookup finds nothing exactly when no stored order has both the requested id and the caller as owner. |
| OrderRoutes.ReturnWindowBoundary | mern-ecommerce/server/routes/orderRoutes.js:76-82 | The floored day count is at most 7 iff less than 8 whole days (in milliseconds) have passed since `updatedAt`. |
| OrderRoutes.ReturnWindowExamples | mern-ecommerce/server/routes/orderRoutes.js:78-80 | A request 7 days 23 hours after `updatedAt` is inside the window. One exactly 8 days after is not. |
| OrderRoutes.ReturnDecision | mern-ecommerce/server/routes/orderRoutes.js:62-94 | The answer is one of: 404 iff the caller owns no order with the id; "not delivered" iff the owned order is not delivered; "expired" iff it is delivered but outside the window. Otherwise the order becomes `return_requested` with the reason, the photos (default `[]`) and the request time. |
| OrderRoutes.ReturnKeepsOrderData | mern-ecommerce/server/routes/orderRoutes.js:84-89 | An accepted return leaves the id, owner, items, amounts, address and `createdAt` as they were. A request without photos stores `[]`. |
| OrderRoutes.RequestReturn | mern-ecommerce/server/routes/orderRoutes.js:84-90 | On acceptance the stored order is replaced in place by the `ReturnDecision` result. Every other answer leaves the collection unchanged. |
| OrderRoutes.ReturnOnlyOnce | mern-ecommerce/server/routes/orderRoutes.js:71-73 | After an accepted return, the same request is refused as not delivered. |
| OrderRoutes.NewOrderNotReturnable | mern-ecommerce/server/routes/orderRoutes.js:39 | A freshly created order is `pending`, so a return request for it is refused. |
| AdminRoutes.AllOrders | mern-ecommerce/server/routes/adminRoutes.js:10-19 | Returns every order, as a permutation of the collection, newest first. |
| AdminRoutes.StatusUpdate | mern-ecommerce/server/routes/adminRoutes.js:32-45 | The answer is one of: 404 iff no order has the id; a failed save iff a non-empty status is outside the enum. An empty or absent status keeps the order. Any other status replaces the current one. Only the status and `updatedAt` change, and `updatedAt` only when the status does. |
| AdminRoutes.StatusUpdateIgnoresCurrent | mern-ecommerce/server/routes/adminRoutes.js:36 | Every enum status is accepted whatever the current status is. No transition is checked. |
| AdminRoutes.UpdateOrderStatus | mern-ecommerce/server/routes/adminRoutes.js:34-38 | The stored order is replaced in place by the `StatusUpdate` result. 404 and failed saves change nothing. |
| AdminRoutes.RedeliveryRestartsReturnWindow | mern-ecommerce/server/routes/adminRoutes.js:36-37 | Marking an order `delivered` again refreshes `updatedAt`, so a return requested within a day afterwards is accepted. |
| AdminRoutes.RevenueAppend | mern-ecommerce/server/routes/adminRoutes.js:55-56 | Revenue is additive over concatenated order lists. |
| AdminRoutes.RevenueAddOrder | mern-ecommerce/server/routes/adminRoutes.js:55-56 | One more order adds its subtotal to revenue unless it is cancelled. Returned and return-requested orders still count. |
| AdminRoutes.RevenueSplit | mern-ecommerce/server/routes/adminRoutes.js:55-56 | Revenue = the sum of all subtotals minus the sum of cancelled subtotals. With non-negative subtotals it lies between 0 and the full sum. |
| AdminRoutes.Stats | mern-ecommerce/server/routes/adminRoutes.js:48-63 | The dashboard counts every order, and its revenue is `Revenue` over the non-cancelled orders. |
| ReviewModel.FindByKey | mern-ecommerce/server/routes/reviewRoutes.js:109-113 | Finds a review iff one has the (order, product, user) triple, and the review found has it. |
| ReviewModel.FindReview | mern-ecommerce/server/routes/reviewRoutes.js:216-220 | `findById` finds a review carrying the id, and finds nothing iff none has it. |
| ReviewModel.FindByKeyUnique | mern-ecommerce/server/models/Review.js:53 | Under the unique compound index, the key lookup finds the one review that has the key. |
| ReviewModel.ReviewStore.constructor | mern-ecommerce/server/models/Review.js:3-50 | The collection starts empty, with its invariant holding. |
| ReviewRoutes.Check | mern-ecommerce/server/routes/reviewRoutes.js:10-32 | `hasReviewed` holds iff the caller has a review for the order and product. The review is returned exactly then, and `canReview` is always true. |
| ReviewRoutes.Average | mern-ecommerce/server/routes/reviewRoutes.js:47-61 | The average times the count equals the rating sum. It is 0 with no reviews. |
| ReviewRoutes.RatingSumBounds | mern-ecommerce/server/models/Review.js:22-27 | Valid ratings sum to between 1 and 5 times their number. |
| ReviewRoutes.AverageInRange | mern-ecommerce/server/routes/reviewRoutes.js:47-61 | The average of stored reviews lies in [1, 5]. |
| ReviewRoutes.ProductReviews | mern-ecommerce/server/routes/reviewRoutes.js:35-75 | Lists only the product's approved reviews, newest first: min(50, count) of them, all of them when there are at most 50; above 50 the page never holds a review more often than the approved list does. Total and average are taken over all approved reviews of the product. |
| ReviewRoutes.ListingKeepsNewest | mern-ecommerce/server/routes/reviewRoutes.js:39-44 | An approved review cut off by the limit of 50 is no newer than any listed one. |
| ReviewRoutes.ListingAverageInRange | mern-ecommerce/server/routes/reviewRoutes.js:63-67 | The listing's average is 0 when nothing is approved, else within [1, 5]. |
| ReviewRoutes.FindDeliveredOrder | mern-ecommerce/server/routes/reviewRoutes.js:86-95 | Finds an order with the id that belongs to the caller and is delivered, and finds nothing iff there is none. |
| ReviewRoutes.SubmitDecision | mern-ecommerce/server/routes/reviewRoutes.js:78-143 | Guards, each an iff: 404 when no delivered order of the caller's matches; 400 when the product is not in that order; 400 when the triple is already reviewed; a failed save when the fields break the schema. Otherwise the stored review is valid, new for its key, authored by the caller and `pending`, with `title \|\| ''`, `photos \|\| []` and `recommend` defaulting to true only when absent. |
| ReviewRoutes.SubmitKeepsInvariant | mern-ecommerce/server/models/Review.js:53 | A stored submission keeps ids fresh, the (order, product, user) index unique and every review valid. |
| ReviewRoutes.SubmitOnlyOnce | mern-ecommerce/server/routes/reviewRoutes.js:109-118 | Repeating an accepted submission is refused as already reviewed. |
| ReviewRoutes.ExplicitRecommendKept | mern-ecommerce/server/routes/reviewRoutes.js:130 | An explicit `recommend: false` is stored as false. |
| ReviewRoutes.Submit | mern-ecommerce/server/routes/reviewRoutes.js:121-143 | Appends exactly the `SubmitDecision` review under the next id, keeping the store invariant. Every refusal leaves the collection unchanged. |
| ReviewRoutes.CountStatusPositive | mern-ecommerce/server/routes/reviewRoutes.js:162-170 | A status count is positive iff some review has that status. |
| ReviewRoutes.StatusCounts | mern-ecommerce/server/routes/reviewRoutes.js:162-179 | The stats object has a key exactly for each status that occurs, mapped to its count. |
| ReviewRoutes.Slice | mern-ecommerce/server/routes/reviewRoutes.js:156-157 | `skip(start).limit(limit)` is the window `[start, start+limit)` clipped to the list. |
| ReviewRoutes.SliceOfSorted | mern-ecommerce/server/routes/reviewRoutes.js:154-157 | A slice of a newest-first list is newest first, at most `limit` long, and drawn from the list. It is non-empty iff `start` is inside the list. |
| ReviewRoutes.PageStartIsProduct | mern-ecommerce/server/routes/reviewRoutes.js:157 | Page `page` starts after `(page - 1) * limit` reviews. |
| ReviewRoutes.PageBounds | mern-ecommerce/server/routes/reviewRoutes.js:157-173 | A page number is at most the page count iff the page starts before the last review. |
| ReviewRoutes.PageCountIsCeil | mern-ecommerce/server/routes/reviewRoutes.js:173 | The page count is `Math.ceil(total / limit)`: enough pages, and one fewer would not do. |
| ReviewRoutes.PageOf | mern-ecommerce/server/routes/reviewRoutes.js:154-157 | The requested page is sorted, drawn from the list and at most `limit` long. It is non-empty iff the page number is at most the page count. |
| ReviewRoutes.AdminList | mern-ecommerce/server/routes/reviewRoutes.js:146-184 | The response carries: page `page` of the matching reviews, newest first, all of them matching and stored; the matching total; `Math.ceil(total / limit)` pages; a page that is non-empty iff within that count; the current page; per-status counts over the whole collection. |
| ReviewRoutes.PagesCoverMatching | mern-ecommerce/server/routes/reviewRoutes.js:154-173 | Pages 1 to `totalPages`, laid end to end, are exactly the matching reviews, newest first, with none skipped or repeated. |
| ReviewRoutes.OverviewOf | mern-ecommerce/server/routes/reviewRoutes.js:187-209 | The overview counts all reviews and each status, and averages the approved ratings. |
| ReviewRoutes.OverviewCountsAddUp | mern-ecommerce/server/routes/reviewRoutes.js:189-192 | When every status is in the enum, the pending, approved and rejected counts add up to the total. |
| ReviewRoutes.OverviewMatchesStats | mern-ecommerce/server/routes/reviewRoutes.js:162-170 | The overview's counts agree with the admin list's per-status stats. |
| ReviewRoutes.StatusUpdate | mern-ecommerce/server/routes/reviewRoutes.js:212-230 | 404 iff no review has the id. Otherwise the review comes back with the sent status, whatever its current status. |
| ReviewRoutes.UpdateReviewStatus | mern-ecommerce/server/routes/reviewRoutes.js:216-224 | The stored review is replaced in place. An unknown id changes nothing. |
| ReviewRoutes.StatusUpdateKeepsValid | mern-ecommerce/server/models/Review.js:43-47 | Overwriting with an enum status keeps every stored review valid. |
| ReviewRoutes.Deleted | mern-ecommerce/server/routes/reviewRoutes.js:233-245 | 404 iff no review has the id. Otherwise the collection is one review shorter. |
| ReviewRoutes.DeleteOnlyNamed | mern-ecommerce/server/routes/reviewRoutes.js:235 | Deletion removes exactly the named review. Every other review stays, in order. |
| ReviewRoutes.DeleteReview | mern-ecommerce/server/routes/reviewRoutes.js:233-245 | The store becomes `Deleted`'s collection, or stays unchanged when the id is unknown. |
| ReviewRoutes.MyReviews | mern-ecommerce/server/routes/reviewRoutes.js:253-261 | Returns exactly the caller's reviews, of any status, each as often as it is stored, newest first. |
| ProductModel.FindProduct | mern-ecommerce/server/routes/productRoutes.js:20 | `findById` finds a product carrying the id, and finds nothing iff none has it. |
| ProductModel.ProductStore.constructor | mern-ecommerce/server/models/Product.js:3-11 | The collection starts empty, with its invariant holding. |
| ProductRoutes.GetProduct | mern-ecommerce/server/routes/productRoutes.js:18-31 | 404 iff no product has the id. Otherwise the product with the id. |
| ProductRoutes.Related | mern-ecommerce/server/routes/productRoutes.js:34-60 | 404 iff the product is unknown. Explicit links give exactly the linked products. Without links: at most 4 other products of the same category. |
| ProductRoutes.RelatedFallbackCount | mern-ecommerce/server/routes/productRoutes.js:51-56 | The fallback lists min(4, number of same-category others). |
| ProductRoutes.RelatedExcludesSelf | mern-ecommerce/server/routes/productRoutes.js:43-56 | A product not linking to itself never appears among its related products. |
| ProductRoutes.NewProduct | mern-ecommerce/server/routes/productRoutes.js:63-71 | The save succeeds iff name, description and category are non-empty and a price is given. The new product carries the sent values, with stock 0, image `''` and links `[]` as defaults. |
| ProductRoutes.CreateProduct | mern-ecommerce/server/routes/productRoutes.js:63-71 | Appends exactly `NewProduct`'s product under the next id. A failed save changes nothing. |
| ProductRoutes.OrString | mern-ecommerce/server/routes/productRoutes.js:122 | `value \|\| current` for strings: the empty string is falsy. |
| ProductRoutes.OrNumber | mern-ecommerce/server/routes/productRoutes.js:124 | `value \|\| current` for numbers: zero is falsy. |
| ProductRoutes.Merge | mern-ecommerce/server/routes/productRoutes.js:122-128 | Each of the seven fields takes the sent value when truthy and keeps its own otherwise. An array is always truthy. The id never changes. |
| ProductRoutes.MergeKeepsValid | mern-ecommerce/server/routes/productRoutes.js:122-130 | The update keeps a valid product valid, so its save cannot fail. |
| ProductRoutes.MergeIdempotent | mern-ecommerce/server/routes/productRoutes.js:122-128 | Applying the same update twice equals applying it once. |
| ProductRoutes.MergeEmpty | mern-ecommerce/server/routes/productRoutes.js:122-128 | An update with no fields leaves the product unchanged. |
| ProductRoutes.MergeFalsyKept | mern-ecommerce/server/routes/productRoutes.js:122-128 | A non-zero stock or price is never set to 0, and a non-empty name, description, category or image never to `''`. An empty related list does clear the links. |
| ProductRoutes.UpdateProduct | mern-ecommerce/server/routes/productRoutes.js:118-138 | 404 iff the id is unknown. Otherwise the stored product is replaced in place by `Merge`. |
| ProductRoutes.DeleteProduct | mern-ecommerce/server/routes/productRoutes.js:141-153 | Found iff the id is known. The product is removed at its position, and nothing else changes. |
| ProductRoutes.DeleteOnlyNamed | mern-ecommerce/server/routes/productRoutes.js:141-153 | After deletion the id is gone and every other product remains, in order. |
| CartSlice.IndexOf | mern-ecommerce/client/src/features/cart/cartSlice.js:14 | `find` by id gives a line with that id, and nothing iff no line has it. |
| CartSlice.Added | mern-ecommerce/client/src/features/cart/cartSlice.js:13-22 | A known product gets one more unit; otherwise a new line with quantity 1 is added at the end. Ids stay distinct and quantities positive, and total units grow by 1. Line value grows by the price when the existing line has the payload's price. |
| CartSlice.Without | mern-ecommerce/client/src/features/cart/cartSlice.js:28 | Keeps exactly the lines with another id, in order. An absent id changes nothing. |
| CartSlice.WithoutSums | mern-ecommerce/client/src/features/cart/cartSlice.js:23-30 | Removing a present line subtracts exactly its share from any sum. An absent one changes none. |
| CartSlice.Cart.constructor | mern-ecommerce/client/src/features/cart/cartSlice.js:3-7 | The cart starts empty, with both totals 0. |
| CartSlice.Cart.AddToCart | mern-ecommerce/client/src/features/cart/cartSlice.js:13-22 | Items become `Added`, the quantity grows by 1 and the amount by the payload's price. The amount stays equal to the line value when prices agree, in exact whole-number arithmetic. |
| CartSlice.Cart.RemoveFromCart | mern-ecommerce/client/src/features/cart/cartSlice.js:23-30 | Both totals drop by the removed line's units and value. An absent id changes nothing, and the totals stay in step, in exact whole-number arithmetic. |
| CartSlice.Cart.ClearCart | mern-ecommerce/client/src/features/cart/cartSlice.js:31-35 | The cart becomes empty, with both totals 0. |
| CartSlice.PriceDriftExample | mern-ecommerce/client/src/features/cart/cartSlice.js:14-21 | Re-adding a product at a new price makes `totalAmount` (22) differ from the line value (20). |
| ReviewSlice.RejectionMessage | mern-ecommerce/client/src/features/reviews/reviewSlice.js:17 | The server's non-empty message is used, else the fallback text. |
| ReviewSlice.StatsFrom | mern-ecommerce/client/src/features/reviews/reviewSlice.js:107-115 | The stats come from the answer: `total`, the `pending` count or 0, and an average of 0. |
| ReviewSlice.StatsCountStore | mern-ecommerce/client/src/features/reviews/reviewSlice.js:39-42 | After the parameterless admin fetch, `totalReviews` is the number of stored reviews and `pendingApproval` the number of pending ones. |
| ReviewRoutes.AllMatch | mern-ecommerce/server/routes/reviewRoutes.js:148-152 | With neither filter, every review matches the admin query. |
| ReviewSlice.ReviewState.constructor | mern-ecommerce/client/src/features/reviews/reviewSlice.js:53-66 | The initial state: empty lists, zero stats, no error, not loading, no submit success. |
| ReviewSlice.ReviewState.ClearSubmitSuccess | mern-ecommerce/client/src/features/reviews/reviewSlice.js:68-70 | Only `submitSuccess` changes, to false. |
| ReviewSlice.ReviewState.ClearError | mern-ecommerce/client/src/features/reviews/reviewSlice.js:71-73 | Only `error` changes, to none. |
| ReviewSlice.ReviewState.SubmitPending | mern-ecommerce/client/src/features/reviews/reviewSlice.js:78-81 | Sets loading and clears the error. Nothing else changes. |
| ReviewSlice.ReviewState.SubmitFulfilled | mern-ecommerce/client/src/features/reviews/reviewSlice.js:82-86 | Appends the created review, stops loading and sets `submitSuccess`. |
| ReviewSlice.ReviewState.Rejected | mern-ecommerce/client/src/features/reviews/reviewSlice.js:87-90 | Stops loading and stores the rejection value as the error. Nothing else changes. |
| ReviewSlice.ReviewState.FetchPending | mern-ecommerce/client/src/features/reviews/reviewSlice.js:92-94 | Sets loading and leaves the error as it was. |
| ReviewSlice.ReviewState.ProductReviewsFulfilled | mern-ecommerce/client/src/features/reviews/reviewSlice.js:95-98 | Only the product reviews, replaced by the listing's, and `loading` change. |
| ReviewSlice.ReviewState.AllReviewsFulfilled | mern-ecommerce/client/src/features/reviews/reviewSlice.js:107-115 | `reviews` becomes the page's reviews and the stats become `StatsFrom` the answer. |
| AuthSlice.LoginError | mern-ecommerce/client/src/features/auth/authSlice.js:15 | The server's non-empty message is used, else "Login failed". The result is never empty. |
| AuthSlice.AuthState.constructor | mern-ecommerce/client/src/features/auth/authSlice.js:22-27 | User and token are read from storage, so the state mirrors storage. |
| AuthSlice.AuthState.SetCredentials | mern-ecommerce/client/src/features/auth/authSlice.js:29-34 | Signs the payload in and writes both storage entries. State and storage agree. |
| AuthSlice.AuthState.Logout | mern-ecommerce/client/src/features/auth/authSlice.js:35-40 | Clears user, token and both storage entries. |
| AuthSlice.AuthState.ClearError | mern-ecommerce/client/src/features/auth/authSlice.js:41-43 | Only the error changes. |
| AuthSlice.AuthState.LoginPending | mern-ecommerce/client/src/features/auth/authSlice.js:47-50 | Sets loading and clears the error. User and storage are untouched. |
| AuthSlice.AuthState.LoginFulfilled | mern-ecommerce/client/src/features/auth/authSlice.js:51-55 | Signs the answer in after the request stored it. State and storage agree. |
| AuthSlice.AuthState.LoginRejected | mern-ecommerce/client/src/features/auth/authSlice.js:56-59 | Stops loading and sets the error. User, token and storage stay as they were. |
| Text.Capitalize | mern-ecommerce/client/src/pages/AdminReviews.jsx:99 | The first letter is upper-cased and the rest is kept. |
| Text.TrimSpec | mern-ecommerce/client/src/pages/WriteReview.jsx:82 | `trim` removes exactly the leading and trailing white space. |
| Text.SplitJoin | mern-ecommerce/client/src/pages/WriteReview.jsx:82 | Splitting a non-empty list of comma-free pieces, joined by commas, gives back the pieces. |
| WriteReview.Uploaded | mern-ecommerce/client/src/pages/WriteReview.jsx:45-56 | The upload is refused iff the total would exceed 5. Otherwise the files are appended after the existing images. |
| WriteReview.RemovedAt | mern-ecommerce/client/src/pages/WriteReview.jsx:58-63 | `splice(index, 1)` drops exactly the image at `index` and keeps the others in order. |
| WriteReview.TrimAll | mern-ecommerce/client/src/pages/WriteReview.jsx:82 | Each piece is trimmed, and no piece is lost or added. |
| WriteReview.ParseList | mern-ecommerce/client/src/pages/WriteReview.jsx:82-83 | The entries are the non-empty trimmed pieces, in order, each as often as it occurs among the pieces. Each entry is non-empty with no white space at either end. |
| WriteReview.KeepNonEmpty | mern-ecommerce/client/src/pages/WriteReview.jsx:82-83 | Drops exactly the empty pieces: the rest keep their order and their number of copies. |
| WriteReview.ParseBlank | mern-ecommerce/client/src/pages/WriteReview.jsx:82-83 | A blank or empty field parses to no entries. |
| WriteReview.ParseJoin | mern-ecommerce/client/src/pages/WriteReview.jsx:82-83 | Clean, comma-free entries joined by commas parse back to themselves. |
| WriteReview.ReviewForm.constructor | mern-ecommerce/client/src/pages/WriteReview.jsx:17-24 | The form starts with no rating, empty texts, no images and `recommend` on. |
| WriteReview.ReviewForm.HandleImageUpload | mern-ecommerce/client/src/pages/WriteReview.jsx:45-56 | The list grows by the files, or stays the same when that would exceed 5. Never more than 5 images, and the other fields are untouched. |
| WriteReview.ReviewForm.RemoveImage | mern-ecommerce/client/src/pages/WriteReview.jsx:58-63 | The image list becomes `RemovedAt`. The other fields are untouched. |
| WriteReview.ReviewForm.HandleSubmit | mern-ecommerce/client/src/pages/WriteReview.jsx:65-91 | Nothing is sent iff no rating was chosen. Otherwise the payload carries the form's fields, the parsed pros/cons, status `pending` and the time. |
| WriteReview.AsRequest | mern-ecommerce/server/routes/reviewRoutes.js:83 | The route reads rating, title, comment and recommend from the payload but finds no `photos` in it. |
| WriteReview.FormSubmission | mern-ecommerce/server/routes/reviewRoutes.js:121-135 | A review stored from the form keeps its rating, title, comment and recommendation and is `pending` by the caller. It has no photos, whatever images were attached. |
| AdminReviews.FilteredReviews | mern-ecommerce/client/src/pages/AdminReviews.jsx:85-89 | Keeps exactly the rows whose author, comment or product id contains the query, ignoring case, in order. |
| AdminReviews.FieldMatchesAt | mern-ecommerce/client/src/pages/AdminReviews.jsx:85-89 | A present field matches exactly when the lower-cased query occurs at some position of the lower-cased field. |
| AdminReviews.SearchIgnoresCase | mern-ecommerce/client/src/pages/AdminReviews.jsx:85-89 | A query and its lower-case form show the same rows. |
| AdminReviews.EmptySearch | mern-ecommerce/client/src/pages/AdminReviews.jsx:85-89 | The empty query shows exactly the rows with at least one searched field. A row with none of them is never shown. |
| AdminReviews.StatusParam | mern-ecommerce/client/src/pages/AdminReviews.jsx:35 | The parameter is empty iff the filter is `all`; otherwise it is `&status=<filter>`. |
| AdminReviews.FetchQueryParams | mern-ecommerce/client/src/pages/AdminReviews.jsx:35-37 | The query string reads back as page 1, limit 50, and a status equal to the filter, absent for `all`. |
| AdminReviews.FetchFollowsFilter | mern-ecommerce/client/src/pages/AdminReviews.jsx:35-37 | A filter button fetches at most 50 reviews, all with the chosen status. Under `all`, the total counts every review. |
| AdminReviews.FilterLabels | mern-ecommerce/client/src/pages/AdminReviews.jsx:147 | The labels read All, Pending, Approved and Rejected. |

## Left out

- Authentication middleware (`protect`, `admin`), `server.js`, `GET /api/admin/users`, `GET /api/reviews/test` and `GET /api/products/featured`: the middleware, the user model and the review-statistics join are not part of this model.
- `server.js` (lines 20-23) mounts the product, auth, order and admin routers but not the review router, so as the repository stands every `/api/reviews` route in `ReviewRoutes` is unreachable. The model treats those routes as served. The client also calls port 5001 (`reviewSlice.js:11`, `AdminReviews.jsx:37`), while the server defaults to port 5000 (`server.js:30`).
- `GET /api/products` (list every product) is a plain `find` without logic. It is not modelled.
- The network, the database driver, `localStorage`, `alert`, `URL.createObjectURL` and the clock are outside the model. Storage appears as two fields beside the auth state. The time is a parameter `now`. Database failures (the 500 answers from `catch`) are not modelled, except for validation failures on save.
- `populate` and `select` projections are left out. Responses carry whole documents.
- Product timestamps and the review `updatedAt` are not modelled. A review's `createdAt` is the time given to it.
- Ties in sorting follow a fixed insertion order. The database leaves their order open.
- Text is ASCII: the white space `trim` removes is the ASCII set, and case mapping covers A–Z only.
- Query strings are read without percent-decoding.
- Ids are natural numbers. A malformed id, which makes the driver throw a cast error (500), is not modelled.
- The review's `productId` is an id here, standing for the string the client sent; string formats of ids are not modelled.
- `CartSlice.Cart.AddToCart`: prices, amounts, subtotals and revenue are whole numbers here, where the source stores JavaScript Numbers (binary64 floating point). Floating-point rounding is not modelled, so the claim that the totals stay in step is a claim about exact arithmetic. For example, adding a 19.99 product six times sums to 119.93999999999998 in JavaScript.
- `CartSlice.Cart.RemoveFromCart`: for the same reason, removing a line leaves `totalAmount` exactly 0 in the model, where JavaScript can leave a rounding residue such as -1.42e-14. The same holds for the order subtotal compared with 500 in `OrderRoutes.CourierCharge` and for `AdminRoutes.Stats` revenue.
- `ReviewRoutes.Submit`: ratings are whole numbers here. The schema accepts any Number from 1 to 5, so a fractional rating such as 4.5 is not modelled.
- `OrderRoutes.NewOrder`: a request without `shippingAddress`, which throws a TypeError (500), is not modelled. Neither is a non-number `totalAmount`, which JavaScript would concatenate.
- `OrderRoutes.CourierCharge`: a zone naming an `Object.prototype` key such as `constructor` is treated as unknown. JavaScript would return that key's value.
- `ReviewRoutes.AdminList`: requires `page >= 1` and `limit >= 1`. Other values follow the driver's `skip`/`limit` conventions and are not modelled.
- `ReviewRoutes.UpdateReviewStatus`: a request without `status` is not modelled. The status is written without the enum check, as `findByIdAndUpdate` skips validators.
- `ReviewRoutes.Average`: the `toFixed(1)` rounding of the displayed average is not modelled.
- `AuthSlice.AuthState.SetCredentials`: storing an undefined token writes the text `undefined` in the browser. The model stores the absent token as absent.
- `ReviewSlice.ReviewState`: `averageRatings` and `userReviews` are declared but never written by any reducer. They stay at their initial values.
- `WriteReview.ReviewForm`: image previews and their revocation are not modelled. Images are file references. The hover rating and the product fetch are page presentation.
- `AdminReviews`: the approve/reject/delete buttons call the review routes modelled in `ReviewRoutes`. The rendering itself is not modelled.
