/** The client's review state (`features/reviews/reviewSlice.js`): the two
    plain reducers and the pending/fulfilled/rejected transitions of the
    three requests, which assign the fields of the state in place. */
module ReviewSlice {
  import opened Common
  import opened ReviewModel
  import ReviewRoutes

  /** The text a request rejects with when the server sent no message. */
  const SubmitFailedText: string := "Failed to submit review"
  const FetchFailedText: string := "Failed to fetch reviews"

  /** `error.response?.data?.message || fallback`: the server's message when
      there is a non-empty one, the fallback otherwise. */
  function RejectionMessage(serverMessage: Option<string>, fallback: string): (r: string)
    ensures serverMessage.Some? && serverMessage.value != "" ==> r == serverMessage.value
    ensures serverMessage.None? || serverMessage.value == "" ==> r == fallback
    ensures fallback != "" ==> r != ""
  {
    if serverMessage.Some? && serverMessage.value != "" then serverMessage.value else fallback
  }

  /** The `stats` part of the state. */
  datatype Stats = Stats(totalReviews: int, averageRating: real, pendingApproval: int)

  const InitialStats: Stats := Stats(0, 0.0, 0)

  /** The `stats` the `fetchAllReviews` fulfilment stores from the admin
      list's answer: the total, the `pending` count or 0, and an average of
      0. */
  function StatsFrom(page: ReviewRoutes.AdminPage): (r: Stats)
    ensures r.totalReviews == page.total
    ensures StatusPending in page.stats ==> r.pendingApproval == page.stats[StatusPending]
    ensures StatusPending !in page.stats ==> r.pendingApproval == 0
    ensures r.averageRating == 0.0
  {
    Stats(
      page.total,
      0.0,
      if StatusPending in page.stats then page.stats[StatusPending] else 0)
  }

  /** The state counts what the server holds: after the unfiltered admin
      list (the request sends no query, so page 1 of 20), `totalReviews` is
      the number of stored reviews and `pendingApproval` the number of
      pending ones. */
  lemma {:induction false} StatsCountStore(reviews: seq<Review>)
    ensures var s := StatsFrom(ReviewRoutes.AdminList(reviews, "", None, 1, 20));
      && s.totalReviews == |reviews|
      && s.pendingApproval == ReviewRoutes.CountStatus(reviews, StatusPending)
  {
    var m := ReviewRoutes.Matching(reviews, "", None);
    FilterMembers(reviews, (r: Review) => ReviewRoutes.Matches("", None, r));
    assert |m| == |reviews| by {
      ReviewRoutes.AllMatch(reviews);
    }
  }

  /** The review state. `averageRatings` and `userReviews` are declared but
      never written by any reducer. */
  class ReviewState {
    var reviews: seq<Review>
    var productReviews: seq<Review>
    var userReviews: seq<Review>
    var averageRatings: map<Id, real>
    var stats: Stats
    var loading: bool
    var error: Option<string>
    var submitSuccess: bool

    /** The initial state. */
    constructor ()
      ensures reviews == [] && productReviews == [] && userReviews == []
      ensures averageRatings == map[] && stats == InitialStats
      ensures !loading && error.None? && !submitSuccess
    {
      reviews := [];
      productReviews := [];
      userReviews := [];
      averageRatings := map[];
      stats := InitialStats;
      loading := false;
      error := None;
      submitSuccess := false;
    }

    /** `clearSubmitSuccess`: only `submitSuccess` changes. */
    method ClearSubmitSuccess()
      modifies this
      ensures !submitSuccess
      ensures reviews == old(reviews) && productReviews == old(productReviews)
      ensures userReviews == old(userReviews) && averageRatings == old(averageRatings)
      ensures stats == old(stats) && loading == old(loading) && error == old(error)
    {
      submitSuccess := false;
    }

    /** `clearError`: only `error` changes. */
    method ClearError()
      modifies this
      ensures error.None?
      ensures reviews == old(reviews) && productReviews == old(productReviews)
      ensures userReviews == old(userReviews) && averageRatings == old(averageRatings)
      ensures stats == old(stats) && loading == old(loading) && submitSuccess == old(submitSuccess)
    {
      error := None;
    }

    /** `submitReview.pending`: loading, and the previous error cleared. */
    method SubmitPending()
      modifies this
      ensures loading && error.None?
      ensures reviews == old(reviews) && productReviews == old(productReviews)
      ensures stats == old(stats) && submitSuccess == old(submitSuccess)
      ensures userReviews == old(userReviews) && averageRatings == old(averageRatings)
    {
      loading := true;
      error := None;
    }

    /** `submitReview.fulfilled`: the created review is appended. */
    method SubmitFulfilled(created: Review)
      modifies this
      ensures !loading && submitSuccess
      ensures reviews == old(reviews) + [created] && |reviews| == |old(reviews)| + 1
      ensures productReviews == old(productReviews) && stats == old(stats) && error == old(error)
      ensures userReviews == old(userReviews) && averageRatings == old(averageRatings)
    {
      loading := false;
      submitSuccess := true;
      reviews := reviews + [created];
    }

    /** The `rejected` transition shared by all three requests: `message` is
        the value the request rejected with. */
    method Rejected(message: string)
      modifies this
      ensures !loading && error == Some(message)
      ensures reviews == old(reviews) && productReviews == old(productReviews)
      ensures stats == old(stats) && submitSuccess == old(submitSuccess)
      ensures userReviews == old(userReviews) && averageRatings == old(averageRatings)
    {
      loading := false;
      error := Some(message);
    }

    /** The `pending` transition of the two fetches: loading, the error is
        left as it was. */
    method FetchPending()
      modifies this
      ensures loading && error == old(error)
      ensures reviews == old(reviews) && productReviews == old(productReviews)
      ensures stats == old(stats) && submitSuccess == old(submitSuccess)
      ensures userReviews == old(userReviews) && averageRatings == old(averageRatings)
    {
      loading := true;
    }

    /** `fetchProductReviews.fulfilled`: only the listed reviews and
        `loading` change. */
    method ProductReviewsFulfilled(listing: ReviewRoutes.ProductListing)
      modifies this
      ensures !loading && productReviews == listing.reviews
      ensures reviews == old(reviews) && stats == old(stats) && error == old(error)
      ensures submitSuccess == old(submitSuccess)
      ensures userReviews == old(userReviews) && averageRatings == old(averageRatings)
    {
      loading := false;
      productReviews := listing.reviews;
    }

    /** `fetchAllReviews.fulfilled`: the page replaces `reviews`, and the
        stats are rebuilt from the answer. */
    method AllReviewsFulfilled(page: ReviewRoutes.AdminPage)
      modifies this
      ensures !loading && reviews == page.reviews && stats == StatsFrom(page)
      ensures productReviews == old(productReviews) && error == old(error)
      ensures submitSuccess == old(submitSuccess)
      ensures userReviews == old(userReviews) && averageRatings == old(averageRatings)
    {
      loading := false;
      reviews := page.reviews;
      stats := StatsFrom(page);
    }
  }
}
