/** The admin review page of the client (`pages/AdminReviews.jsx`):
    the query string it fetches the review list with, the client-side search
    over the fetched rows, and the labels of the status filters. */
module AdminReviews {
  import opened Common
  import opened Text
  import ReviewModel
  import ReviewRoutes
  import ReviewSlice

  /** The filter button that sends no status. */
  const AllFilter: string := "all"

  /** The page always asks for the first page of fifty. */
  const FetchPage: nat := 1
  const FetchLimit: nat := 50

  /** The four filter buttons. */
  predicate IsFilter(f: string)
  {
    f == AllFilter || ReviewModel.IsStatus(f)
  }

  /** A review as the page receives it: any of the searched fields may be
      absent (`?.`); `productId` is the id's text. */
  datatype ReviewRow = ReviewRow(
    id: Id, userName: Option<string>, comment: Option<string>, productId: Option<string>, status: string)

  /** `field?.toLowerCase().includes(query.toLowerCase())`: an absent field
      never matches. */
  predicate FieldMatches(field: Option<string>, query: string)
  {
    field.Some? && Contains(Lower(field.value), Lower(query))
  }

  /** A present field matches exactly when the lower-cased query occurs at
      some position of the lower-cased field. */
  lemma FieldMatchesAt(field: string, query: string)
    ensures FieldMatches(Some(field), query) <==> exists i :: OccursAt(Lower(field), Lower(query), i)
  {
    ContainsAt(Lower(field), Lower(query));
  }

  /** A row is shown when its author, comment or product id matches. */
  predicate Shown(row: ReviewRow, query: string)
  {
    FieldMatches(row.userName, query) || FieldMatches(row.comment, query) || FieldMatches(row.productId, query)
  }

  /** `filteredReviews`: the fetched rows the search keeps, in their order. */
  function FilteredReviews(rows: seq<ReviewRow>, query: string): (r: seq<ReviewRow>)
    ensures forall x :: x in r <==> x in rows && Shown(x, query)
    ensures IsSubsequence(r, rows)
    ensures |r| <= |rows|
  {
    FilterMembers(rows, (x: ReviewRow) => Shown(x, query));
    FilterIsSubsequence(rows, (x: ReviewRow) => Shown(x, query));
    Filter(rows, (x: ReviewRow) => Shown(x, query))
  }

  /** The search ignores case: a query and its lower-case form show the
      same rows. */
  lemma {:induction false} SearchIgnoresCase(rows: seq<ReviewRow>, query: string)
    ensures FilteredReviews(rows, Lower(query)) == FilteredReviews(rows, query)
  {
    LowerIdempotent(query);
    if rows != [] {
      SearchIgnoresCase(rows[1..], query);
    }
  }

  /** The empty search shows exactly the rows that carry at least one of
      the searched fields; a row with none of them is never shown. */
  lemma EmptySearch(rows: seq<ReviewRow>, query: string)
    ensures forall x :: x in FilteredReviews(rows, "") <==>
      x in rows && (x.userName.Some? || x.comment.Some? || x.productId.Some?)
    ensures forall x :: x in rows && x.userName.None? && x.comment.None? && x.productId.None? ==>
      x !in FilteredReviews(rows, query)
  {
    forall x | x in rows && (x.userName.Some? || x.comment.Some? || x.productId.Some?)
      ensures Shown(x, "")
    {
      if x.userName.Some? {
        ContainsEmpty(Lower(x.userName.value));
      } else if x.comment.Some? {
        ContainsEmpty(Lower(x.comment.value));
      } else {
        ContainsEmpty(Lower(x.productId.value));
      }
    }
  }

  /** `statusParam`: nothing for `all`, `&status=<filter>` otherwise. */
  function StatusParam(filter: string): (r: string)
    ensures filter == AllFilter <==> r == ""
    ensures filter != AllFilter ==> r == "&status=" + filter
  {
    if filter != AllFilter then "&status=" + filter else ""
  }

  /** The query string of the list request. */
  function FetchQuery(filter: string): string
  {
    "page=1&limit=50" + StatusParam(filter)
  }

  /** The key of a `key=value` pair: the text before the first `=`. */
  function Key(pair: string): string
  {
    Split(pair, '=')[0]
  }

  /** The value of a `key=value` pair: the text after the first `=`. */
  function Value(pair: string): string
  {
    if |Key(pair)| < |pair| then pair[|Key(pair)| + 1..] else ""
  }

  /** The value of the first pair with `key`. */
  function Lookup(pairs: seq<string>, key: string): (r: Option<string>)
    ensures r.None? <==> forall i :: 0 <= i < |pairs| ==> Key(pairs[i]) != key
  {
    if pairs == [] then None
    else if Key(pairs[0]) == key then Some(Value(pairs[0]))
    else Lookup(pairs[1..], key)
  }

  /** How the route reads one query parameter (no percent-decoding). */
  function QueryParam(query: string, key: string): Option<string>
  {
    Lookup(Split(query, '&'), key)
  }

  /** A pair written as `key=value` reads back as that key and value. */
  lemma {:induction false} PairReads(key: string, value: string)
    requires '=' !in key
    ensures Key(key + "=" + value) == key && Value(key + "=" + value) == value
  {
    assert key + "=" + value == key + ['='] + value;
    SplitPiece(key, value, '=');
    assert (key + "=" + value)[|key| + 1..] == value;
  }

  /** The list request's query string reads back as page 1, limit 50, and
      the chosen filter as the status, which is absent for `all`. */
  lemma {:induction false} FetchQueryParams(filter: string)
    requires '&' !in filter
    ensures QueryParam(FetchQuery(filter), "page") == Some("1")
    ensures QueryParam(FetchQuery(filter), "limit") == Some("50")
    ensures QueryParam(FetchQuery(filter), "status") == if filter == AllFilter then None else Some(filter)
  {
    if filter == AllFilter {
      assert FetchQuery(filter) == "page=1&limit=50" + "";
      SplitFixed("");
      FixedPairs([]);
    } else {
      var last := "status=" + filter;
      PairReads("status", filter);
      assert "status" + "=" + filter == last;
      assert FetchQuery(filter) == "page=1&limit=50&" + last;
      SplitFixed(last);
      FixedPairs([last]);
      assert [last][1..] == [];
    }
  }

  /** The list request's query string splits into its two fixed pairs and
      the status pair, when there is one. */
  lemma {:induction false} SplitFixed(last: string)
    requires last == "" || exists f :: '&' !in f && last == "status=" + f
    ensures last == "" ==> Split("page=1&limit=50" + last, '&') == ["page=1"] + (["limit=50"] + [])
    ensures last != "" ==> Split("page=1&limit=50&" + last, '&') == ["page=1"] + (["limit=50"] + [last])
  {
    if last == "" {
      assert "page=1&limit=50" + last == "page=1" + ['&'] + "limit=50";
      SplitSingle("limit=50", '&');
      SplitPiece("page=1", "limit=50", '&');
    } else {
      var f :| '&' !in f && last == "status=" + f;
      assert '&' !in last by {
        assert forall i :: 7 <= i < |last| ==> last[i] == f[i - 7];
      }
      SplitSingle(last, '&');
      assert "page=1&limit=50&" + last == "page=1" + ['&'] + ("limit=50" + ['&'] + last);
      SplitPiece("limit=50", last, '&');
      SplitPiece("page=1", "limit=50" + ['&'] + last, '&');
    }
  }

  /** The two fixed pairs answer `page` and `limit`, and any other key is
      looked up in the pairs after them. */
  lemma {:induction false} FixedPairs(rest: seq<string>)
    ensures Lookup(["page=1"] + (["limit=50"] + rest), "page") == Some("1")
    ensures Lookup(["page=1"] + (["limit=50"] + rest), "limit") == Some("50")
    ensures Lookup(["page=1"] + (["limit=50"] + rest), "status") == Lookup(rest, "status")
  {
    FixedKeys();
    var pairs := ["page=1"] + (["limit=50"] + rest);
    assert pairs[0] == "page=1" && pairs[1..] == ["limit=50"] + rest;
    assert pairs[1..][0] == "limit=50" && pairs[1..][1..] == rest;
    assert |"page"| == 4 && |"limit"| == 5 && |"status"| == 6;
    LookupSkip(pairs, "limit");
    LookupSkip(pairs, "status");
    LookupSkip(pairs[1..], "status");
  }

  /** The keys and values of the two fixed pairs. */
  lemma FixedKeys()
    ensures Key("page=1") == "page" && Value("page=1") == "1"
    ensures Key("limit=50") == "limit" && Value("limit=50") == "50"
  {
    PairReads("page", "1");
    assert "page" + "=" + "1" == "page=1";
    PairReads("limit", "50");
    assert "limit" + "=" + "50" == "limit=50";
  }

  /** A pair with another key is passed over. */
  lemma LookupSkip(pairs: seq<string>, key: string)
    requires pairs != [] && Key(pairs[0]) != key
    ensures Lookup(pairs, key) == Lookup(pairs[1..], key)
  {
  }

  /** The route's status argument: an absent or empty value filters
      nothing (`if (status)`). */
  function RouteStatus(query: string): string
  {
    QueryParam(query, "status").GetOr("")
  }

  /** What a filter button fetches: at most fifty reviews, all of them with
      the chosen status; under `all`, a total counting every review. */
  lemma FetchFollowsFilter(reviews: seq<ReviewModel.Review>, filter: string)
    requires IsFilter(filter)
    ensures var page := ReviewRoutes.AdminList(reviews, RouteStatus(FetchQuery(filter)), None, FetchPage, FetchLimit);
      && |page.reviews| <= FetchLimit
      && (filter != AllFilter ==> forall x :: x in page.reviews ==> x.status == filter)
      && (filter == AllFilter ==> page.total == |reviews|)
  {
    assert '&' !in filter;
    FetchQueryParams(filter);
    if filter == AllFilter {
      ReviewRoutes.AllMatch(reviews);
    }
  }

  /** The labels of the filter buttons and status badges
      (`s.charAt(0).toUpperCase() + s.slice(1)`). */
  lemma FilterLabels()
    ensures Capitalize(AllFilter) == "All"
    ensures Capitalize(ReviewModel.StatusPending) == "Pending"
    ensures Capitalize(ReviewModel.StatusApproved) == "Approved"
    ensures Capitalize(ReviewModel.StatusRejected) == "Rejected"
  {
  }
}
