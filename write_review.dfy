/** The review form of the client (`pages/WriteReview.jsx`): the bounded
    image list with its upload and remove handlers, the rating guard, and
    the comma-separated pros/cons parsing of the submission. */
module WriteReview {
  import opened Common
  import opened Text
  import ReviewModel
  import ReviewRoutes

  /** At most this many images may be attached. */
  const MaxImages: nat := 5

  /** The separator of the pros and cons fields. */
  const ListSeparator: char := ','

  /** A chosen image file; its preview URL is not part of this model. */
  type FileRef = nat

  /** The image list after choosing `files`: nothing when the total would
      exceed five (the page alerts and keeps its list), else the new files
      after the existing ones. */
  function Uploaded(images: seq<FileRef>, files: seq<FileRef>): (r: Option<seq<FileRef>>)
    ensures r.None? <==> |images| + |files| > MaxImages
    ensures r.Some? ==> r.value == images + files && |r.value| <= MaxImages
    ensures r.Some? ==> r.value[..|images|] == images && r.value[|images|..] == files
  {
    if |files| + |images| > MaxImages then None else Some(images + files)
  }

  /** The image list after `splice(index, 1)`. */
  function RemovedAt(images: seq<FileRef>, index: nat): (r: seq<FileRef>)
    requires index < |images|
    ensures |r| == |images| - 1
    ensures forall i :: 0 <= i < index ==> r[i] == images[i]
    ensures forall i :: index <= i < |r| ==> r[i] == images[i + 1]
    ensures IsSubsequence(r, images)
    ensures multiset(r) + multiset{images[index]} == multiset(images)
  {
    RemoveAtIsSubsequence(images, index);
    assert images == images[..index] + [images[index]] + images[index + 1..];
    images[..index] + images[index + 1..]
  }

  /** Each piece trimmed (`map(p => p.trim())`). */
  function TrimAll(pieces: seq<string>): (r: seq<string>)
    ensures |r| == |pieces|
    ensures forall k :: 0 <= k < |r| ==> r[k] == Trim(pieces[k])
  {
    seq(|pieces|, k requires 0 <= k < |pieces| => Trim(pieces[k]))
  }

  /** A parsed entry: non-empty, with no white space at either end. */
  predicate Clean(e: string)
  {
    e != "" && !IsSpace(e[0]) && !IsSpace(e[|e| - 1])
  }

  /** `filter(Boolean)` on strings: the non-empty ones, in order, each as
      often as it occurs. */
  function KeepNonEmpty(pieces: seq<string>): (r: seq<string>)
    ensures IsSubsequence(r, pieces)
    ensures forall e :: e in r <==> e in pieces && e != ""
    ensures forall e :: multiset(r)[e] == if e != "" then multiset(pieces)[e] else 0
  {
    FilterMembers(pieces, (e: string) => e != "");
    FilterIsSubsequence(pieces, (e: string) => e != "");
    FilterMultiset(pieces, (e: string) => e != "");
    Filter(pieces, (e: string) => e != "")
  }

  /** `s.split(',').map(p => p.trim()).filter(Boolean)`: the trimmed pieces
      that are not empty, in order, each as often as it occurs. */
  function ParseList(s: string): (r: seq<string>)
    ensures forall i :: 0 <= i < |r| ==> Clean(r[i])
    ensures IsSubsequence(r, TrimAll(Split(s, ListSeparator)))
    ensures forall e :: e in r <==> e in TrimAll(Split(s, ListSeparator)) && e != ""
    ensures forall e :: multiset(r)[e] == if e != "" then multiset(TrimAll(Split(s, ListSeparator)))[e] else 0
  {
    TrimmedEntriesClean(Split(s, ListSeparator));
    KeepNonEmpty(TrimAll(Split(s, ListSeparator)))
  }

  /** The non-empty trimmed pieces are clean. */
  lemma TrimmedEntriesClean(pieces: seq<string>)
    ensures forall e :: e in KeepNonEmpty(TrimAll(pieces)) ==> Clean(e)
  {
    var trimmed := TrimAll(pieces);
    forall e | e in KeepNonEmpty(trimmed)
      ensures Clean(e)
    {
      var k :| 0 <= k < |trimmed| && trimmed[k] == e;
    }
  }

  /** Blank or empty input parses to no entries. */
  lemma ParseBlank(s: string)
    requires forall k :: 0 <= k < |s| ==> IsSpace(s[k])
    ensures ParseList(s) == []
  {
    var pieces := Split(s, ListSeparator);
    SplitChars(s, ListSeparator);
    forall k | 0 <= k < |pieces| ensures Trim(pieces[k]) == [] {
      BlankPiece(s, pieces[k]);
    }
  }

  lemma BlankPiece(s: string, piece: string)
    requires forall k :: 0 <= k < |s| ==> IsSpace(s[k])
    requires forall j :: 0 <= j < |piece| ==> piece[j] in s
    ensures Trim(piece) == []
  {
    TrimBlank(piece);
  }

  /** Clean, comma-free entries joined with commas parse back to themselves. */
  lemma ParseJoin(entries: seq<string>)
    requires forall i :: 0 <= i < |entries| ==> Clean(entries[i]) && ListSeparator !in entries[i]
    ensures ParseList(Join(entries, ListSeparator)) == entries
  {
    if entries == [] {
      ParseEmpty();
    } else {
      SplitJoin(entries, ListSeparator);
      TrimAllClean(entries);
      FilterAll(entries, (e: string) => e != "");
    }
  }

  /** The empty field parses to no entries. */
  lemma ParseEmpty()
    ensures ParseList("") == []
  {
    assert Split("", ListSeparator) == [""];
    assert TrimAll([""]) == [""];
    assert Filter([""], (e: string) => e != "") == [];
  }

  /** Trimming leaves clean entries as they are. */
  lemma TrimAllClean(entries: seq<string>)
    requires forall i :: 0 <= i < |entries| ==> Clean(entries[i])
    ensures TrimAll(entries) == entries
  {
    forall i | 0 <= i < |entries| ensures Trim(entries[i]) == entries[i] {
      TrimClean(entries[i]);
    }
  }

  /** The body the form dispatches. */
  datatype ReviewPayload = ReviewPayload(
    orderId: Id, productId: Id, userId: Id, userName: string, rating: int, title: string,
    comment: string, pros: seq<string>, cons: seq<string>, recommend: bool,
    images: seq<FileRef>, status: string, createdAt: int)

  /** The form state. */
  class ReviewForm {
    var rating: int
    var title: string
    var comment: string
    var images: seq<FileRef>
    var pros: string
    var cons: string
    var recommend: bool

    /** The image list never holds more than five images. */
    ghost predicate Valid()
      reads this
    {
      |images| <= MaxImages
    }

    /** The initial form: no rating, empty texts, no images, recommended. */
    constructor ()
      ensures Valid()
      ensures rating == 0 && title == "" && comment == "" && images == []
      ensures pros == "" && cons == "" && recommend
    {
      rating := 0;
      title := "";
      comment := "";
      images := [];
      pros := "";
      cons := "";
      recommend := true;
    }

    /** `handleImageUpload`: the list grows by the chosen files, or stays as
        it is when they would make it longer than five. */
    method HandleImageUpload(files: seq<FileRef>)
      requires Valid()
      modifies this
      ensures Valid()
      ensures Uploaded(old(images), files).None? ==> images == old(images)
      ensures Uploaded(old(images), files).Some? ==> images == old(images) + files
      ensures rating == old(rating) && title == old(title) && comment == old(comment)
      ensures pros == old(pros) && cons == old(cons) && recommend == old(recommend)
    {
      if |files| + |images| > MaxImages {
        return;
      }
      images := images + files;
    }

    /** `removeImage(index)`: the image at `index` is gone. */
    method RemoveImage(index: nat)
      requires Valid() && index < |images|
      modifies this
      ensures Valid()
      ensures images == RemovedAt(old(images), index)
      ensures rating == old(rating) && title == old(title) && comment == old(comment)
      ensures pros == old(pros) && cons == old(cons) && recommend == old(recommend)
    {
      var copy := images;
      images := copy[..index] + copy[index + 1..];
    }

    /** `handleSubmit`: nothing when no rating was chosen, else the payload
        carrying the rating, the parsed lists and the status `pending`. */
    method HandleSubmit(orderId: Id, productId: Id, user: Caller, now: int)
      returns (r: Option<ReviewPayload>)
      ensures rating == 0 <==> r.None?
      ensures r.Some? ==>
        && r.value.rating == rating && r.value.status == ReviewModel.StatusPending
        && r.value.orderId == orderId && r.value.productId == productId
        && r.value.userId == user.id && r.value.userName == user.name
        && r.value.title == title && r.value.comment == comment
        && r.value.pros == ParseList(pros) && r.value.cons == ParseList(cons)
        && r.value.recommend == recommend && r.value.images == images
        && r.value.createdAt == now
    {
      if rating == 0 {
        return None;
      }
      r := Some(ReviewPayload(
        orderId, productId, user.id, user.name, rating, title, comment,
        ParseList(pros), ParseList(cons), recommend, images, ReviewModel.StatusPending, now));
    }
  }

  /** The fields of the payload the review route reads: it takes `photos`,
      which the form does not send, and ignores the lists, the images, the
      user fields, the status and the time. */
  function AsRequest(p: ReviewPayload): (req: ReviewRoutes.SubmitRequest)
    ensures req.photos.None?
    ensures req.rating == Some(p.rating) && req.comment == Some(p.comment)
  {
    ReviewRoutes.SubmitRequest(
      p.orderId, p.productId, Some(p.rating), Some(p.title), Some(p.comment), None, Some(p.recommend))
  }

  /** A review stored from the form keeps its rating, title, comment and
      recommendation, but no photos, whatever images were attached; its
      status is `pending` and its author is the signed-in caller. */
  lemma FormSubmission(
    orders: seq<ReviewRoutes.O.Order>, reviews: seq<ReviewModel.Review>, id: Id,
    caller: Caller, p: ReviewPayload, now: int)
    requires ReviewRoutes.SubmitDecision(orders, reviews, id, caller, AsRequest(p), now).ReviewCreated?
    ensures var r := ReviewRoutes.SubmitDecision(orders, reviews, id, caller, AsRequest(p), now).review;
      && r.photos == [] && r.rating == p.rating && r.title == p.title
      && r.comment == p.comment && r.recommend == p.recommend
      && r.status == ReviewModel.StatusPending
      && r.userId == caller.id && r.userName == caller.name && r.createdAt == now
  {
  }
}
