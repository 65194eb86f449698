/**
 * src/reviews/reviews.service.ts: the renter of a completed booking reviews
 * it once, and a merchant's reviews are listed with their count and average
 * rating.
 */
module Reviews {
  import opened Common
  import opened Schema

  const OnlyRenterReviews := "Only the renter can review this booking"
  const NotCompleted := "Can only review completed bookings"
  const AlreadyReviewed := "Booking already has a review"

  /** The body of a review; the validator admits integer ratings from 1 to 5. */
  datatype NewReview = NewReview(bookingId: nat, rating: int, comment: Option<string>)

  /** The guards of `create`, in order. */
  function ReviewCheck(bookings: seq<Booking>, reviews: seq<Review>, reviewerId: nat, bookingId: nat): (f: Option<Failure>)
    ensures f.None? <==>
      && bookingId < |bookings| && bookings[bookingId].renterId == reviewerId
      && bookings[bookingId].status == Completed
      && forall k :: 0 <= k < |reviews| ==> reviews[k].bookingId != bookingId
    ensures bookingId >= |bookings| ==> f == Some(NotFound(BookingNotFound))
    ensures bookingId < |bookings| && bookings[bookingId].renterId != reviewerId ==> f == Some(Forbidden(OnlyRenterReviews))
    ensures (bookingId < |bookings| && bookings[bookingId].renterId == reviewerId &&
             bookings[bookingId].status != Completed) ==> f == Some(BadRequest(NotCompleted))
    ensures (bookingId < |bookings| && bookings[bookingId].renterId == reviewerId &&
             bookings[bookingId].status == Completed &&
             exists k :: 0 <= k < |reviews| && reviews[k].bookingId == bookingId) ==> f == Some(BadRequest(AlreadyReviewed))
  {
    if bookingId >= |bookings| then Some(NotFound(BookingNotFound))
    else if bookings[bookingId].renterId != reviewerId then Some(Forbidden(OnlyRenterReviews))
    else if bookings[bookingId].status != Completed then Some(BadRequest(NotCompleted))
    else if ReviewIndex(reviews, bookingId).Some? then Some(BadRequest(AlreadyReviewed))
    else None
  }

  /** `create(reviewerId, dto)`: the review is stored with the given booking, reviewer, rating and comment. */
  method Create(db: Database, reviewerId: nat, dto: NewReview) returns (r: Result<nat>)
    requires db.Valid()
    requires 1 <= dto.rating <= 5
    modifies db`reviews
    ensures db.Valid()
    ensures ReviewCheck(old(db.bookings), old(db.reviews), reviewerId, dto.bookingId).Some? ==>
      && r == Err(ReviewCheck(old(db.bookings), old(db.reviews), reviewerId, dto.bookingId).value)
      && db.reviews == old(db.reviews)
    ensures ReviewCheck(old(db.bookings), old(db.reviews), reviewerId, dto.bookingId).None? ==>
      && r == Ok(|old(db.reviews)|)
      && db.reviews == old(db.reviews) + [Review(dto.bookingId, reviewerId, dto.rating, dto.comment)]
  {
    var check := ReviewCheck(db.bookings, db.reviews, reviewerId, dto.bookingId);
    if check.Some? {
      return Err(check.value);
    }
    var review := Review(dto.bookingId, reviewerId, dto.rating, dto.comment);
    AddingReviewKeepsReviewsOk(db.reviews, db.bookings, review);
    r := Ok(|db.reviews|);
    db.reviews := db.reviews + [review];
  }

  lemma AddingReviewKeepsReviewsOk(reviews: seq<Review>, bookings: seq<Booking>, review: Review)
    requires ReviewsOk(reviews, bookings)
    requires ReviewCheck(bookings, reviews, review.reviewerId, review.bookingId).None?
    requires 1 <= review.rating <= 5
    ensures ReviewsOk(reviews + [review], bookings)
  {
    var reviews' := reviews + [review];
    assert forall k :: 0 <= k < |reviews| ==> reviews'[k] == reviews[k];
  }

  /** A booking is reviewed at most once: once a review is stored, a second one is refused. */
  lemma ReviewedOnce(bookings: seq<Booking>, reviews: seq<Review>, reviewerId: nat, dto: NewReview, anyone: nat)
    requires ReviewCheck(bookings, reviews, reviewerId, dto.bookingId).None?
    ensures var reviews' := reviews + [Review(dto.bookingId, reviewerId, dto.rating, dto.comment)];
      ReviewCheck(bookings, reviews', anyone, dto.bookingId).Some?
    ensures var reviews' := reviews + [Review(dto.bookingId, reviewerId, dto.rating, dto.comment)];
      ReviewCheck(bookings, reviews', reviewerId, dto.bookingId) == Some(BadRequest(AlreadyReviewed))
  {
    var reviews' := reviews + [Review(dto.bookingId, reviewerId, dto.rating, dto.comment)];
    assert reviews'[|reviews|].bookingId == dto.bookingId;
  }

  // ---------------------------------------------------------------------
  // findByMerchant
  // ---------------------------------------------------------------------

  /** The `where` of `findByMerchant`: the review's booking is the merchant's. */
  function ForMerchant(bookings: seq<Booking>, merchantId: nat): Review -> bool
  {
    (r: Review) => r.bookingId < |bookings| && bookings[r.bookingId].merchantId == merchantId
  }

  /** The sum of the ratings of the listed reviews. */
  function TotalRating(reviews: seq<Review>, ids: seq<nat>): int
    requires forall j :: 0 <= j < |ids| ==> ids[j] < |reviews|
  {
    if ids == [] then 0 else TotalRating(reviews, ids[..|ids| - 1]) + reviews[ids[|ids| - 1]].rating
  }

  /** `total / count` over the reals. */
  function Mean(total: int, count: nat): (m: real)
    requires count > 0
    ensures m * count as real == total as real
  {
    total as real / count as real
  }

  datatype MerchantReviews = MerchantReviews(reviews: seq<nat>, averageRating: real, totalReviews: nat)

  /**
   * `findByMerchant(merchantId)`: the merchant's reviews, newest first, their
   * number, and their mean rating (0 when there are none), before rounding
   * to one decimal.
   */
  function FindByMerchant(bookings: seq<Booking>, reviews: seq<Review>, merchantId: nat): (r: MerchantReviews)
    ensures forall k :: k in r.reviews <==>
      0 <= k < |reviews| && reviews[k].bookingId < |bookings| && bookings[reviews[k].bookingId].merchantId == merchantId
    ensures forall a, b :: 0 <= a < b < |r.reviews| ==> r.reviews[a] > r.reviews[b]
    ensures forall j :: 0 <= j < |r.reviews| ==> r.reviews[j] < |reviews|
    ensures r.totalReviews == |r.reviews|
    ensures r.totalReviews == 0 ==> r.averageRating == 0.0
    ensures r.totalReviews > 0 ==> r.averageRating == Mean(TotalRating(reviews, r.reviews), r.totalReviews)
  {
    var ids := LatestFirst(reviews, ForMerchant(bookings, merchantId));
    assert forall j :: 0 <= j < |ids| ==> ids[j] in ids;
    var average := if |ids| > 0 then Mean(TotalRating(reviews, ids), |ids|) else 0.0;
    MerchantReviews(ids, average, |ids|)
  }

  /** With every rating between 1 and 5, the total of n ratings lies between n and 5n. */
  lemma {:induction false} TotalRatingBounds(reviews: seq<Review>, ids: seq<nat>)
    requires forall j :: 0 <= j < |ids| ==> ids[j] < |reviews|
    requires forall k :: 0 <= k < |reviews| ==> 1 <= reviews[k].rating <= 5
    ensures |ids| <= TotalRating(reviews, ids) <= 5 * |ids|
  {
    if ids != [] {
      TotalRatingBounds(reviews, ids[..|ids| - 1]);
    }
  }

  lemma RealMulMonotone(x: real, y: real, c: real)
    requires x < y && c > 0.0
    ensures x * c < y * c
  {
  }

  /** A quotient of a total between c and 5c by c lies between 1 and 5. */
  lemma QuotientBounds(m: real, c: real, t: real)
    requires c > 0.0 && m * c == t && c <= t <= 5.0 * c
    ensures 1.0 <= m <= 5.0
  {
    if m < 1.0 {
      RealMulMonotone(m, 1.0, c);
      assert false;
    }
    if m > 5.0 {
      RealMulMonotone(5.0, m, c);
      assert false;
    }
  }

  /** The mean of totals between n and 5n lies between 1 and 5. */
  lemma MeanBounds(total: int, count: nat)
    requires count > 0 && count <= total <= 5 * count
    ensures 1.0 <= Mean(total, count) <= 5.0
  {
    QuotientBounds(Mean(total, count), count as real, total as real);
  }

  /** A merchant with reviews has an average rating between 1 and 5. */
  lemma AverageRatingInRange(bookings: seq<Booking>, reviews: seq<Review>, merchantId: nat)
    requires ReviewsOk(reviews, bookings)
    requires FindByMerchant(bookings, reviews, merchantId).totalReviews > 0
    ensures 1.0 <= FindByMerchant(bookings, reviews, merchantId).averageRating <= 5.0
  {
    var ids := FindByMerchant(bookings, reviews, merchantId).reviews;
    assert forall j :: 0 <= j < |ids| ==> ids[j] in ids;
    TotalRatingBounds(reviews, ids);
    MeanBounds(TotalRating(reviews, ids), |ids|);
  }
}
