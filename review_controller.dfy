/**
 * The review routes (server/controllers/reviewController.js): the mentee of a
 * completed booking rates its mentor once, and anyone can list a mentor's reviews.
 */
module ReviewController {
  import opened Js
  import opened Options
  import opened Http
  import opened BookingModel
  import ReviewModel
  import Store

  /** The JSON body of `POST /api/reviews`. */
  datatype ReviewBody = ReviewBody(rating: Field<Number>, comment: Field<string>, bookingId: Field<Id>)

  const BookingNotFound := "Booking not found"
  const NotTheMentee := "User not authorized to review this booking"
  const NotCompleted := "Booking is not completed yet"
  const AlreadyReviewed := "Booking has already been reviewed"
  const InvalidRating := "Review validation failed"

  /** The rating the schema accepts: a given integer from 1 to 5. */
  function RatingOf(rating: Field<Number>): (r: Option<int>)
    ensures r.Some? ==> ReviewModel.MinRating <= r.value <= ReviewModel.MaxRating && rating == Given(Int(r.value))
    ensures r.Some? <==> rating.Given? && rating.value.Int?
                         && ReviewModel.MinRating <= rating.value.i <= ReviewModel.MaxRating
  {
    if rating.Given? && rating.value.Int? && ReviewModel.MinRating <= rating.value.i <= ReviewModel.MaxRating
    then Some(rating.value.i) else None
  }

  /**
   * The reply of `createReview`. The guards run in order: unknown booking 404,
   * requester not its mentee 401, not completed 400, already reviewed 400;
   * then `Review.create` throws on a rating outside the schema (500).
   */
  function ReviewReply(bookings: map<Id, Booking>, menteeId: Id, body: ReviewBody, newId: Id): Reply<ReviewModel.Review> {
    if !body.bookingId.Given? || body.bookingId.value !in bookings then Failure(404, BookingNotFound)
    else
      var b := bookings[body.bookingId.value];
      if b.mentee != menteeId then Failure(401, NotTheMentee)
      else if b.status != Completed then Failure(400, NotCompleted)
      else if b.hasBeenReviewed then Failure(400, AlreadyReviewed)
      else
        match RatingOf(body.rating)
        case None => Failure(500, InvalidRating)
        case Some(k) =>
          Success(201, ReviewModel.Review(newId, body.bookingId.value, b.mentor, menteeId, k,
                                          if body.comment.Given? then Some(body.comment.value) else None))
  }

  /** The booking a request is about, when it exists. */
  predicate Found(bookings: map<Id, Booking>, body: ReviewBody) {
    body.bookingId.Given? && body.bookingId.value in bookings
  }

  /** Each reply is decided by the first guard that fails, in the source's order. */
  lemma ReviewGuardOrder(bookings: map<Id, Booking>, menteeId: Id, body: ReviewBody, newId: Id)
    ensures var r := ReviewReply(bookings, menteeId, body, newId);
      var b := if Found(bookings, body) then Some(bookings[body.bookingId.value]) else None;
      && (r == Failure(404, BookingNotFound) <==> b.None?)
      && (r == Failure(401, NotTheMentee) <==> b.Some? && b.value.mentee != menteeId)
      && (r == Failure(400, NotCompleted) <==> b.Some? && b.value.mentee == menteeId && b.value.status != Completed)
      && (r == Failure(400, AlreadyReviewed) <==>
            b.Some? && b.value.mentee == menteeId && b.value.status == Completed && b.value.hasBeenReviewed)
      && (r == Failure(500, InvalidRating) <==>
            b.Some? && b.value.mentee == menteeId && b.value.status == Completed && !b.value.hasBeenReviewed
            && RatingOf(body.rating).None?)
      && (r.Success? <==> r.code == 201)
  {
  }

  /** The booking's mentor cannot review it, whatever its state. */
  lemma MentorCannotReview(bookings: map<Id, Booking>, body: ReviewBody, newId: Id)
    requires Found(bookings, body)
    requires bookings[body.bookingId.value].mentor != bookings[body.bookingId.value].mentee
    ensures ReviewReply(bookings, bookings[body.bookingId.value].mentor, body, newId) == Failure(401, NotTheMentee)
  {
  }

  /**
   * A created review refers to the booking, copies its mentor, names the
   * requester as mentee, and carries the requested rating, which is in range.
   */
  lemma ReviewCopiesParties(bookings: map<Id, Booking>, menteeId: Id, body: ReviewBody, newId: Id)
    ensures var r := ReviewReply(bookings, menteeId, body, newId);
      r.Success? ==> && Found(bookings, body)
                     && var b := bookings[body.bookingId.value];
                     && r.value.id == newId && r.value.booking == body.bookingId.value
                     && r.value.mentor == b.mentor && r.value.mentee == menteeId == b.mentee
                     && body.rating == Given(Int(r.value.rating)) && ReviewModel.Valid(r.value)
                     && b.status == Completed && !b.hasBeenReviewed
  {
    if ReviewReply(bookings, menteeId, body, newId).Success? {
      var k := RatingOf(body.rating).value;
      assert body.rating.value == Int(k);
    }
  }

  /** The stores after a successful review: the review added, its booking flagged. */
  function AfterReview(bookings: map<Id, Booking>, reviews: map<Id, ReviewModel.Review>, review: ReviewModel.Review)
    : (map<Id, Booking>, map<Id, ReviewModel.Review>)
    requires review.booking in bookings
  {
    (bookings[review.booking := bookings[review.booking].(hasBeenReviewed := true)], reviews[review.id := review])
  }

  /**
   * A successful review keeps the stores consistent, so the booking has exactly
   * one review, and any later request to review it again is refused.
   */
  lemma {:induction false} ReviewOnce(bookings: map<Id, Booking>, reviews: map<Id, ReviewModel.Review>,
                                      menteeId: Id, body: ReviewBody, newId: Id, again: ReviewBody, other: Id, newId2: Id)
    requires Store.BookingsWellFormed(bookings) && Store.ReviewsWellFormed(bookings, reviews)
    requires newId !in reviews
    requires ReviewReply(bookings, menteeId, body, newId).Success?
    requires again.bookingId == body.bookingId
    ensures var (b2, r2) := AfterReview(bookings, reviews, ReviewReply(bookings, menteeId, body, newId).value);
      && Store.BookingsWellFormed(b2) && Store.ReviewsWellFormed(b2, r2)
      && Store.ReviewsOf(r2, body.bookingId.value) == {newId}
      && ReviewReply(b2, other, again, newId2).Failure?
      && (other == menteeId ==> ReviewReply(b2, other, again, newId2) == Failure(400, AlreadyReviewed))
  {
    var review := ReviewReply(bookings, menteeId, body, newId).value;
    var bid := body.bookingId.value;
    var (b2, r2) := AfterReview(bookings, reviews, review);
    forall id | id in reviews ensures reviews[id].booking != bid {
      assert bookings[reviews[id].booking].hasBeenReviewed;
    }
    assert Store.ReviewsWellFormed(b2, r2);
    assert Store.ReviewsOf(r2, bid) == {newId};
  }

  /** `createReview`, for the requesting user's id; `newId` is the id the database assigns. */
  method CreateReview(db: Store.Store, menteeId: Id, body: ReviewBody, newId: Id) returns (reply: Reply<ReviewModel.Review>)
    requires db.Valid() && newId !in db.reviews
    modifies db`bookings, db`reviews
    ensures db.Valid()
    ensures reply == ReviewReply(old(db.bookings), menteeId, body, newId)
    ensures reply.Success? ==> (db.bookings, db.reviews) == AfterReview(old(db.bookings), old(db.reviews), reply.value)
    ensures reply.Failure? ==> db.bookings == old(db.bookings) && db.reviews == old(db.reviews)
  {
    if !body.bookingId.Given? || body.bookingId.value !in db.bookings {
      return Failure(404, BookingNotFound);
    }
    var booking := db.bookings[body.bookingId.value];
    if booking.mentee != menteeId {
      return Failure(401, NotTheMentee);
    }
    if booking.status != Completed {
      return Failure(400, NotCompleted);
    }
    if booking.hasBeenReviewed {
      return Failure(400, AlreadyReviewed);
    }
    var rating := RatingOf(body.rating);
    if rating.None? {
      return Failure(500, InvalidRating);
    }
    var review := ReviewModel.Review(newId, body.bookingId.value, booking.mentor, menteeId, rating.value,
                                     if body.comment.Given? then Some(body.comment.value) else None);
    ReviewOnce(db.bookings, db.reviews, menteeId, body, newId, body, menteeId, newId);
    db.reviews := db.reviews[newId := review];
    booking := booking.(hasBeenReviewed := true);
    db.bookings := db.bookings[body.bookingId.value := booking];
    reply := Success(201, review);
  }

  /** `Review.find({mentor: mentorId})`. */
  function ReviewsForMentor(reviews: map<Id, ReviewModel.Review>, mentorId: Id): set<Id> {
    set id | id in reviews && reviews[id].mentor == mentorId
  }

  /**
   * In a consistent store, a mentor's reviews are ratings from 1 to 5 of
   * bookings with that mentor, one per booking, each by the booking's mentee.
   */
  lemma MentorReviewsAreOwnBookings(bookings: map<Id, Booking>, reviews: map<Id, ReviewModel.Review>, mentorId: Id)
    requires Store.ReviewsWellFormed(bookings, reviews)
    ensures forall id :: id in ReviewsForMentor(reviews, mentorId) <==> id in reviews && reviews[id].mentor == mentorId
    ensures forall id :: id in ReviewsForMentor(reviews, mentorId) ==>
              && reviews[id].booking in bookings && bookings[reviews[id].booking].mentor == mentorId
              && bookings[reviews[id].booking].mentee == reviews[id].mentee
              && ReviewModel.MinRating <= reviews[id].rating <= ReviewModel.MaxRating
    ensures forall a, b :: a in ReviewsForMentor(reviews, mentorId) && b in ReviewsForMentor(reviews, mentorId) && a != b
              ==> reviews[a].booking != reviews[b].booking
  {
  }
}
