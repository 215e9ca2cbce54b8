/** The review schema: one rating from 1 to 5 by the mentee of a booking, about its mentor. */
module ReviewModel {
  import opened Options
  import BookingModel

  type Id = BookingModel.Id

  const MinRating: int := 1
  const MaxRating: int := 5

  datatype Review = Review(
    id: Id,
    booking: Id,
    mentor: Id,
    mentee: Id,
    rating: int,
    comment: Option<string>)

  /** The schema's range check on `rating`. */
  predicate Valid(r: Review) {
    MinRating <= r.rating <= MaxRating
  }
}
