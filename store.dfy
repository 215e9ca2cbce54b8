/**
 * The document store behind the controllers, as in-memory collections keyed by
 * document id, and the consistency the schemas and controllers keep between them.
 */
module Store {
  import opened Options
  import Js
  import BookingModel
  import ReviewModel
  import UserModel

  type Id = BookingModel.Id

  /** A stored chat message; the fields hold whatever the client sent. */
  datatype Message = Message(booking: Js.Value, sender: Js.Value, receiver: Js.Value, text: Js.Value)

  /** Every user document is keyed by its own id, passes its schema, and no email is used twice. */
  predicate UsersWellFormed(users: map<Id, UserModel.User>) {
    && (forall id :: id in users ==> users[id].id == id && UserModel.Valid(users[id]))
    && (forall a, b :: a in users && b in users && a != b ==> users[a].email != users[b].email)
  }

  predicate BookingsWellFormed(bookings: map<Id, BookingModel.Booking>) {
    forall id :: id in bookings ==> bookings[id].id == id && BookingModel.Valid(bookings[id])
  }

  /**
   * Every review passes its schema and belongs to a booking that is flagged as
   * reviewed, copies that booking's mentor and mentee, and is the only review
   * of that booking.
   */
  predicate ReviewsWellFormed(bookings: map<Id, BookingModel.Booking>, reviews: map<Id, ReviewModel.Review>) {
    && (forall id :: id in reviews ==>
          && reviews[id].id == id
          && ReviewModel.Valid(reviews[id])
          && reviews[id].booking in bookings
          && bookings[reviews[id].booking].hasBeenReviewed
          && reviews[id].mentor == bookings[reviews[id].booking].mentor
          && reviews[id].mentee == bookings[reviews[id].booking].mentee)
    && (forall a, b :: a in reviews && b in reviews && a != b ==> reviews[a].booking != reviews[b].booking)
  }

  predicate WellFormed(users: map<Id, UserModel.User>, bookings: map<Id, BookingModel.Booking>,
                       reviews: map<Id, ReviewModel.Review>) {
    UsersWellFormed(users) && BookingsWellFormed(bookings) && ReviewsWellFormed(bookings, reviews)
  }

  /** The reviews that refer to a booking. */
  function ReviewsOf(reviews: map<Id, ReviewModel.Review>, bookingId: Id): set<Id> {
    set id | id in reviews && reviews[id].booking == bookingId
  }

  /** At most one review per booking, and none for a booking that is not flagged as reviewed. */
  lemma AtMostOneReview(bookings: map<Id, BookingModel.Booking>, reviews: map<Id, ReviewModel.Review>, bookingId: Id)
    requires ReviewsWellFormed(bookings, reviews)
    ensures |ReviewsOf(reviews, bookingId)| <= 1
    ensures bookingId in bookings && !bookings[bookingId].hasBeenReviewed ==> ReviewsOf(reviews, bookingId) == {}
  {
    var rs := ReviewsOf(reviews, bookingId);
    if rs != {} {
      var a :| a in rs;
      assert rs == {a};
    }
  }

  class Store {
    var users: map<Id, UserModel.User>
    var bookings: map<Id, BookingModel.Booking>
    var reviews: map<Id, ReviewModel.Review>
    var messages: seq<Message>

    ghost predicate Valid()
      reads this
    {
      WellFormed(users, bookings, reviews)
    }

    constructor (users: map<Id, UserModel.User>)
      requires UsersWellFormed(users)
      ensures Valid()
      ensures this.users == users && bookings == map[] && reviews == map[] && messages == []
    {
      this.users := users;
      bookings, reviews, messages := map[], map[], [];
    }
  }
}
