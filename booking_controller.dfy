/**
 * The booking routes (server/controllers/bookingController.js): a mentee
 * requests a session with a mentor, either participant lists their bookings,
 * and either participant sets a booking's status.
 */
module BookingController {
  import opened Js
  import opened Options
  import opened Http
  import opened BookingModel
  import UserModel
  import Store
  import Relay
  import Views

  /** The JSON body of `POST /api/bookings`. */
  datatype BookingBody = BookingBody(
    mentorId: Field<Id>,
    sessionDate: Field<string>,
    sessionTimeSlot: Field<string>,
    userMessage: Field<string>)

  const CreateFailed := "Server error while creating booking."
  const NotFound := "Booking not found"
  const NotAuthorized := "User not authorized to update this booking"
  const ServerError := "Server Error"

  /**
   * `new Booking({...}).save()`: the schema rejects an absent, null or empty
   * `mentorId`, `sessionDate` or `sessionTimeSlot`; `userMessage` is kept
   * when it is given.
   */
  function BuildBooking(menteeId: Id, body: BookingBody, newId: Id): Option<Booking> {
    if StringTruthy(body.mentorId) && StringTruthy(body.sessionDate) && StringTruthy(body.sessionTimeSlot) then
      Some(NewBooking(newId, menteeId, body.mentorId.value, body.sessionDate.value, body.sessionTimeSlot.value,
                      if body.userMessage.Given? then Some(body.userMessage.value) else None))
    else None
  }

  /** The reply of `createBooking`: 201 with the saved booking, or 500 when the save throws. */
  function CreateReply(menteeId: Id, body: BookingBody, newId: Id): Reply<Booking> {
    match BuildBooking(menteeId, body, newId)
    case Some(b) => Success(201, b)
    case None => Failure(500, CreateFailed)
  }

  /** The `newBookingRequest` emit: only after a save, and only to a mentor found in `onlineUsers`. */
  function BookingNotice(online: seq<Relay.OnlineUser>, requesterName: string, reply: Reply<Booking>): seq<Relay.Event> {
    if reply.Failure? then []
    else
      match Relay.Find(online, Str(reply.value.mentor))
      case None => []
      case Some(u) => [Relay.NewBookingRequest(u.socketId, "You have a new session request from " + requesterName, reply.value)]
  }

  /**
   * A booking is created exactly when the three required fields are truthy;
   * it then has the requester as mentee and the body's `mentorId` as mentor,
   * the body's date, slot and message, and starts pending and unreviewed.
   */
  lemma CreateFixesParties(requester: UserModel.User, body: BookingBody, newId: Id)
    ensures var r := CreateReply(requester.id, body, newId);
      && (r.Success? <==> StringTruthy(body.mentorId) && StringTruthy(body.sessionDate) && StringTruthy(body.sessionTimeSlot))
      && (r.Failure? ==> r.code == 500 && r.message == CreateFailed)
      && (r.Success? ==>
            && r.code == 201 && r.value.id == newId
            && r.value.mentee == requester.id && r.value.mentor == body.mentorId.value
            && r.value.sessionDate == body.sessionDate.value && r.value.sessionTimeSlot == body.sessionTimeSlot.value
            && (r.value.userMessage.Some? <==> body.userMessage.Given?)
            && r.value.status == Pending && !r.value.hasBeenReviewed && Valid(r.value))
  {
  }

  /**
   * The mentor is notified exactly when the booking was saved and the mentor
   * is registered, on the socket `getUser` finds; the reply does not depend on it.
   */
  lemma NoticeOnlyToOnlineMentor(online: seq<Relay.OnlineUser>, name: string, reply: Reply<Booking>)
    ensures var e := BookingNotice(online, name, reply);
      && (e != [] <==> reply.Success? && Relay.Registered(online, Str(reply.value.mentor)))
      && |e| <= 1
      && (e != [] ==> e[0].NewBookingRequest? && e[0].request == reply.value
                      && e[0].toSocket == Relay.Find(online, Str(reply.value.mentor)).value.socketId)
  {
  }

  /** `createBooking`, for the user the auth middleware loaded; `newId` is the id the database assigns. */
  method CreateBooking(db: Store.Store, relay: Relay.Relay, requester: UserModel.User, body: BookingBody, newId: Id)
    returns (reply: Reply<Booking>)
    requires db.Valid() && newId !in db.bookings
    modifies db`bookings, relay`events
    ensures db.Valid()
    ensures reply == CreateReply(requester.id, body, newId)
    ensures db.bookings == if reply.Success? then old(db.bookings)[newId := reply.value] else old(db.bookings)
    ensures relay.events == old(relay.events) + BookingNotice(relay.onlineUsers, requester.name, reply)
  {
    var built := BuildBooking(requester.id, body, newId);
    if built.None? {
      return Failure(500, CreateFailed);
    }
    var created := built.value;
    db.bookings := db.bookings[newId := created];
    var mentorSocket := relay.GetUser(Str(body.mentorId.value));
    if mentorSocket.Some? {
      relay.events := relay.events + [Relay.NewBookingRequest(mentorSocket.value.socketId,
                                        "You have a new session request from " + requester.name, created)];
    }
    reply := Success(201, created);
  }

  // ---------------------------------------------------------- getMyBookings

  /** `Booking.find({$or: [{mentee: userId}, {mentor: userId}]})`. */
  function MyBookingIds(bookings: map<Id, Booking>, userId: Id): set<Id> {
    set id | id in bookings && (bookings[id].mentee == userId || bookings[id].mentor == userId)
  }

  /** A matched booking with both references populated with `"name email"`. */
  function PopulatedView(users: map<Id, UserModel.User>, b: Booking): Views.BookingView {
    Views.Plain(b).(mentee := Views.NameAndEmail(users, b.mentee), mentor := Views.NameAndEmail(users, b.mentor))
  }

  /** The documents `getMyBookings` sends, in no particular order. */
  function GetMyBookings(users: map<Id, UserModel.User>, bookings: map<Id, Booking>, userId: Id): set<Views.BookingView> {
    set id | id in MyBookingIds(bookings, userId) :: PopulatedView(users, bookings[id])
  }

  /**
   * Every document sent is one of the user's bookings, with the stored status
   * and an expertise-free view of the mentor, and every one of the user's bookings is sent.
   */
  lemma MyBookingsExactly(users: map<Id, UserModel.User>, bookings: map<Id, Booking>, userId: Id)
    requires Store.BookingsWellFormed(bookings)
    ensures forall v :: v in GetMyBookings(users, bookings, userId) ==>
              && v.id in bookings && v.status == bookings[v.id].status
              && (bookings[v.id].mentee == userId || bookings[v.id].mentor == userId)
              && !(v.mentor.Populated? && v.mentor.expertise.Given?)
    ensures forall id :: id in bookings && (bookings[id].mentee == userId || bookings[id].mentor == userId) ==>
              PopulatedView(users, bookings[id]) in GetMyBookings(users, bookings, userId)
  {
  }

  /** The bookings a user is sent are exactly those the user passes the permission check on. */
  lemma MyBookingsAreUpdatable(bookings: map<Id, Booking>, userId: Id, bookingId: Id, status: Field<string>)
    ensures bookingId in MyBookingIds(bookings, userId) <==>
              UpdateReply(bookings, userId, bookingId, status).code !in {404, 401}
  {
  }

  // ---------------------------------------------------- updateBookingStatus

  /** The enum and `required` checks `save()` runs on the assigned status. */
  function StatusOf(status: Field<string>): Option<Status> {
    if status.Given? then ParseStatus(status.value) else None
  }

  /**
   * The reply of `updateBookingStatus`: 404 for an unknown booking, 401 for a
   * user who is neither its mentee nor its mentor, 500 when the new status
   * fails validation, and otherwise the booking with only its status replaced.
   */
  function UpdateReply(bookings: map<Id, Booking>, userId: Id, bookingId: Id, status: Field<string>): Reply<Booking> {
    if bookingId !in bookings then Failure(404, NotFound)
    else
      var b := bookings[bookingId];
      if userId != b.mentee && userId != b.mentor then Failure(401, NotAuthorized)
      else
        match StatusOf(status)
        case None => Failure(500, ServerError)
        case Some(s) => Success(200, b.(status := s))
  }

  /** The guards in order; the first that fails decides the reply. */
  lemma UpdateGuards(bookings: map<Id, Booking>, userId: Id, bookingId: Id, status: Field<string>)
    ensures var r := UpdateReply(bookings, userId, bookingId, status);
      && (r.code == 404 <==> bookingId !in bookings)
      && (r.code == 401 <==> bookingId in bookings && userId != bookings[bookingId].mentee
                             && userId != bookings[bookingId].mentor)
      && (r.code == 500 <==> bookingId in bookings
                             && (userId == bookings[bookingId].mentee || userId == bookings[bookingId].mentor)
                             && StatusOf(status).None?)
      && (r.Success? <==> r.code == 200)
  {
  }

  /** There is no transition check: either participant may move any booking to any status. */
  lemma UpdateAnyTransition(bookings: map<Id, Booking>, userId: Id, bookingId: Id, target: Status)
    requires bookingId in bookings
    requires userId == bookings[bookingId].mentee || userId == bookings[bookingId].mentor
    ensures UpdateReply(bookings, userId, bookingId, Given(StatusName(target)))
            == Success(200, bookings[bookingId].(status := target))
  {
    ParseStatusName(target, StatusName(target));
  }

  /** A successful update changes the status and nothing else, and passes the schema again. */
  lemma UpdateOnlyStatus(bookings: map<Id, Booking>, userId: Id, bookingId: Id, status: Field<string>)
    requires Store.BookingsWellFormed(bookings)
    ensures var r := UpdateReply(bookings, userId, bookingId, status);
      r.Success? ==> && bookingId in bookings && r.value == bookings[bookingId].(status := r.value.status)
                     && StatusName(r.value.status) == status.value
                     && Store.BookingsWellFormed(bookings[bookingId := r.value])
  {
  }

  /** `updateBookingStatus`, for the requesting user's id. */
  method UpdateBookingStatus(db: Store.Store, userId: Id, bookingId: Id, status: Field<string>)
    returns (reply: Reply<Booking>)
    requires db.Valid()
    modifies db`bookings
    ensures db.Valid()
    ensures reply == UpdateReply(old(db.bookings), userId, bookingId, status)
    ensures db.bookings == if reply.Success? then old(db.bookings)[bookingId := reply.value] else old(db.bookings)
  {
    if bookingId !in db.bookings {
      return Failure(404, NotFound);
    }
    var booking := db.bookings[bookingId];
    if userId != booking.mentee && userId != booking.mentor {
      return Failure(401, NotAuthorized);
    }
    var s := StatusOf(status);
    if s.None? {
      return Failure(500, ServerError);
    }
    booking := booking.(status := s.value);
    db.bookings := db.bookings[bookingId := booking];
    reply := Success(200, booking);
  }
}
