/**
 * The booking schema: who the mentee and the mentor are, when the session is,
 * its lifecycle status, and the one-shot flag set once the mentee has
 * reviewed it.
 */
module BookingModel {
  import opened Options

  /** A document id (an ObjectId in its string form). */
  type Id = string

  /** The four states of a booking; nothing in the schema orders them. */
  datatype Status = Pending | Confirmed | Rejected | Completed

  /** The name the schema's `enum` lists for each status. */
  function StatusName(s: Status): string {
    match s
    case Pending => "pending"
    case Confirmed => "confirmed"
    case Rejected => "rejected"
    case Completed => "completed"
  }

  /** The enum check: a string is a status exactly when it is one of the four names. */
  function ParseStatus(s: string): (r: Option<Status>)
    ensures r.Some? ==> StatusName(r.value) == s
  {
    if s == "pending" then Some(Pending)
    else if s == "confirmed" then Some(Confirmed)
    else if s == "rejected" then Some(Rejected)
    else if s == "completed" then Some(Completed)
    else None
  }

  /** Every status passes the enum check under its own name, and only under it. */
  lemma ParseStatusName(st: Status, s: string)
    ensures ParseStatus(StatusName(st)) == Some(st)
    ensures ParseStatus(s) == Some(st) <==> s == StatusName(st)
  {
  }

  datatype Booking = Booking(
    id: Id,
    mentee: Id,
    mentor: Id,
    sessionDate: string,
    sessionTimeSlot: string,
    status: Status,
    userMessage: Option<string>,
    hasBeenReviewed: bool)

  /**
   * The schema's `required` checks a stored booking passes: `mentee`, `mentor`
   * and `sessionDate` are there by construction, and a required string must
   * not be empty.
   */
  predicate Valid(b: Booking) {
    b.sessionTimeSlot != "" && b.sessionDate != ""
  }

  /** A new document: the given fields, with the defaults `pending` and not reviewed. */
  function NewBooking(id: Id, mentee: Id, mentor: Id, sessionDate: string, sessionTimeSlot: string,
                      userMessage: Option<string>): (b: Booking)
    requires sessionDate != "" && sessionTimeSlot != ""
    ensures Valid(b)
    ensures b.status == Pending && !b.hasBeenReviewed
    ensures b.id == id && b.mentee == mentee && b.mentor == mentor && b.userMessage == userMessage
    ensures b.sessionDate == sessionDate && b.sessionTimeSlot == sessionTimeSlot
  {
    Booking(id, mentee, mentor, sessionDate, sessionTimeSlot, Pending, userMessage, false)
  }
}
