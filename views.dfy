/**
 * Bookings as the browser receives them in JSON. A reference to a user is
 * sent as the bare id unless the server populated it, in which case it holds
 * the selected fields only; a reference to a user that no longer exists is
 * populated as `null`.
 */
module Views {
  import opened Js
  import opened Options
  import BookingModel
  import UserModel

  type Id = BookingModel.Id

  datatype Party =
    | Ref(id: Id)
    | Populated(id: Id, name: string, email: string, expertise: Field<seq<string>>)
    | Unresolved

  datatype BookingView = BookingView(
    id: Id,
    mentee: Party,
    mentor: Party,
    sessionDate: string,
    sessionTimeSlot: string,
    status: BookingModel.Status,
    userMessage: Option<string>,
    hasBeenReviewed: bool)

  /** A saved booking as `res.json(booking)` sends it: references stay ids. */
  function Plain(b: BookingModel.Booking): (v: BookingView)
    ensures v.id == b.id && v.status == b.status && v.mentee == Ref(b.mentee) && v.mentor == Ref(b.mentor)
  {
    BookingView(b.id, Ref(b.mentee), Ref(b.mentor), b.sessionDate, b.sessionTimeSlot, b.status,
                b.userMessage, b.hasBeenReviewed)
  }

  /** `populate(path, "name email")`: the referenced user's name and email, and nothing else of it. */
  function NameAndEmail(users: map<Id, UserModel.User>, id: Id): (p: Party)
    ensures p.Populated? <==> id in users
    ensures p.Populated? ==> p.expertise == Missing && p.name == users[id].name && p.email == users[id].email
  {
    if id in users then Populated(id, users[id].name, users[id].email, Missing) else Unresolved
  }

  /** A mentor as `getAllMentors` selects it: `_id name email expertise title bio avatar`. */
  datatype MentorSummary = MentorSummary(
    id: Id, name: string, email: string, expertise: seq<string>, title: string, bio: string, avatar: string)

  /** The JSON of a `getAllMentors` reply. */
  datatype MentorPage = MentorPage(mentors: seq<MentorSummary>, totalPages: int, currentPage: int, totalMentors: nat)

  /** A mentor as `getMentorById` selects it; the password hash and the links are never sent. */
  datatype MentorDetail = MentorDetail(
    id: Id, name: string, role: UserModel.Role, email: string, expertise: seq<string>,
    availability: seq<UserModel.DayAvailability>, title: string, bio: string, avatar: string)
}
