/**
 * The bookings page (client/app/dashboard/my-bookings/page.tsx): the fetched
 * bookings in three groups, the actions offered on each, and the status
 * requests those actions send.
 */
module MyBookings {
  import opened Js
  import opened Options
  import opened BookingModel
  import Views
  import ClientBookings
  import ToastContext
  import BookingController
  import Http

  type BookingView = Views.BookingView

  const FetchFailed := "Failed to fetch your bookings."
  const UpdateFailed := "Failed to update booking status."

  /** The controls a booking card carries. */
  datatype Action = Confirm | Reject | Chat | Complete | Summarize

  /**
   * The controls of a card, by the group the booking is in: Confirm and
   * Reject on pending requests for a mentor, Chat and Mark as Complete on
   * upcoming sessions, Summarize on completed past sessions.
   */
  function Actions(role: Option<string>, b: BookingView): seq<Action> {
    match b.status
    case Pending => if role == Some("mentor") then [Confirm, Reject] else []
    case Confirmed => [Chat, Complete]
    case Completed => [Summarize]
    case Rejected => []
  }

  /** The status an action asks `PUT /api/bookings/:id` for, if any. */
  function Requested(a: Action): Option<Status> {
    match a
    case Confirm => Some(Confirmed)
    case Reject => Some(Rejected)
    case Complete => Some(Completed)
    case _ => None
  }

  /** The page an action links to, if any. */
  function Link(a: Action, b: BookingView): Option<string> {
    match a
    case Chat => Some("/dashboard/chat/" + b.id)
    case Summarize => Some("/dashboard/summarize/" + b.id)
    case _ => None
  }

  /** Each control appears exactly in its group, and the mentor-only ones only for a mentor. */
  lemma ActionsByGroup(role: Option<string>, b: BookingView)
    ensures Confirm in Actions(role, b) <==> b.status == Pending && role == Some("mentor")
    ensures Reject in Actions(role, b) <==> b.status == Pending && role == Some("mentor")
    ensures Complete in Actions(role, b) <==> b.status == Confirmed
    ensures Chat in Actions(role, b) <==> b.status == Confirmed
    ensures Summarize in Actions(role, b) <==> b.status == Completed
  {
  }

  /**
   * A control either requests a status other than pending or is a link to a
   * page about the same booking; never both.
   */
  lemma ActionsRequestOrLink(role: Option<string>, b: BookingView, a: Action)
    requires a in Actions(role, b)
    ensures Requested(a).Some? != Link(a, b).Some?
    ensures Requested(a).Some? ==> Requested(a).value in {Confirmed, Rejected, Completed}
    ensures Link(a, b).Some? ==> Link(a, b).value == "/dashboard/chat/" + b.id || Link(a, b).value == "/dashboard/summarize/" + b.id
  {
  }

  /**
   * A request a participant sends from a card is always accepted by the
   * server, which checks only that the requester is the booking's mentee or
   * mentor: the booking gets the requested status and keeps everything else.
   */
  lemma ParticipantRequestAccepted(stored: map<Id, Booking>, userId: Id, role: Option<string>, b: BookingView, a: Action)
    requires b.id in stored && (userId == stored[b.id].mentee || userId == stored[b.id].mentor)
    requires a in Actions(role, b) && Requested(a).Some?
    ensures BookingController.UpdateReply(stored, userId, b.id, Given(StatusName(Requested(a).value)))
            == Http.Success(200, stored[b.id].(status := Requested(a).value))
  {
    BookingController.UpdateAnyTransition(stored, userId, b.id, Requested(a).value);
  }

  /** A mentee may mark an upcoming session complete; nothing on either side restricts it to the mentor. */
  lemma MenteeMayComplete(stored: map<Id, Booking>, b: BookingView)
    requires b.id in stored && b.status == Confirmed
    ensures Complete in Actions(Some("mentee"), b)
    ensures BookingController.UpdateReply(stored, stored[b.id].mentee, b.id, Given(StatusName(Completed))).Success?
  {
    BookingController.UpdateAnyTransition(stored, stored[b.id].mentee, b.id, Completed);
  }

  class MyBookingsPage {
    var bookings: seq<BookingView>
    var isLoading: bool
    var error: string
    /** The `(bookingId, status)` of every `PUT /api/bookings/:id` sent from here. */
    var requests: seq<(Id, Status)>
    const toasts: ToastContext.ToastProvider

    /** No request ever asks for `pending`. */
    ghost predicate Valid()
      reads this
    {
      forall i :: 0 <= i < |requests| ==> requests[i].1 in {Confirmed, Rejected, Completed}
    }

    constructor (toasts: ToastContext.ToastProvider)
      ensures Valid()
      ensures bookings == [] && isLoading && error == "" && requests == [] && this.toasts == toasts
    {
      bookings, isLoading, error, requests := [], true, "", [];
      this.toasts := toasts;
    }

    /** `fetchBookings`, with the reply of `GET /api/bookings` (`None` when it fails). */
    method FetchBookings(session: bool, response: Option<seq<BookingView>>)
      requires Valid()
      modifies this`bookings, this`isLoading, this`error, toasts
      ensures Valid()
      ensures !session ==> && bookings == old(bookings) && isLoading == old(isLoading) && error == old(error)
                           && toasts.toast == old(toasts.toast)
      ensures session ==> !isLoading
      ensures session && response.Some? ==> bookings == response.value && error == old(error)
                                            && toasts.toast == old(toasts.toast)
      ensures session && response.None? ==>
                && bookings == old(bookings) && error == FetchFailed
                && toasts.toast == Some(ToastContext.Toast(FetchFailed, ToastContext.Error))
    {
      if session {
        if response.Some? {
          bookings := response.value;
        } else {
          error := FetchFailed;
          toasts.ShowToast(FetchFailed, ToastContext.Error);
        }
        isLoading := false;
      }
    }

    /**
     * `handleUpdateStatus`: nothing without a session; otherwise the request
     * is sent, and on success a toast and a fresh fetch (`refetched` is its reply).
     */
    method HandleUpdateStatus(session: bool, bookingId: Id, newStatus: Status, accepted: bool,
                              refetched: Option<seq<BookingView>>)
      requires Valid() && newStatus in {Confirmed, Rejected, Completed}
      modifies this`bookings, this`isLoading, this`error, this`requests, toasts
      ensures Valid()
      ensures !session ==> && bookings == old(bookings) && requests == old(requests) && error == old(error)
                           && isLoading == old(isLoading) && toasts.toast == old(toasts.toast)
      ensures session ==> requests == old(requests) + [(bookingId, newStatus)]
      ensures session && !accepted ==>
                && bookings == old(bookings) && error == old(error) && isLoading == old(isLoading)
                && toasts.toast == Some(ToastContext.Toast(UpdateFailed, ToastContext.Error))
      ensures session && accepted ==>
                && !isLoading
                && bookings == (if refetched.Some? then refetched.value else old(bookings))
                && error == (if refetched.Some? then old(error) else FetchFailed)
                && toasts.toast == Some(if refetched.Some?
                                        then ToastContext.Toast("Booking status updated to " + StatusName(newStatus) + "!", ToastContext.Success)
                                        else ToastContext.Toast(FetchFailed, ToastContext.Error))
    {
      if !session {
        return;
      }
      requests := requests + [(bookingId, newStatus)];
      if accepted {
        toasts.ShowToast("Booking status updated to " + StatusName(newStatus) + "!", ToastContext.Success);
        FetchBookings(session, refetched);
      } else {
        toasts.ShowToast(UpdateFailed, ToastContext.Error);
      }
    }
  }
}
