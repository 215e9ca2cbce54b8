/**
 * The mentor's overview (client/components/dashboard/MentorDashboard.tsx):
 * pending requests and upcoming sessions of the fetched bookings, a quick
 * view of the first requests, and confirming or rejecting a request in place.
 */
module MentorDashboard {
  import opened Options
  import opened BookingModel
  import Seqs
  import Views
  import ClientBookings
  import ToastContext
  import opened Js
  import BookingController
  import Store

  type BookingView = Views.BookingView

  const LoadFailed := "Failed to load dashboard data."

  function PendingRequests(bs: seq<BookingView>): seq<BookingView> {
    ClientBookings.WithStatus(bs, {Pending})
  }

  function UpcomingSessions(bs: seq<BookingView>): seq<BookingView> {
    ClientBookings.WithStatus(bs, {Confirmed})
  }

  /** The quick view: `pendingRequests.slice(0, 3)`. */
  function QuickView(bs: seq<BookingView>): seq<BookingView> {
    Seqs.Take(PendingRequests(bs), 3)
  }

  /** The quick view lists the first three pending requests, in order, or all of them when there are fewer. */
  lemma QuickViewFirstPending(bs: seq<BookingView>)
    ensures var q := QuickView(bs);
      && |q| == (if |PendingRequests(bs)| < 3 then |PendingRequests(bs)| else 3)
      && q == PendingRequests(bs)[..|q|]
      && forall i :: 0 <= i < |q| ==> q[i].status == Pending && q[i] in bs
  {
  }

  /** `bookings.map((b) => (b._id === bookingId ? updatedBooking : b))`. */
  function ReplaceById(bs: seq<BookingView>, bookingId: string, updated: BookingView): seq<BookingView> {
    seq(|bs|, i requires 0 <= i < |bs| => if bs[i].id == bookingId then updated else bs[i])
  }

  /**
   * The replacement keeps the list's length and order: every entry with the
   * id becomes the server's copy, and every other entry is untouched.
   */
  lemma ReplaceInPlace(bs: seq<BookingView>, bookingId: string, updated: BookingView)
    ensures |ReplaceById(bs, bookingId, updated)| == |bs|
    ensures forall i :: 0 <= i < |bs| ==>
              ReplaceById(bs, bookingId, updated)[i] == if bs[i].id == bookingId then updated else bs[i]
    ensures (forall i :: 0 <= i < |bs| ==> bs[i].id != bookingId) ==> ReplaceById(bs, bookingId, updated) == bs
  {
  }

  /** Replacing twice with the same copy is replacing once. */
  lemma ReplaceIdempotent(bs: seq<BookingView>, updated: BookingView)
    ensures ReplaceById(ReplaceById(bs, updated.id, updated), updated.id, updated) == ReplaceById(bs, updated.id, updated)
  {
  }

  /**
   * A request that was confirmed or rejected leaves the pending list, and
   * every other pending request stays there.
   */
  lemma AnsweredLeavesPending(bs: seq<BookingView>, bookingId: string, updated: BookingView)
    requires updated.id == bookingId && updated.status != Pending
    ensures forall b :: b in PendingRequests(ReplaceById(bs, bookingId, updated)) ==> b.id != bookingId
    ensures forall b :: b in PendingRequests(bs) && b.id != bookingId ==> b in PendingRequests(ReplaceById(bs, bookingId, updated))
  {
    var r := ReplaceById(bs, bookingId, updated);
    forall b | b in PendingRequests(bs) && b.id != bookingId
      ensures b in PendingRequests(r)
    {
      var i :| 0 <= i < |bs| && bs[i] == b;
      assert r[i] == b;
    }
    forall b | b in PendingRequests(r) ensures b.id != bookingId {
      var i :| 0 <= i < |r| && r[i] == b;
    }
  }

  /**
   * With the copy `updateBookingStatus` sends back for a confirmation or
   * rejection, the booking leaves the pending list and shows the new status.
   */
  lemma ServerCopyAnswers(stored: map<Id, Booking>, userId: Id, bs: seq<BookingView>, bookingId: Id, newStatus: Status)
    requires Store.BookingsWellFormed(stored) && newStatus in {Confirmed, Rejected}
    requires BookingController.UpdateReply(stored, userId, bookingId, Given(StatusName(newStatus))).Success?
    ensures var copy := Views.Plain(BookingController.UpdateReply(stored, userId, bookingId, Given(StatusName(newStatus))).value);
      && copy.id == bookingId && copy.status == newStatus
      && forall b :: b in PendingRequests(ReplaceById(bs, bookingId, copy)) ==> b.id != bookingId
  {
    var r := BookingController.UpdateReply(stored, userId, bookingId, Given(StatusName(newStatus)));
    ParseStatusName(newStatus, StatusName(newStatus));
    assert r.value.status == newStatus;
    AnsweredLeavesPending(bs, bookingId, Views.Plain(r.value));
  }

  class MentorDashboard {
    var bookings: seq<BookingView>
    var isLoading: bool
    /** The `(bookingId, status)` of every `PUT /api/bookings/:id` sent from here. */
    var requests: seq<(string, Status)>
    const toasts: ToastContext.ToastProvider

    /** Only confirmations and rejections are ever requested from this view. */
    ghost predicate Valid()
      reads this
    {
      forall i :: 0 <= i < |requests| ==> requests[i].1 in {Confirmed, Rejected}
    }

    constructor (toasts: ToastContext.ToastProvider)
      ensures Valid()
      ensures bookings == [] && isLoading && requests == [] && this.toasts == toasts
    {
      bookings, isLoading, requests := [], true, [];
      this.toasts := toasts;
    }

    /** `fetchBookings`, with the reply of `GET /api/bookings` (`None` when it fails). */
    method FetchBookings(session: bool, response: Option<seq<BookingView>>)
      requires Valid()
      modifies this`bookings, this`isLoading, toasts
      ensures Valid()
      ensures !session ==> bookings == old(bookings) && isLoading == old(isLoading) && toasts.toast == old(toasts.toast)
      ensures session ==> !isLoading
      ensures session && response.Some? ==> bookings == response.value && toasts.toast == old(toasts.toast)
      ensures session && response.None? ==>
                bookings == old(bookings) && toasts.toast == Some(ToastContext.Toast(LoadFailed, ToastContext.Error))
    {
      if session {
        if response.Some? {
          bookings := response.value;
        } else {
          toasts.ShowToast(LoadFailed, ToastContext.Error);
        }
        isLoading := false;
      }
    }

    /**
     * `handleUpdateStatus`, with the server's copy of the booking (`None` when
     * the request fails): on success the copy replaces the booking in the list.
     */
    method HandleUpdateStatus(bookingId: string, newStatus: Status, response: Option<BookingView>)
      requires Valid() && newStatus in {Confirmed, Rejected}
      modifies this`bookings, this`requests, toasts
      ensures Valid()
      ensures requests == old(requests) + [(bookingId, newStatus)]
      ensures response.Some? ==>
                && bookings == ReplaceById(old(bookings), bookingId, response.value)
                && toasts.toast == Some(ToastContext.Toast("Booking " + StatusName(newStatus) + " successfully!", ToastContext.Success))
      ensures response.None? ==>
                && bookings == old(bookings)
                && toasts.toast == Some(ToastContext.Toast("Failed to " + StatusName(newStatus) + " the booking.", ToastContext.Error))
    {
      requests := requests + [(bookingId, newStatus)];
      if response.Some? {
        bookings := ReplaceById(bookings, bookingId, response.value);
        toasts.ShowToast("Booking " + StatusName(newStatus) + " successfully!", ToastContext.Success);
      } else {
        toasts.ShowToast("Failed to " + StatusName(newStatus) + " the booking.", ToastContext.Error);
      }
    }
  }
}
