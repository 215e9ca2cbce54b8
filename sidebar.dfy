/**
 * The dashboard sidebar (client/components/Sidebar.tsx): the navigation for
 * the signed-in role, and the badge that flags bookings with unread chat messages.
 */
module Sidebar {
  import opened Js
  import opened Options
  import Seqs
  import ToastContext

  datatype NavLink = NavLink(href: string, caption: string)

  const MyBookingsHref := "/dashboard/my-bookings"

  const MentorLinks: seq<NavLink> := [
    NavLink("/dashboard", "Overview"),
    NavLink(MyBookingsHref, "Bookings"),
    NavLink("/dashboard/profile", "My Profile")]

  const MenteeLinks: seq<NavLink> := [
    NavLink("/dashboard", "Home"),
    NavLink("/dashboard/find-mentor", "Find a Mentor"),
    NavLink(MyBookingsHref, "My Bookings"),
    NavLink("/dashboard/profile", "My Profile")]

  /** `session?.user?.role === "mentor" ? mentorLinks : menteeLinks`. */
  function Links(role: Option<string>): seq<NavLink> {
    if role == Some("mentor") then MentorLinks else MenteeLinks
  }

  /** Only mentees get the link to the mentor search; both roles get exactly one link to their bookings. */
  lemma LinksByRole(role: Option<string>)
    ensures (exists i :: 0 <= i < |Links(role)| && Links(role)[i].href == "/dashboard/find-mentor") <==> role != Some("mentor")
    ensures exists i :: 0 <= i < |Links(role)| && Links(role)[i].href == MyBookingsHref
    ensures forall i, j :: 0 <= i < j < |Links(role)| ==> Links(role)[i].href != Links(role)[j].href
  {
    if role == Some("mentor") {
      assert Links(role)[1].href == MyBookingsHref;
    } else {
      assert Links(role)[1].href == "/dashboard/find-mentor";
      assert Links(role)[2].href == MyBookingsHref;
    }
  }

  /** `[...new Set([...prev, bookingId])]`. */
  function Recorded(prev: seq<string>, bookingId: string): seq<string> {
    Seqs.Dedup(prev + [bookingId])
  }

  /** On a duplicate-free list, recording appends a new id and ignores a known one. */
  lemma RecordedAppendsOnce(prev: seq<string>, bookingId: string)
    requires Seqs.Distinct(prev)
    ensures Recorded(prev, bookingId) == if bookingId in prev then prev else prev + [bookingId]
    ensures Seqs.Distinct(Recorded(prev, bookingId))
  {
    Seqs.DedupSnoc(prev, bookingId);
    Seqs.DedupOfDistinct(prev);
  }

  class Sidebar {
    var pathname: string
    var role: Option<string>
    var newMessageBookings: seq<string>
    const toasts: ToastContext.ToastProvider

    /** The unread list names each booking at most once. */
    ghost predicate Valid()
      reads this
    {
      Seqs.Distinct(newMessageBookings)
    }

    constructor (pathname: string, role: Option<string>, toasts: ToastContext.ToastProvider)
      ensures Valid()
      ensures this.pathname == pathname && this.role == role && this.toasts == toasts && newMessageBookings == []
    {
      this.pathname := pathname;
      this.role := role;
      this.toasts := toasts;
      newMessageBookings := [];
    }

    /**
     * A `newMessageNotification`: ignored while the current route names the
     * booking (its chat is open), otherwise recorded once and announced by a toast.
     */
    method HandleNotification(bookingId: string, senderName: string)
      requires Valid()
      modifies this`newMessageBookings, toasts
      ensures Valid()
      ensures Includes(pathname, bookingId) ==>
                newMessageBookings == old(newMessageBookings) && toasts.toast == old(toasts.toast)
      ensures !Includes(pathname, bookingId) ==>
                && newMessageBookings == Recorded(old(newMessageBookings), bookingId)
                && toasts.toast == Some(ToastContext.Toast("New message from " + senderName, ToastContext.Info))
    {
      if !Includes(pathname, bookingId) {
        RecordedAppendsOnce(newMessageBookings, bookingId);
        newMessageBookings := Recorded(newMessageBookings, bookingId);
        toasts.ShowToast("New message from " + senderName, ToastContext.Info);
      }
    }

    /** Following a link: the bookings link clears the unread list. */
    method ClickLink(link: NavLink)
      requires Valid() && link in Links(role)
      modifies this
      ensures Valid() && role == old(role)
      ensures pathname == link.href
      ensures newMessageBookings == if link.href == MyBookingsHref then [] else old(newMessageBookings)
    {
      if link.href == MyBookingsHref {
        newMessageBookings := [];
      }
      pathname := link.href;
    }

    /** The dot on a link: only on the bookings link, and only while something is unread. */
    predicate HasNotification(link: NavLink)
      reads this
    {
      link.href == MyBookingsHref && |newMessageBookings| > 0
    }
  }

  /**
   * The badge shows exactly while some notification went unread: after a
   * notification for a booking whose chat is not open, the bookings link has it.
   */
  lemma BadgeAfterNotification(prev: seq<string>, bookingId: string)
    ensures |Recorded(prev, bookingId)| > 0
    ensures bookingId in Recorded(prev, bookingId)
  {
    assert (prev + [bookingId])[|prev|] == bookingId;
  }
}
