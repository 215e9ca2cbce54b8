/**
 * The status filters the booking pages apply to the list the server sends
 * (`bookings.filter((b) => b.status === ...)`), and the groups the bookings
 * page shows.
 */
module ClientBookings {
  import opened BookingModel
  import Views
  import Seqs

  type BookingView = Views.BookingView

  /** The bookings whose status is one of `keep`, in list order. */
  function WithStatus(bs: seq<BookingView>, keep: set<Status>): (r: seq<BookingView>)
    ensures |r| <= |bs|
    ensures forall i :: 0 <= i < |r| ==> r[i].status in keep && r[i] in bs
    ensures forall i :: 0 <= i < |bs| && bs[i].status in keep ==> bs[i] in r
  {
    if bs == [] then []
    else
      var rest := WithStatus(bs[1..], keep);
      assert forall i :: 1 <= i < |bs| ==> bs[i] == bs[1..][i - 1];
      if bs[0].status in keep then [bs[0]] + rest else rest
  }

  /** The groups of the bookings page: pending, upcoming (confirmed), past (completed or rejected). */
  const PendingGroup: set<Status> := {Pending}
  const UpcomingGroup: set<Status> := {Confirmed}
  const PastGroup: set<Status> := {Completed, Rejected}

  lemma {:induction false} WithStatusKeepsOrder(bs: seq<BookingView>, keep: set<Status>)
    ensures Seqs.Subsequence(WithStatus(bs, keep), bs)
  {
    if bs != [] {
      WithStatusKeepsOrder(bs[1..], keep);
      var rest := WithStatus(bs[1..], keep);
      if bs[0].status in keep {
        assert ([bs[0]] + rest)[1..] == rest;
      } else {
        Seqs.SubsequenceSkip(rest, bs);
      }
    }
  }

  /** Filtering on two disjoint sets of statuses splits the filter on their union. */
  lemma {:induction false} WithStatusSplit(bs: seq<BookingView>, a: set<Status>, b: set<Status>)
    requires a !! b
    ensures |WithStatus(bs, a)| + |WithStatus(bs, b)| == |WithStatus(bs, a + b)|
  {
    if bs != [] {
      WithStatusSplit(bs[1..], a, b);
    }
  }

  /** Keeping every status keeps the whole list. */
  lemma {:induction false} WithAllStatuses(bs: seq<BookingView>, all: set<Status>)
    requires forall i :: 0 <= i < |bs| ==> bs[i].status in all
    ensures WithStatus(bs, all) == bs
  {
    if bs != [] {
      assert forall i :: 0 <= i < |bs[1..]| ==> bs[1..][i] == bs[i + 1];
      WithAllStatuses(bs[1..], all);
    }
  }

  /**
   * The three groups partition the list: each booking is in exactly one of
   * them, each keeps the fetched order, and their sizes add up to the total.
   */
  lemma GroupsPartition(bs: seq<BookingView>)
    ensures |WithStatus(bs, PendingGroup)| + |WithStatus(bs, UpcomingGroup)| + |WithStatus(bs, PastGroup)| == |bs|
    ensures forall i :: 0 <= i < |bs| ==>
              (bs[i] in WithStatus(bs, PendingGroup)) || (bs[i] in WithStatus(bs, UpcomingGroup)) || (bs[i] in WithStatus(bs, PastGroup))
    ensures forall b :: b in WithStatus(bs, PendingGroup) ==> b !in WithStatus(bs, UpcomingGroup) && b !in WithStatus(bs, PastGroup)
    ensures forall b :: b in WithStatus(bs, UpcomingGroup) ==> b !in WithStatus(bs, PastGroup)
    ensures Seqs.Subsequence(WithStatus(bs, PendingGroup), bs) && Seqs.Subsequence(WithStatus(bs, UpcomingGroup), bs)
            && Seqs.Subsequence(WithStatus(bs, PastGroup), bs)
  {
    WithStatusSplit(bs, PendingGroup, UpcomingGroup);
    WithStatusSplit(bs, PendingGroup + UpcomingGroup, PastGroup);
    var all := PendingGroup + UpcomingGroup + PastGroup;
    forall i | 0 <= i < |bs| ensures bs[i].status in all {
      match bs[i].status
      case Pending =>
      case Confirmed =>
      case Completed =>
      case Rejected =>
    }
    WithAllStatuses(bs, all);
    InGroupHasStatus(bs, PendingGroup);
    InGroupHasStatus(bs, UpcomingGroup);
    InGroupHasStatus(bs, PastGroup);
    WithStatusKeepsOrder(bs, PendingGroup);
    WithStatusKeepsOrder(bs, UpcomingGroup);
    WithStatusKeepsOrder(bs, PastGroup);
  }

  lemma InGroupHasStatus(bs: seq<BookingView>, keep: set<Status>)
    ensures forall b :: b in WithStatus(bs, keep) ==> b.status in keep
  {
  }
}
