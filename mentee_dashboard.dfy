/**
 * The mentee's overview (client/components/dashboard/MenteeDashboard.tsx):
 * a skill chart counting the expertise of the mentors of completed sessions,
 * and the next confirmed session.
 */
module MenteeDashboard {
  import opened Js
  import opened Options
  import opened BookingModel
  import Seqs
  import Views
  import ClientBookings
  import UserModel
  import BookingController
  import Store

  type BookingView = Views.BookingView

  /** One bar of the chart: `{name, sessions}`. */
  datatype SkillCount = SkillCount(name: string, sessions: nat)

  /**
   * `booking.mentor?.expertise`, when truthy: only a populated mentor with an
   * expertise list has one; a bare id, a `null` mentor or a missing list give nothing.
   */
  function ExpertiseOf(b: BookingView): seq<string> {
    if b.mentor.Populated? && b.mentor.expertise.Given? then b.mentor.expertise.value else []
  }

  /** Every expertise entry of the bookings' mentors, booking by booking. */
  function AllSkills(bs: seq<BookingView>): seq<string> {
    if bs == [] then [] else AllSkills(bs[..|bs| - 1]) + ExpertiseOf(bs[|bs| - 1])
  }

  /** One bar per key, with the key's number of occurrences in `all`. */
  function Bars(keys: seq<string>, all: seq<string>): (r: seq<SkillCount>)
    ensures |r| == |keys|
    ensures forall i :: 0 <= i < |keys| ==> r[i] == SkillCount(keys[i], Seqs.Count(all, keys[i]))
  {
    seq(|keys|, i requires 0 <= i < |keys| => SkillCount(keys[i], Seqs.Count(all, keys[i])))
  }

  /** What `getSkillData` returns: the skills in order of first occurrence, each with its count. */
  function SkillData(bs: seq<BookingView>): seq<SkillCount> {
    Bars(Seqs.Dedup(AllSkills(bs)), AllSkills(bs))
  }

  function TotalSessions(data: seq<SkillCount>): nat {
    if data == [] then 0 else TotalSessions(data[..|data| - 1]) + data[|data| - 1].sessions
  }

  lemma {:induction false} TotalOfBars(keys: seq<string>, all: seq<string>)
    ensures TotalSessions(Bars(keys, all)) == Seqs.SumCount(keys, all)
  {
    if keys != [] {
      var p := keys[..|keys| - 1];
      assert Bars(keys, all)[..|p|] == Bars(p, all);
      TotalOfBars(p, all);
    }
  }

  /**
   * Each skill is listed once, in the order it first occurs; every skill of
   * the input is listed, with its number of occurrences; the counts add up
   * to the number of expertise entries.
   */
  lemma SkillDataCounts(bs: seq<BookingView>)
    ensures var d := SkillData(bs);
      && (forall i, j :: 0 <= i < j < |d| ==> d[i].name != d[j].name)
      && (forall s :: s in AllSkills(bs) <==> exists i :: 0 <= i < |d| && d[i].name == s)
      && (forall i :: 0 <= i < |d| ==> d[i].sessions == Seqs.Count(AllSkills(bs), d[i].name) >= 1)
      && TotalSessions(d) == |AllSkills(bs)|
  {
    var all := AllSkills(bs);
    BarsNamesDistinct(all);
    BarsCoverSkills(all);
    BarsCountsPositive(all);
    TotalOfBars(Seqs.Dedup(all), all);
    Seqs.DedupSumCount(all);
  }

  lemma BarsNamesDistinct(all: seq<string>)
    ensures var d := Bars(Seqs.Dedup(all), all);
      forall i, j :: 0 <= i < j < |d| ==> d[i].name != d[j].name
  {
  }

  lemma BarsCoverSkills(all: seq<string>)
    ensures var d := Bars(Seqs.Dedup(all), all);
      forall s :: s in all <==> exists i :: 0 <= i < |d| && d[i].name == s
  {
    var keys := Seqs.Dedup(all);
    var d := Bars(keys, all);
    forall s | s in all ensures exists i :: 0 <= i < |d| && d[i].name == s {
      var k :| 0 <= k < |all| && all[k] == s;
      assert s in keys;
      var i :| 0 <= i < |keys| && keys[i] == s;
      assert d[i].name == s;
    }
  }

  lemma BarsCountsPositive(all: seq<string>)
    ensures var d := Bars(Seqs.Dedup(all), all);
      forall i :: 0 <= i < |d| ==> d[i].sessions == Seqs.Count(all, d[i].name) >= 1
  {
    var d := Bars(Seqs.Dedup(all), all);
    forall i | 0 <= i < |d| ensures Seqs.Count(all, d[i].name) >= 1 {
      CountPresent(all, d[i].name);
    }
  }

  lemma {:induction false} CountPresent(s: seq<string>, x: string)
    requires x in s
    ensures Seqs.Count(s, x) >= 1
  {
    var p := s[..|s| - 1];
    if s[|s| - 1] != x {
      assert s == p + [s[|s| - 1]];
      CountPresent(p, x);
    }
  }

  /** A booking without a populated mentor expertise list adds no skill. */
  lemma NoExpertiseNoSkills(bs: seq<BookingView>, b: BookingView)
    requires !(b.mentor.Populated? && b.mentor.expertise.Given?)
    ensures AllSkills(bs + [b]) == AllSkills(bs)
  {
    assert (bs + [b])[..|bs|] == bs;
  }

  /** `keys` and `counts` are the state of the `Map` after counting `seen`. */
  ghost predicate Tally(keys: seq<string>, counts: map<string, nat>, seen: seq<string>) {
    && keys == Seqs.Dedup(seen)
    && (forall k :: k in counts <==> k in keys)
    && (forall k :: k in counts ==> counts[k] == Seqs.Count(seen, k))
  }

  /** One `skillCount.set(skill, (skillCount.get(skill) || 0) + 1)`. */
  lemma TallyStep(keys: seq<string>, counts: map<string, nat>, seen: seq<string>, skill: string,
                  keys': seq<string>, counts': map<string, nat>, seen': seq<string>)
    requires Tally(keys, counts, seen)
    requires keys' == if skill in counts then keys else keys + [skill]
    requires counts' == counts[skill := (if skill in counts then counts[skill] else 0) + 1]
    requires seen' == seen + [skill]
    ensures Tally(keys', counts', seen')
  {
    Seqs.DedupSnoc(seen, skill);
    forall k ensures Seqs.Count(seen + [skill], k) == Seqs.Count(seen, k) + (if skill == k then 1 else 0) {
      Seqs.CountSnoc(seen, k, skill);
    }
    if skill !in counts {
      Seqs.CountAbsent(seen, skill);
    }
  }

  /** `Array.from(skillCount.entries())`, mapped to bars, is the specification's list of bars. */
  lemma TallyBars(keys: seq<string>, counts: map<string, nat>, seen: seq<string>, data: seq<SkillCount>)
    requires Tally(keys, counts, seen)
    requires |data| == |keys| && forall n :: 0 <= n < |keys| ==> data[n] == SkillCount(keys[n], counts[keys[n]])
    ensures data == Bars(Seqs.Dedup(seen), seen)
  {
  }

  lemma SnocSlice(a: seq<string>, e: seq<string>, j: nat)
    requires j < |e|
    ensures a + e[..j + 1] == (a + e[..j]) + [e[j]]
  {
    assert e[..j + 1] == e[..j] + [e[j]];
  }

  /** `getSkillData`: the nested `forEach` over the bookings and their mentors' expertise, counting in a `Map`. */
  method GetSkillData(bookings: seq<BookingView>) returns (data: seq<SkillCount>)
    ensures data == SkillData(bookings)
  {
    var keys: seq<string> := [];
    var counts: map<string, nat> := map[];
    var i := 0;
    while i < |bookings|
      invariant 0 <= i <= |bookings|
      invariant Tally(keys, counts, AllSkills(bookings[..i]))
    {
      ghost var before := AllSkills(bookings[..i]);
      assert bookings[..i + 1][..i] == bookings[..i];
      keys, counts := CountSkills(keys, counts, before, ExpertiseOf(bookings[i]));
      i := i + 1;
    }
    assert bookings[..i] == bookings;
    data := seq(|keys|, n requires 0 <= n < |keys| => SkillCount(keys[n], counts[keys[n]]));
    TallyBars(keys, counts, AllSkills(bookings), data);
  }

  /** The inner `forEach`: one booking's expertise added to the `Map`. */
  method CountSkills(keys0: seq<string>, counts0: map<string, nat>, ghost before: seq<string>, expertise: seq<string>)
    returns (keys: seq<string>, counts: map<string, nat>)
    requires Tally(keys0, counts0, before)
    ensures Tally(keys, counts, before + expertise)
  {
    keys, counts := keys0, counts0;
    ghost var seen := before;
    var j := 0;
    while j < |expertise|
      invariant 0 <= j <= |expertise|
      invariant seen == before + expertise[..j]
      invariant Tally(keys, counts, seen)
    {
      var skill := expertise[j];
      ghost var (keys1, counts1) := (keys, counts);
      var previous := if skill in counts then counts[skill] else 0;
      if skill !in counts {
        keys := keys + [skill];
      }
      counts := counts[skill := previous + 1];
      SnocSlice(before, expertise, j);
      TallyStep(keys1, counts1, seen, skill, keys, counts, seen + [skill]);
      seen := seen + [skill];
      j := j + 1;
    }
    assert expertise[..j] == expertise;
  }

  /** The chart's input: `bookings.filter((b) => b.status === "completed")`. */
  function SkillChart(bookings: seq<BookingView>): seq<SkillCount> {
    SkillData(ClientBookings.WithStatus(bookings, {Completed}))
  }

  /** `upcomingSessions[0]`, when there is a confirmed booking. */
  function NextSession(bookings: seq<BookingView>): Option<BookingView> {
    var upcoming := ClientBookings.WithStatus(bookings, {Confirmed});
    if upcoming == [] then None else Some(upcoming[0])
  }

  /** The next session is the first confirmed booking in list order, and there is one exactly when some booking is confirmed. */
  lemma {:induction false} NextSessionIsFirstConfirmed(bookings: seq<BookingView>)
    ensures NextSession(bookings).None? <==> forall j :: 0 <= j < |bookings| ==> bookings[j].status != Confirmed
    ensures NextSession(bookings).Some? ==>
              exists i :: 0 <= i < |bookings| && bookings[i] == NextSession(bookings).value
                          && bookings[i].status == Confirmed
                          && forall j :: 0 <= j < i ==> bookings[j].status != Confirmed
  {
    if bookings != [] {
      var rest := bookings[1..];
      NextSessionIsFirstConfirmed(rest);
      assert forall j :: 1 <= j < |bookings| ==> bookings[j] == rest[j - 1];
      if bookings[0].status != Confirmed {
        assert ClientBookings.WithStatus(bookings, {Confirmed}) == ClientBookings.WithStatus(rest, {Confirmed});
        if NextSession(rest).Some? {
          var i :| 0 <= i < |rest| && rest[i] == NextSession(rest).value && rest[i].status == Confirmed
                   && forall j :: 0 <= j < i ==> rest[j].status != Confirmed;
          assert bookings[i + 1] == rest[i];
        }
      } else {
        assert bookings[0] == NextSession(bookings).value;
      }
    }
  }

  /** Only completed bookings feed the chart: every charted skill belongs to a completed booking's mentor. */
  lemma {:induction false} ChartOnlyCompleted(bookings: seq<BookingView>, s: string)
    requires s in AllSkills(ClientBookings.WithStatus(bookings, {Completed}))
    ensures exists i :: 0 <= i < |bookings| && bookings[i].status == Completed && s in ExpertiseOf(bookings[i])
  {
    var c := ClientBookings.WithStatus(bookings, {Completed});
    var b :| b in c && s in ExpertiseOf(b) by { SkillOwner(c, s); }
    assert b.status == Completed;
    var i :| 0 <= i < |bookings| && bookings[i] == b;
  }

  lemma {:induction false} SkillOwner(bs: seq<BookingView>, s: string)
    requires s in AllSkills(bs)
    ensures exists b :: b in bs && s in ExpertiseOf(b)
  {
    var p := bs[..|bs| - 1];
    if s !in ExpertiseOf(bs[|bs| - 1]) {
      SkillOwner(p, s);
      var b :| b in p && s in ExpertiseOf(b);
      assert b in bs;
    }
  }

  /**
   * The bookings `getMyBookings` sends carry the mentor's name and email only,
   * so fed with them the chart has no bars at all.
   */
  lemma {:induction false} ChartEmptyForServerBookings(users: map<Views.Id, UserModel.User>,
                                                        bookings: map<Views.Id, Booking>, userId: Views.Id,
                                                        fetched: seq<BookingView>)
    requires Store.BookingsWellFormed(bookings)
    requires forall i :: 0 <= i < |fetched| ==> fetched[i] in BookingController.GetMyBookings(users, bookings, userId)
    ensures SkillChart(fetched) == []
  {
    BookingController.MyBookingsExactly(users, bookings, userId);
    var c := ClientBookings.WithStatus(fetched, {Completed});
    NoSkills(c);
  }

  lemma {:induction false} NoSkills(bs: seq<BookingView>)
    requires forall i :: 0 <= i < |bs| ==> !(bs[i].mentor.Populated? && bs[i].mentor.expertise.Given?)
    ensures AllSkills(bs) == []
  {
    if bs != [] {
      NoSkills(bs[..|bs| - 1]);
    }
  }
}
