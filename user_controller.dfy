/**
 * The user routes (server/controllers/userController.js): a user edits their
 * own profile, anyone lists mentors a page at a time with optional name and
 * skill filters, and a mentor's public profile is read by id.
 */
module UserController {
  import opened Js
  import opened Options
  import opened Http
  import opened UserModel
  import Store
  import Seqs
  import Views

  // ------------------------------------------------------ updateUserProfile

  datatype LinksBody = LinksBody(linkedIn: Field<string>, twitter: Field<string>, github: Field<string>)

  /** The JSON body of `PUT /api/users/profile`; `role`, `email` and `password` in it are ignored. */
  datatype ProfileBody = ProfileBody(
    name: Field<string>,
    title: Field<string>,
    bio: Field<string>,
    avatar: Field<string>,
    socialLinks: Field<LinksBody>,
    expertise: Field<seq<string>>,
    availability: Field<seq<DayAvailability>>,
    learningGoals: Field<seq<string>>)

  const UserNotFound := "User not found"

  /**
   * The profile after the update: every string takes the body's value when it
   * is truthy, the links only when `socialLinks` is given, and the lists that
   * belong to the user's role take the body's list whenever one is given.
   */
  function MergeProfile(u: User, body: ProfileBody): User {
    var links :=
      if Present(body.socialLinks) then
        SocialLinks(OrString(body.socialLinks.value.linkedIn, u.socialLinks.linkedIn),
                    OrString(body.socialLinks.value.twitter, u.socialLinks.twitter),
                    OrString(body.socialLinks.value.github, u.socialLinks.github))
      else u.socialLinks;
    var v := u.(name := OrString(body.name, u.name), title := OrString(body.title, u.title),
                bio := OrString(body.bio, u.bio), avatar := OrString(body.avatar, u.avatar),
                socialLinks := links);
    if u.role == Mentor then
      v.(expertise := OrElse(body.expertise, u.expertise), availability := OrElse(body.availability, u.availability))
    else
      v.(learningGoals := OrElse(body.learningGoals, u.learningGoals))
  }

  /** A string field either keeps its old value or takes a non-empty body value, so `""` never clears it. */
  predicate FallsBack(old_: string, body: Field<string>, new_: string) {
    if StringTruthy(body) then new_ == body.value && new_ != "" else new_ == old_
  }

  lemma MergeStrings(u: User, body: ProfileBody)
    ensures var r := MergeProfile(u, body);
      && FallsBack(u.name, body.name, r.name) && FallsBack(u.title, body.title, r.title)
      && FallsBack(u.bio, body.bio, r.bio) && FallsBack(u.avatar, body.avatar, r.avatar)
      && (r.name == "" ==> u.name == "") && (r.title == "" ==> u.title == "")
      && (r.bio == "" ==> u.bio == "") && (r.avatar == "" ==> u.avatar == "")
  {
  }

  /** The links are looked at only when `socialLinks` is given, each with the same fallback. */
  lemma MergeLinks(u: User, body: ProfileBody)
    ensures var r := MergeProfile(u, body);
      && (!Present(body.socialLinks) ==> r.socialLinks == u.socialLinks)
      && (Present(body.socialLinks) ==>
            && FallsBack(u.socialLinks.linkedIn, body.socialLinks.value.linkedIn, r.socialLinks.linkedIn)
            && FallsBack(u.socialLinks.twitter, body.socialLinks.value.twitter, r.socialLinks.twitter)
            && FallsBack(u.socialLinks.github, body.socialLinks.value.github, r.socialLinks.github))
  {
  }

  /**
   * A mentor's expertise and availability are replaced by any given list, even
   * an empty one, and the learning goals stay; a mentee's learning goals are
   * replaced the same way, and expertise and availability stay.
   */
  lemma MergeByRole(u: User, body: ProfileBody)
    ensures var r := MergeProfile(u, body);
      && (u.role == Mentor ==>
            && r.learningGoals == u.learningGoals
            && r.expertise == (if body.expertise.Given? then body.expertise.value else u.expertise)
            && r.availability == (if body.availability.Given? then body.availability.value else u.availability))
      && (u.role == Mentee ==>
            && r.expertise == u.expertise && r.availability == u.availability
            && r.learningGoals == (if body.learningGoals.Given? then body.learningGoals.value else u.learningGoals))
      && (u.role == Mentor && body.expertise == Given([]) ==> r.expertise == [])
  {
  }

  /** The account itself is never touched: id, email, password, provider and role stay. */
  lemma MergeKeepsAccount(u: User, body: ProfileBody)
    ensures var r := MergeProfile(u, body);
      && r.id == u.id && r.email == u.email && r.password == u.password
      && r.authProvider == u.authProvider && r.providerId == u.providerId && r.role == u.role
      && (Valid(u) ==> Valid(r))
  {
  }

  /** Sending the same body twice has the effect of sending it once. */
  lemma MergeIdempotent(u: User, body: ProfileBody)
    ensures MergeProfile(MergeProfile(u, body), body) == MergeProfile(u, body)
  {
  }

  /** The body the profile page sends when nothing was edited: every field of the record as loaded. */
  function BodyOf(u: User): ProfileBody {
    ProfileBody(Given(u.name), Given(u.title), Given(u.bio), Given(u.avatar),
                Given(LinksBody(Given(u.socialLinks.linkedIn), Given(u.socialLinks.twitter), Given(u.socialLinks.github))),
                Given(u.expertise), Given(u.availability), Given(u.learningGoals))
  }

  /** Saving a profile unchanged leaves it as it was. */
  lemma MergeOwnBody(u: User)
    ensures MergeProfile(u, BodyOf(u)) == u
  {
  }

  /** `updateUserProfile` for the id the auth middleware put on the request. */
  method UpdateUserProfile(db: Store.Store, userId: Store.Id, body: ProfileBody) returns (reply: Reply<User>)
    requires db.Valid()
    modifies db`users
    ensures db.Valid()
    ensures userId !in old(db.users) ==> reply == Failure(404, UserNotFound) && db.users == old(db.users)
    ensures userId in old(db.users) ==>
              && reply == Success(200, MergeProfile(old(db.users)[userId], body))
              && db.users == old(db.users)[userId := reply.value]
  {
    if userId !in db.users {
      return Failure(404, UserNotFound);
    }
    var user := db.users[userId];
    MergeKeepsAccount(user, body);
    user := user.(name := OrString(body.name, user.name));
    user := user.(title := OrString(body.title, user.title));
    user := user.(bio := OrString(body.bio, user.bio));
    user := user.(avatar := OrString(body.avatar, user.avatar));
    if Present(body.socialLinks) {
      var links := body.socialLinks.value;
      user := user.(socialLinks := user.socialLinks.(linkedIn := OrString(links.linkedIn, user.socialLinks.linkedIn)));
      user := user.(socialLinks := user.socialLinks.(twitter := OrString(links.twitter, user.socialLinks.twitter)));
      user := user.(socialLinks := user.socialLinks.(github := OrString(links.github, user.socialLinks.github)));
    }
    if user.role == Mentor {
      user := user.(expertise := OrElse(body.expertise, user.expertise));
      user := user.(availability := OrElse(body.availability, user.availability));
    } else {
      user := user.(learningGoals := OrElse(body.learningGoals, user.learningGoals));
    }
    db.users := db.users[userId := user];
    reply := Success(200, user);
  }

  // ---------------------------------------------------------- getAllMentors

  const DefaultPage := 1
  const DefaultLimit := 9
  const ServerError := "Server Error"
  const MentorNotFound := "Mentor not found"

  /** `Number(req.query.page) || 1`. */
  function PageOf(x: Field<string>): int {
    var n := ParamNumber(x);
    if NumberTruthy(n) then n.i else DefaultPage
  }

  /** `Number(req.query.limit) || 9`. */
  function LimitOf(x: Field<string>): (r: int)
    ensures r != 0
  {
    var n := ParamNumber(x);
    if NumberTruthy(n) then n.i else DefaultLimit
  }

  /** `Math.ceil(count / limit)`; a negative limit gives the ceiling of a negative quotient. */
  function TotalPages(count: nat, limit: int): int
    requires limit != 0
  {
    if limit > 0 then (count + limit - 1) / limit else -(count / -limit)
  }

  /** The filter object: always `role: "mentor"`, a name pattern for a truthy `search`, a skill pattern for a truthy `skill`. */
  datatype MentorQuery = MentorQuery(name: Option<string>, expertise: Option<string>)

  function BuildQuery(search: Field<string>, skill: Field<string>): MentorQuery {
    MentorQuery(if StringTruthy(search) then Some(search.value) else None,
                if StringTruthy(skill) then Some(skill.value) else None)
  }

  /**
   * A user matches when they are a mentor, their name matches the name
   * pattern if there is one, and some expertise entry matches the skill
   * pattern if there is one. `matches(pattern, text)` stands for the
   * case-insensitive regular-expression test.
   */
  predicate Matches(q: MentorQuery, u: User, matches: (string, string) -> bool) {
    && u.role == Mentor
    && (q.name.Some? ==> matches(q.name.value, u.name))
    && (q.expertise.Some? ==> exists i :: 0 <= i < |u.expertise| && matches(q.expertise.value, u.expertise[i]))
  }

  /** The matching documents of the collection, in its order. */
  function Filter(collection: seq<User>, q: MentorQuery, matches: (string, string) -> bool): (r: seq<User>)
    ensures |r| <= |collection|
    ensures forall i :: 0 <= i < |r| ==> Matches(q, r[i], matches) && r[i] in collection
    ensures forall i :: 0 <= i < |collection| && Matches(q, collection[i], matches) ==> collection[i] in r
  {
    if collection == [] then []
    else
      var rest := Filter(collection[1..], q, matches);
      assert forall i :: 1 <= i < |collection| ==> collection[i] == collection[1..][i - 1];
      if Matches(q, collection[0], matches) then [collection[0]] + rest else rest
  }

  /** `.limit(limit).skip(skip)` on a non-negative skip; a negative limit acts as its absolute value. */
  function Window(s: seq<User>, skip: nat, limit: int): (r: seq<User>)
    requires limit != 0
  {
    var n := if limit > 0 then limit else -limit;
    if skip >= |s| then [] else s[skip..if skip + n <= |s| then skip + n else |s|]
  }

  function Summary(u: User): Views.MentorSummary {
    Views.MentorSummary(u.id, u.name, u.email, u.expertise, u.title, u.bio, u.avatar)
  }

  function Summaries(s: seq<User>): (r: seq<Views.MentorSummary>)
    ensures |r| == |s| && forall i :: 0 <= i < |s| ==> r[i] == Summary(s[i])
  {
    seq(|s|, i requires 0 <= i < |s| => Summary(s[i]))
  }

  /**
   * Every pattern of the query compiles: `valid(pattern)` stands for the
   * regular-expression engine accepting the text (`"("` or `"*"` it refuses).
   */
  predicate PatternsValid(q: MentorQuery, valid: string -> bool) {
    && (q.name.Some? ==> valid(q.name.value))
    && (q.expertise.Some? ==> valid(q.expertise.value))
  }

  /**
   * The reply of `getAllMentors` once `page`, `limit` and the query are
   * computed. `collection` is the user collection in its natural order. A
   * pattern that does not compile makes `countDocuments` throw, and a
   * negative skip makes `find` throw; both reach the catch (500).
   */
  function Listing(collection: seq<User>, page: int, limit: int, q: MentorQuery,
                   valid: string -> bool, matches: (string, string) -> bool)
    : Reply<Views.MentorPage>
    requires limit != 0
  {
    var skip := (page - 1) * limit;
    if !PatternsValid(q, valid) then Failure(500, ServerError)
    else if skip < 0 then Failure(500, ServerError)
    else
      var found := Filter(collection, q, matches);
      Success(200, Views.MentorPage(Summaries(Window(found, skip, limit)), TotalPages(|found|, limit), page, |found|))
  }

  function GetAllMentors(collection: seq<User>, page: Field<string>, limit: Field<string>,
                         search: Field<string>, skill: Field<string>,
                         valid: string -> bool, matches: (string, string) -> bool)
    : Reply<Views.MentorPage>
  {
    Listing(collection, PageOf(page), LimitOf(limit), BuildQuery(search, skill), valid, matches)
  }

  /**
   * An absent, null, blank, zero or non-numeric parameter falls back to page
   * 1 and limit 9; `k` points at a character of `s` that no numeral holds.
   */
  lemma PagingDefaults(s: string, k: nat)
    ensures PageOf(Missing) == 1 && LimitOf(Missing) == 9
    ensures PageOf(Nil) == 1 && LimitOf(Nil) == 9
    ensures AllWhiteSpace(s) ==> PageOf(Given(s)) == 1 && LimitOf(Given(s)) == 9
    ensures PageOf(Given("0")) == 1 && LimitOf(Given("0")) == 9
    ensures k < |s| && NonNumeric(s[k]) ==> PageOf(Given(s)) == 1 && LimitOf(Given(s)) == 9
  {
    TrimEmptyIff(s);
    ToNumberOfNat(0);
    assert NatToString(0) == "0";
    if k < |s| && NonNumeric(s[k]) {
      ToNumberNaN(s, k);
    }
  }

  /** A page number the client sends as decimal text is the page the server uses. */
  lemma PageParamRoundTrip(k: nat)
    requires 0 < k <= MaxSafeInteger
    ensures PageOf(Given(NatToString(k))) == k && LimitOf(Given(NatToString(k))) == k
  {
    ToNumberOfNat(k);
  }

  /** With a positive limit, `totalPages` is the least number of pages that holds every match. */
  lemma TotalPagesIsCeiling(count: nat, limit: int)
    requires limit > 0
    ensures var t := TotalPages(count, limit);
      t >= 0 && t * limit >= count && (t == 0 || (t - 1) * limit < count)
  {
    var t := TotalPages(count, limit);
    var q := count + limit - 1;
    assert q == t * limit + q % limit;
    assert (t - 1) * limit == t * limit - limit;
  }

  /**
   * With a positive limit and a page of at least 1, the reply succeeds exactly
   * when the patterns compile; it then lists the matches from index
   * `(page - 1) * limit`, at most `limit` of them, and reports the page, the
   * match count and the page count.
   */
  lemma PageContents(collection: seq<User>, page: int, limit: int, q: MentorQuery,
                     valid: string -> bool, matches: (string, string) -> bool)
    requires page >= 1 && limit > 0
    ensures var r := Listing(collection, page, limit, q, valid, matches);
      var found := Filter(collection, q, matches);
      var start := (page - 1) * limit;
      && (r.Success? <==> PatternsValid(q, valid))
      && (r.Success? ==>
            && r.value.currentPage == page && r.value.totalMentors == |found|
            && r.value.totalPages == TotalPages(|found|, limit)
            && |r.value.mentors| <= limit
            && forall j :: 0 <= j < |r.value.mentors| ==> start + j < |found| && r.value.mentors[j] == Summary(found[start + j]))
  {
    var skip := (page - 1) * limit;
    assert skip >= 0;
    var r := Listing(collection, page, limit, q, valid, matches);
    if PatternsValid(q, valid) {
      var found := Filter(collection, q, matches);
      var w := Window(found, skip, limit);
      assert r == Success(200, Views.MentorPage(Summaries(w), TotalPages(|found|, limit), page, |found|));
      WindowContents(found, skip, limit);
      forall j | 0 <= j < |r.value.mentors| ensures skip + j < |found| && r.value.mentors[j] == Summary(found[skip + j]) {
        assert r.value.mentors[j] == Summary(w[j]);
      }
    } else {
      assert r == Failure(500, ServerError);
    }
  }

  /** `.limit(limit).skip(skip)` keeps at most `limit` entries, from index `skip` on. */
  lemma WindowContents(s: seq<User>, skip: nat, limit: int)
    requires limit > 0
    ensures var w := Window(s, skip, limit);
      && |w| <= limit
      && forall j :: 0 <= j < |w| ==> skip + j < |s| && w[j] == s[skip + j]
  {
  }

  /** Every match is listed on exactly one page within `totalPages`, at a fixed position. */
  lemma EveryMatchOnItsPage(found: seq<User>, limit: int, i: nat)
    requires limit > 0 && i < |found|
    ensures var p := i / limit + 1;
      && 1 <= p <= TotalPages(|found|, limit)
      && i % limit < |Window(found, (p - 1) * limit, limit)|
      && Window(found, (p - 1) * limit, limit)[i % limit] == found[i]
    ensures forall q: int :: q >= 1 && OnPage(i, q, limit) ==> q == i / limit + 1
  {
    var p := i / limit + 1;
    assert (p - 1) * limit + i % limit == i;
    TotalPagesIsCeiling(|found|, limit);
    OnlyOnePage(limit, i);
  }

  /** No page but `i / limit + 1` holds index `i`. */
  lemma OnlyOnePage(limit: int, i: nat)
    requires limit > 0
    ensures forall q: int :: q >= 1 && OnPage(i, q, limit) ==> q == i / limit + 1
  {
    forall q: int | q >= 1 && OnPage(i, q, limit)
      ensures q == i / limit + 1
    {
      OnlyOnePageHolds(limit, i, q);
    }
  }

  /** Index `i` of the matches falls in the window `.skip((q - 1) * limit).limit(limit)` of page `q`. */
  predicate OnPage(i: nat, q: int, limit: int) {
    (q - 1) * limit <= i < (q - 1) * limit + limit
  }

  /** The only page whose window holds index `i` is `i / limit + 1`. */
  lemma OnlyOnePageHolds(limit: int, i: nat, q: int)
    requires limit > 0 && q >= 1 && OnPage(i, q, limit)
    ensures q == i / limit + 1
  {
    var p := i / limit + 1;
    assert (p - 1) * limit <= i < (p - 1) * limit + limit;
    assert q < p ==> ((q - 1) + 1) * limit <= (p - 1) * limit;
    assert q > p ==> ((p - 1) + 1) * limit <= (q - 1) * limit;
  }

  /**
   * The reply is 500 "Server Error" exactly when a pattern does not compile or
   * a negative page or limit makes `skip` negative.
   */
  lemma ListingFailures(collection: seq<User>, page: int, limit: int, q: MentorQuery,
                        valid: string -> bool, matches: (string, string) -> bool)
    requires limit != 0
    ensures var r := Listing(collection, page, limit, q, valid, matches);
      && (r.Failure? <==> !PatternsValid(q, valid) || (page - 1) * limit < 0)
      && (r.Failure? ==> r == Failure(500, ServerError))
    ensures page >= 1 && limit > 0 ==>
              (Listing(collection, page, limit, q, valid, matches).Success? <==> PatternsValid(q, valid))
  {
    if page >= 1 && limit > 0 {
      assert (page - 1) * limit >= 0;
    }
  }

  /**
   * The name filter is there exactly for a non-empty `search` and the skill
   * filter exactly for a non-empty `skill`; the matches are the collection's
   * matching mentors, all of them, in collection order.
   */
  lemma QueryFilters(collection: seq<User>, search: Field<string>, skill: Field<string>, matches: (string, string) -> bool)
    ensures BuildQuery(search, skill).name.Some? <==> StringTruthy(search)
    ensures BuildQuery(search, skill).expertise.Some? <==> StringTruthy(skill)
    ensures var found := Filter(collection, BuildQuery(search, skill), matches);
      && Seqs.Subsequence(found, collection)
      && (forall i :: 0 <= i < |found| ==> found[i].role == Mentor)
      && (forall i :: 0 <= i < |collection| && Matches(BuildQuery(search, skill), collection[i], matches) ==> collection[i] in found)
  {
    FilterIsSubsequence(collection, BuildQuery(search, skill), matches);
  }

  lemma {:induction false} FilterIsSubsequence(collection: seq<User>, q: MentorQuery, matches: (string, string) -> bool)
    ensures Seqs.Subsequence(Filter(collection, q, matches), collection)
  {
    if collection != [] {
      FilterIsSubsequence(collection[1..], q, matches);
      var rest := Filter(collection[1..], q, matches);
      if Matches(q, collection[0], matches) {
        assert ([collection[0]] + rest)[1..] == rest;
      } else {
        Seqs.SubsequenceSkip(rest, collection);
      }
    }
  }

  // --------------------------------------------------------- getMentorById

  function Detail(u: User): Views.MentorDetail {
    Views.MentorDetail(u.id, u.name, u.role, u.email, u.expertise, u.availability, u.title, u.bio, u.avatar)
  }

  /** `getMentorById`: the selected fields of a stored mentor, otherwise 404. */
  function GetMentorById(users: map<Store.Id, User>, id: Store.Id): Reply<Views.MentorDetail> {
    if id in users && users[id].role == Mentor then Success(200, Detail(users[id]))
    else Failure(404, MentorNotFound)
  }

  /** The profile of a mentee, or of an unknown id, is never served as a mentor's. */
  lemma MentorByIdOnlyMentors(users: map<Store.Id, User>, id: Store.Id)
    requires Store.UsersWellFormed(users)
    ensures GetMentorById(users, id).Success? <==> id in users && users[id].role == Mentor
    ensures GetMentorById(users, id).Success? ==>
              && GetMentorById(users, id).value.id == id && GetMentorById(users, id).value.role == Mentor
              && GetMentorById(users, id).value.expertise == users[id].expertise
  {
  }

  /** Every mentor a listing shows can be opened by id. */
  lemma ListedMentorsResolve(users: map<Store.Id, User>, collection: seq<User>, page: int, limit: int,
                             q: MentorQuery, valid: string -> bool, matches: (string, string) -> bool)
    requires limit != 0
    requires forall i :: 0 <= i < |collection| ==> collection[i].id in users && users[collection[i].id] == collection[i]
    ensures var r := Listing(collection, page, limit, q, valid, matches);
      r.Success? ==> forall j :: 0 <= j < |r.value.mentors| ==> GetMentorById(users, r.value.mentors[j].id).Success?
  {
    var r := Listing(collection, page, limit, q, valid, matches);
    if r.Success? {
      var found := Filter(collection, q, matches);
      var w := Window(found, (page - 1) * limit, limit);
      forall j | 0 <= j < |r.value.mentors| ensures GetMentorById(users, r.value.mentors[j].id).Success? {
        assert r.value.mentors[j] == Summary(w[j]);
        assert w[j] in found;
        var k :| 0 <= k < |collection| && collection[k] == w[j];
      }
    }
  }
}
