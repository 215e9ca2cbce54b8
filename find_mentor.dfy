/**
 * The mentor search page (client/app/dashboard/find-mentor/page.tsx): the
 * query it sends to `GET /api/users/mentors`, the state it keeps from the
 * reply, and the pagination controls.
 */
module FindMentor {
  import opened Js
  import opened Options
  import Views
  import UserModel
  import UserController

  const FetchFailed := "Failed to fetch mentors. Please try again later."
  const PageSize := 9

  /** The query string as key/value pairs, in the order they are appended. */
  type Params = seq<(string, string)>

  /** `n.toString()` for an integer. */
  function IntText(n: int): string {
    if n >= 0 then NatToString(n) else "-" + NatToString(-n)
  }

  /** `page` and `limit=9` always; `search` and `skill` only when non-empty. */
  function BuildParams(page: int, search: string, skill: string): Params {
    [("page", IntText(page)), ("limit", "9")]
    + (if search != "" then [("search", search)] else [])
    + (if skill != "" then [("skill", skill)] else [])
  }

  /** `req.query[key]`: the value sent under `key`, absent when it was not sent. */
  function Lookup(params: Params, key: string): Field<string> {
    if params == [] then Missing
    else if params[0].0 == key then Given(params[0].1)
    else Lookup(params[1..], key)
  }

  /** What the page sends: page and limit always, each filter exactly when it is non-empty. */
  lemma ParamsSent(page: int, search: string, skill: string)
    ensures var p := BuildParams(page, search, skill);
      && Lookup(p, "page") == Given(IntText(page)) && Lookup(p, "limit") == Given("9")
      && (Lookup(p, "search") == if search != "" then Given(search) else Missing)
      && (Lookup(p, "skill") == if skill != "" then Given(skill) else Missing)
  {
    var p := BuildParams(page, search, skill);
    assert p[0] == ("page", IntText(page)) && p[1] == ("limit", "9");
    var tail := p[2..];
    assert tail == (if search != "" then [("search", search)] else []) + (if skill != "" then [("skill", skill)] else []);
    assert p[1..][1..] == tail;
    assert Lookup(p, "search") == Lookup(tail, "search") && Lookup(p, "skill") == Lookup(tail, "skill");
    var k: Params := if skill != "" then [("skill", skill)] else [];
    assert Lookup(k, "search") == Missing && Lookup(k, "skill") == (if skill != "" then Given(skill) else Missing) by {
      if skill != "" { assert k[1..] == []; }
    }
    if search != "" {
      assert tail[1..] == k;
    } else {
      assert tail == k;
    }
  }

  /**
   * The server reads the request as the page meant it: for a page of at
   * least 1 (and no more than `Number.MAX_SAFE_INTEGER`, above which the
   * number no longer survives the text) it lists that page, nine to a page,
   * under the page's filters.
   */
  lemma ServerReadsRequest(collection: seq<UserModel.User>, page: int, search: string, skill: string,
                           valid: string -> bool, matches: (string, string) -> bool)
    requires 1 <= page <= MaxSafeInteger
    ensures var p := BuildParams(page, search, skill);
      UserController.GetAllMentors(collection, Lookup(p, "page"), Lookup(p, "limit"), Lookup(p, "search"),
                                   Lookup(p, "skill"), valid, matches)
      == UserController.Listing(collection, page, PageSize, UserController.BuildQuery(Given(search), Given(skill)),
                                valid, matches)
  {
    ParamsSent(page, search, skill);
    UserController.PageParamRoundTrip(page);
    UserController.PageParamRoundTrip(9);
    assert NatToString(9) == "9";
  }

  /**
   * The server's reply to such a request fails exactly when a typed filter
   * is not a pattern the server can compile; otherwise it is that page, and
   * when it lists any mentor its page lies between 1 and `totalPages`.
   */
  lemma ShownPageInRange(collection: seq<UserModel.User>, page: int, search: string, skill: string,
                         valid: string -> bool, matches: (string, string) -> bool)
    requires page >= 1
    ensures var r := UserController.Listing(collection, page, PageSize,
                                            UserController.BuildQuery(Given(search), Given(skill)), valid, matches);
      && (r.Failure? <==> (search != "" && !valid(search)) || (skill != "" && !valid(skill)))
      && (r.Success? ==>
            && r.value.currentPage == page
            && (|r.value.mentors| > 0 ==> 1 <= r.value.currentPage <= r.value.totalPages))
  {
    var q := UserController.BuildQuery(Given(search), Given(skill));
    UserController.PageContents(collection, page, PageSize, q, valid, matches);
    var r := UserController.Listing(collection, page, PageSize, q, valid, matches);
    var found := UserController.Filter(collection, q, matches);
    if r.Success? && |r.value.mentors| > 0 {
      assert (page - 1) * PageSize < |found|;
      UserController.TotalPagesIsCeiling(|found|, PageSize);
    }
  }

  /** The guard of `handlePageChange`. */
  predicate PageChangeAllowed(newPage: int, totalPages: int) {
    newPage > 0 && newPage <= totalPages
  }

  /** On a page in range, Prev and Next are enabled exactly when the guard lets their page through. */
  lemma ButtonsMatchGuard(currentPage: int, totalPages: int)
    requires 1 <= currentPage <= totalPages
    ensures PageChangeAllowed(currentPage - 1, totalPages) <==> currentPage != 1
    ensures PageChangeAllowed(currentPage + 1, totalPages) <==> currentPage != totalPages
  {
  }

  class FindMentorPage {
    var mentors: seq<Views.MentorSummary>
    var isLoading: bool
    var error: string
    var currentPage: int
    var totalPages: int
    var searchState: string
    var skillState: string
    /** The query of every request sent, in order. */
    var requests: seq<Params>

    constructor ()
      ensures mentors == [] && isLoading && error == "" && currentPage == 1 && totalPages == 1
      ensures searchState == "" && skillState == "" && requests == []
    {
      mentors, isLoading, error := [], true, "";
      currentPage, totalPages := 1, 1;
      searchState, skillState := "", "";
      requests := [];
    }

    /** `fetchMentors`, with the reply (`None` when the request fails). */
    method FetchMentors(page: int, search: string, skill: string, response: Option<Views.MentorPage>)
      modifies this`mentors, this`isLoading, this`error, this`currentPage, this`totalPages, this`requests
      ensures requests == old(requests) + [BuildParams(page, search, skill)] && !isLoading
      ensures response.Some? ==>
                && mentors == response.value.mentors && currentPage == response.value.currentPage
                && totalPages == response.value.totalPages && error == ""
      ensures response.None? ==>
                && mentors == old(mentors) && currentPage == old(currentPage) && totalPages == old(totalPages)
                && error == FetchFailed
    {
      isLoading := true;
      requests := requests + [BuildParams(page, search, skill)];
      if response.Some? {
        mentors := response.value.mentors;
        currentPage := response.value.currentPage;
        totalPages := response.value.totalPages;
        error := "";
      } else {
        error := FetchFailed;
      }
      isLoading := false;
    }

    /** The first load: page 1 with no filters. */
    method Mount(response: Option<Views.MentorPage>)
      modifies this`mentors, this`isLoading, this`error, this`currentPage, this`totalPages, this`requests
      ensures requests == old(requests) + [BuildParams(1, "", "")] && !isLoading
      ensures response.Some? ==>
                && mentors == response.value.mentors && currentPage == response.value.currentPage
                && totalPages == response.value.totalPages && error == ""
      ensures response.None? ==>
                && mentors == old(mentors) && currentPage == old(currentPage) && totalPages == old(totalPages)
                && error == FetchFailed
    {
      FetchMentors(1, "", "", response);
    }

    /** `handleSearch`: the filters are stored and page 1 is fetched under them. */
    method HandleSearch(searchTerm: string, skillFilter: string, response: Option<Views.MentorPage>)
      modifies this
      ensures searchState == searchTerm && skillState == skillFilter
      ensures requests == old(requests) + [BuildParams(1, searchTerm, skillFilter)] && !isLoading
      ensures response.Some? ==>
                && mentors == response.value.mentors && currentPage == response.value.currentPage
                && totalPages == response.value.totalPages && error == ""
      ensures response.None? ==>
                && mentors == old(mentors) && currentPage == 1 && totalPages == old(totalPages)
                && error == FetchFailed
    {
      searchState := searchTerm;
      skillState := skillFilter;
      currentPage := 1;
      FetchMentors(1, searchTerm, skillFilter, response);
    }

    /** `handlePageChange`: a page outside `1..totalPages` is ignored. */
    method HandlePageChange(newPage: int, response: Option<Views.MentorPage>)
      modifies this`mentors, this`isLoading, this`error, this`currentPage, this`totalPages, this`requests
      ensures !PageChangeAllowed(newPage, old(totalPages)) ==>
                && mentors == old(mentors) && isLoading == old(isLoading) && error == old(error)
                && currentPage == old(currentPage) && totalPages == old(totalPages) && requests == old(requests)
      ensures PageChangeAllowed(newPage, old(totalPages)) ==>
                && requests == old(requests) + [BuildParams(newPage, searchState, skillState)] && !isLoading
                && (response.Some? ==>
                      && mentors == response.value.mentors && currentPage == response.value.currentPage
                      && totalPages == response.value.totalPages && error == "")
                && (response.None? ==>
                      && mentors == old(mentors) && currentPage == newPage && totalPages == old(totalPages)
                      && error == FetchFailed)
    {
      if newPage > 0 && newPage <= totalPages {
        currentPage := newPage;
        FetchMentors(newPage, searchState, skillState, response);
      }
    }

    predicate PrevDisabled()
      reads this
    {
      currentPage == 1
    }

    predicate NextDisabled()
      reads this
    {
      currentPage == totalPages
    }

    /** The controls show only when the page lists mentors and there is more than one page. */
    predicate ShowPagination()
      reads this
    {
      |mentors| > 0 && totalPages > 1
    }
  }
}
