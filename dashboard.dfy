/**
 * The state of the dashboard view: the loaded users and their counters,
 * the error flag, the search term and the current page, with the events
 * that change them.
 */
module Dashboard {

  import opened Users
  import opened UserFetch
  import opened UserSearch
  import Pagination

  class DashboardView {
    var users: seq<User>
    var stats: Stats
    var error: bool
    var searchTerm: string
    var currentPage: int

    /** The page number never drops below 1. */
    ghost predicate Valid()
      reads this
    {
      currentPage >= 1
    }

    constructor ()
      ensures Valid()
      ensures users == [] && stats == NoStats && !error && searchTerm == "" && currentPage == 1
    {
      users, stats, error, searchTerm, currentPage := [], NoStats, false, "", 1;
    }

    /** The users matching the search term. */
    function FilteredUsers(): seq<User>
      reads this
    {
      FilterUsers(users, searchTerm)
    }

    function TotalPages(): nat
      reads this
    {
      Pagination.TotalPages(|FilteredUsers()|)
    }

    /** The rows of the table. */
    function PaginatedUsers(): seq<User>
      reads this
    {
      Pagination.PageSlice(FilteredUsers(), currentPage)
    }

    /** The table, and the pagination bar inside it, are rendered only for a non-empty page and more than one page. */
    predicate PaginationShown()
      reads this
    {
      PaginatedUsers() != [] && TotalPages() > 1
    }

    /** "No users found" appears only when nothing was loaded and there is no error. */
    predicate EmptyStateShown()
      reads this
    {
      users == [] && !error
    }

    predicate PreviousDisabled()
      reads this
    {
      currentPage == 1
    }

    predicate NextDisabled()
      reads this
    {
      currentPage == TotalPages()
    }

    function PageButtons(): seq<int>
      reads this
    {
      Pagination.PageWindow(currentPage, TotalPages())
    }

    /** `fetchDashboardData`: run the fallback chain, then compute the counters. */
    method FetchDashboardData(api: string -> Outcome, now: int) returns (requested: seq<string>)
      requires Valid()
      modifies this
      ensures Valid()
      ensures requested == Candidates[..RequestCount(api)]
      ensures searchTerm == old(searchTerm) && currentPage == old(currentPage)
      ensures LoadDashboard(api, now).Loaded? ==>
                users == LoadDashboard(api, now).users && stats == LoadDashboard(api, now).stats && !error
      ensures LoadDashboard(api, now).LoadError? ==>
                users == old(users) && stats == old(stats) && error
      ensures EmptyStateShown() <==> LoadDashboard(api, now).Loaded? && LoadDashboard(api, now).users == []
    {
      error := false;
      var userData;
      userData, requested := FetchChain(api);
      if userData.List? {
        users := userData.users;
        stats := ComputeStats(users, now);
      } else {
        error := true;
      }
    }

    /** Typing in the search box; the current page is left as it was. */
    method SetSearchTerm(term: string)
      requires Valid()
      modifies this
      ensures Valid()
      ensures searchTerm == term
      ensures users == old(users) && stats == old(stats) && error == old(error) && currentPage == old(currentPage)
      ensures currentPage > TotalPages() ==> PaginatedUsers() == [] && !PaginationShown()
    {
      searchTerm := term;
      if currentPage > TotalPages() {
        Pagination.PageBeyondLast(FilteredUsers(), currentPage);
      }
    }

    /** The Previous button; disabled on page 1, where it would not move anyway. */
    method Previous()
      requires Valid() && PaginationShown()
      modifies this
      ensures Valid() && currentPage == Pagination.PreviousPage(old(currentPage))
      ensures 1 <= currentPage <= TotalPages() && PaginatedUsers() != []
      ensures old(PreviousDisabled()) ==> currentPage == old(currentPage)
      ensures users == old(users) && stats == old(stats) && error == old(error) && searchTerm == old(searchTerm)
    {
      Pagination.NonEmptyPageInRange(FilteredUsers(), currentPage);
      if !PreviousDisabled() {
        currentPage := Pagination.PreviousPage(currentPage);
      }
      Pagination.PageInRangeNotEmpty(FilteredUsers(), currentPage);
    }

    /** The Next button; disabled on the last page, where it would not move anyway. */
    method Next()
      requires Valid() && PaginationShown()
      modifies this
      ensures Valid() && currentPage == Pagination.NextPage(old(currentPage), TotalPages())
      ensures 1 <= currentPage <= TotalPages() && PaginatedUsers() != []
      ensures old(NextDisabled()) ==> currentPage == old(currentPage)
      ensures users == old(users) && stats == old(stats) && error == old(error) && searchTerm == old(searchTerm)
    {
      Pagination.NonEmptyPageInRange(FilteredUsers(), currentPage);
      if !NextDisabled() {
        currentPage := Pagination.NextPage(currentPage, TotalPages());
      }
      Pagination.PageInRangeNotEmpty(FilteredUsers(), currentPage);
    }

    /** A page-number button. */
    method SelectPage(page: int)
      requires Valid() && PaginationShown() && page in PageButtons()
      modifies this
      ensures Valid() && currentPage == page
      ensures 1 <= currentPage <= TotalPages() && PaginatedUsers() != []
      ensures users == old(users) && stats == old(stats) && error == old(error) && searchTerm == old(searchTerm)
    {
      currentPage := page;
      Pagination.PageInRangeNotEmpty(FilteredUsers(), currentPage);
    }
  }
}
