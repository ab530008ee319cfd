/**
 * The browsing state of the home page (public/js/main.js): which page of
 * which listing is shown, and the events that change it. `loadData` is
 * asynchronous; `LoadData` is the part that runs before the `fetch`, and
 * `LoadFinished` the part that runs when the fetch settles.
 */
module Browse {
  import opened Wrappers

  /** `gamesPerPage`, the `limit` every listing request asks for. */
  const GamesPerPage := 24

  /** The listing requests the page makes (the query string is `page` and `limit`; `q` for a search). */
  datatype Endpoint =
    | Search(q: string, page: int, limit: int)
    | ByCategory(categoryId: int, page: int, limit: int)
    | AllGames(page: int, limit: int)

  /** JavaScript truthiness of `currentCategoryId`: `null` and `0` are falsy. */
  predicate CategorySelected(categoryId: Option<int>)
  {
    categoryId.Some? && categoryId.value != 0
  }

  /** The endpoint `loadData` fetches: a search term wins over a category, which wins over the full listing; the limit is always 24. */
  function SelectEndpoint(searchTerm: string, categoryId: Option<int>, page: int): (e: Endpoint)
    ensures e.page == page && e.limit == GamesPerPage
    ensures e.Search? <==> searchTerm != ""
    ensures e.Search? ==> e.q == searchTerm
    ensures e.ByCategory? <==> searchTerm == "" && CategorySelected(categoryId)
    ensures e.ByCategory? ==> e.categoryId == categoryId.value
    ensures e.AllGames? <==> searchTerm == "" && !CategorySelected(categoryId)
  {
    if searchTerm != "" then Search(searchTerm, page, GamesPerPage)
    else if CategorySelected(categoryId) then ByCategory(categoryId.value, page, GamesPerPage)
    else AllGames(page, GamesPerPage)
  }

  /** How a fetch started by `loadData` settles: the reply's `page` and `totalPages`, or a failure (network, JSON or rendering error). */
  datatype LoadOutcome = Loaded(page: int, totalPages: int) | LoadFailed

  /** A call `loadData(page, shouldClearGrid)` that an event schedules. */
  datatype LoadCall = LoadCall(page: int, shouldClearGrid: bool)

  /** The module-level state of main.js. */
  class Browser {
    var currentPage: int
    var totalPages: int
    var currentCategoryId: Option<int>
    var currentSearchTerm: string
    var isLoading: bool

    /** A search and a category are never both active: each filter event clears the other. */
    ghost predicate Valid()
      reads this
    {
      currentSearchTerm != "" ==> currentCategoryId.None?
    }

    constructor ()
      ensures Valid()
      ensures currentPage == 1 && totalPages == 1
      ensures currentCategoryId.None? && currentSearchTerm == "" && !isLoading
    {
      currentPage := 1;
      totalPages := 1;
      currentCategoryId := None;
      currentSearchTerm := "";
      isLoading := false;
    }

    /**
     * `loadData(page, shouldClearGrid)` up to the `fetch`: an infinite-scroll
     * load while another load runs does nothing; otherwise the load is marked
     * as running, a clearing load resets the page count, the current page
     * becomes `page`, and the request for the current filters is returned.
     */
    method LoadData(page: int, shouldClearGrid: bool) returns (request: Option<Endpoint>)
      requires Valid()
      modifies this
      ensures Valid()
      ensures old(isLoading) && !shouldClearGrid ==>
                request.None?
                && currentPage == old(currentPage) && totalPages == old(totalPages) && isLoading == old(isLoading)
                && currentCategoryId == old(currentCategoryId) && currentSearchTerm == old(currentSearchTerm)
      ensures !(old(isLoading) && !shouldClearGrid) ==>
                request == Some(SelectEndpoint(currentSearchTerm, currentCategoryId, page))
                && isLoading && currentPage == page
                && totalPages == (if shouldClearGrid then 1 else old(totalPages))
                && currentCategoryId == old(currentCategoryId) && currentSearchTerm == old(currentSearchTerm)
    {
      if isLoading && !shouldClearGrid {
        return None;
      }
      isLoading := true;
      if shouldClearGrid {
        currentPage := 1;
        totalPages := 1;
      }
      currentPage := page;
      request := Some(SelectEndpoint(currentSearchTerm, currentCategoryId, page));
    }

    /** The rest of `loadData`: on success the page and the page count come from the reply; in every case the load is over. */
    method LoadFinished(outcome: LoadOutcome)
      requires Valid()
      modifies this
      ensures Valid()
      ensures !isLoading
      ensures outcome.Loaded? ==> currentPage == outcome.page && totalPages == outcome.totalPages
      ensures outcome.LoadFailed? ==> currentPage == old(currentPage) && totalPages == old(totalPages)
      ensures currentCategoryId == old(currentCategoryId) && currentSearchTerm == old(currentSearchTerm)
    {
      if outcome.Loaded? {
        totalPages := outcome.totalPages;
        currentPage := outcome.page;
      }
      isLoading := false;
    }

    /** The page the infinite-scroll trigger asks for when it comes into view: the next one, only when no load runs and it exists. */
    function ScrollRequest(): (next: Option<int>)
      reads this
      ensures next.Some? <==> !isLoading && currentPage < totalPages
      ensures next.Some? ==> next.value == currentPage + 1 && next.value <= totalPages
    {
      if !isLoading && currentPage < totalPages then Some(currentPage + 1) else None
    }

    /** The `IntersectionObserver` callback. */
    method OnScrollTrigger(isIntersecting: bool) returns (request: Option<Endpoint>)
      requires Valid()
      modifies this
      ensures Valid()
      ensures !isIntersecting || old(ScrollRequest()).None? ==>
                request.None?
                && currentPage == old(currentPage) && totalPages == old(totalPages) && isLoading == old(isLoading)
      ensures isIntersecting && old(ScrollRequest()).Some? ==>
                request == Some(SelectEndpoint(currentSearchTerm, currentCategoryId, old(currentPage) + 1))
                && request.value.page <= old(totalPages)
                && isLoading && currentPage == old(currentPage) + 1 && totalPages == old(totalPages)
      ensures currentCategoryId == old(currentCategoryId) && currentSearchTerm == old(currentSearchTerm)
    {
      request := None;
      var next := ScrollRequest();
      if isIntersecting && next.Some? {
        request := LoadData(next.value, false);
      }
    }

    /** Typing in the search box: the term becomes the box's value, the category is cleared, and a clearing load of page 1 is scheduled (debounced). */
    method SearchInput(value: string) returns (pending: LoadCall)
      requires Valid()
      modifies this
      ensures Valid()
      ensures currentSearchTerm == value && currentCategoryId.None?
      ensures pending == LoadCall(1, true)
      ensures currentPage == old(currentPage) && totalPages == old(totalPages) && isLoading == old(isLoading)
    {
      currentSearchTerm := value;
      currentCategoryId := None;
      pending := LoadCall(1, true);
    }

    /** Clicking a category button: that category, no search term, and a clearing load of page 1. */
    method CategoryClick(id: int) returns (request: Option<Endpoint>)
      requires Valid()
      modifies this
      ensures Valid()
      ensures currentCategoryId == Some(id) && currentSearchTerm == ""
      ensures request == Some(SelectEndpoint("", Some(id), 1))
      ensures isLoading && currentPage == 1 && totalPages == 1
    {
      currentCategoryId := Some(id);
      currentSearchTerm := "";
      request := LoadData(1, true);
    }

    /** Clicking "Todos": no category, no search term, and a clearing load of page 1 of the full listing. */
    method AllClick() returns (request: Option<Endpoint>)
      requires Valid()
      modifies this
      ensures Valid()
      ensures currentCategoryId.None? && currentSearchTerm == ""
      ensures request == Some(AllGames(1, GamesPerPage))
      ensures isLoading && currentPage == 1 && totalPages == 1
    {
      currentCategoryId := None;
      currentSearchTerm := "";
      request := LoadData(1, true);
    }
  }

  /**
   * A clearing load may start while a scroll load is still running, and the
   * first of them to finish marks loading as over although the other is
   * still outstanding: `isLoading` records that some load started, not how
   * many run.
   */
  method OverlappingLoads()
  {
    var b := new Browser();
    b.LoadFinished(Loaded(1, 3));
    var scroll := b.OnScrollTrigger(true);
    assert scroll == Some(AllGames(2, GamesPerPage)) && b.isLoading;
    var blocked := b.OnScrollTrigger(true);
    assert blocked.None?;
    var search := b.SearchInput("mario");
    var restart := b.LoadData(search.page, search.shouldClearGrid);
    assert restart == Some(Search("mario", 1, GamesPerPage));
    b.LoadFinished(Loaded(2, 3));
    assert !b.isLoading && b.currentPage == 2;
  }
}
