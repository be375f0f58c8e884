/** The earlier single-list page (src/App.jsx): the same list fetch as the home
    page, but with request URLs that do not exclude adult titles, an unfiltered
    grid, no debounce, and a fixed four-button pagination. */
module App {
  import opened Text
  import opened Urls
  import opened MovieFetch
  import HomePage

  // ---------------------------------------------------------------------------
  // Request URL
  // ---------------------------------------------------------------------------

  /** The list request: a search when the query is truthy, the
      popularity-sorted discover list otherwise; neither has `include_adult`. */
  function AppMoviesUrl(query: string, page: int): string {
    if query != "" then
      ApiUrl + "/search/movie" + "?" + ("query=" + query) + "&" + ("page=" + NumberText(page))
    else
      ApiUrl + "/discover/movie" + "?" + "sort_by=popularity.desc" + "&" + ("page=" + NumberText(page))
  }

  /** Read back, the request carries exactly the query (when truthy) or the
      popularity sort, and the page, and nothing else. */
  lemma AppMoviesUrlReadsBack(query: string, page: int)
    requires '&' !in query && '#' !in query
    ensures ParseUrl(AppMoviesUrl(query, page)) ==
      if query != "" then Url(HomePage.SearchPath, [("query", query), ("page", NumberText(page))])
      else Url(HomePage.DiscoverPath, [("sort_by", "popularity.desc"), ("page", NumberText(page))])
  {
    if query != "" {
      AppSearchUrlReadsBack(query, page);
    } else {
      AppDiscoverUrlReadsBack(page);
    }
  }

  /** The request URL is its path, `?` and its fields joined by `&`. */
  lemma AppSearchUrlShape(query: string, page: int)
    requires query != ""
    ensures AppMoviesUrl(query, page) == HomePage.SearchPath + "?" + QueryString([("query", query), ("page", NumberText(page))])
  {
    Regroup2(HomePage.SearchPath, ("query", query), ("page", NumberText(page)));
    assert Field(("page", NumberText(page))) == "page=" + NumberText(page);
    assert Field(("query", query)) == "query=" + query;
  }

  lemma AppDiscoverUrlShape(page: int)
    ensures AppMoviesUrl("", page) ==
      HomePage.DiscoverPath + "?" + QueryString([("sort_by", "popularity.desc"), ("page", NumberText(page))])
  {
    Regroup2(HomePage.DiscoverPath, ("sort_by", "popularity.desc"), ("page", NumberText(page)));
    assert Field(("page", NumberText(page))) == "page=" + NumberText(page);
    assert Field(("sort_by", "popularity.desc")) == "sort_by=popularity.desc";
  }

  lemma AppSearchUrlReadsBack(query: string, page: int)
    requires query != "" && '&' !in query && '#' !in query
    ensures ParseUrl(AppMoviesUrl(query, page)) == Url(HomePage.SearchPath, [("query", query), ("page", NumberText(page))])
  {
    AppSearchUrlShape(query, page);
    HomePage.NumberTextPlain(page);
    HomePage.PathsPlain();
    ParseQuery(HomePage.SearchPath, [("query", query), ("page", NumberText(page))]);
  }

  lemma AppDiscoverUrlReadsBack(page: int)
    ensures ParseUrl(AppMoviesUrl("", page)) ==
      Url(HomePage.DiscoverPath, [("sort_by", "popularity.desc"), ("page", NumberText(page))])
  {
    AppDiscoverUrlShape(page);
    HomePage.NumberTextPlain(page);
    HomePage.PathsPlain();
    ParseQuery(HomePage.DiscoverPath, [("sort_by", "popularity.desc"), ("page", NumberText(page))]);
  }

  /** The home page asks for the same path and fields, plus `include_adult=false`. */
  lemma HomeAddsAdultExclusion(query: string, page: int)
    requires '&' !in query && '#' !in query
    ensures ParseUrl(HomePage.MoviesUrl(query, page)).path == ParseUrl(AppMoviesUrl(query, page)).path
    ensures ParseUrl(HomePage.MoviesUrl(query, page)).params ==
      ParseUrl(AppMoviesUrl(query, page)).params + [("include_adult", "false")]
  {
    AppMoviesUrlReadsBack(query, page);
    if query != "" {
      HomePage.SearchUrlReadsBack(query, page);
    } else {
      HomePage.DiscoverUrlReadsBack(page);
    }
  }

  // ---------------------------------------------------------------------------
  // The four-button pagination
  // ---------------------------------------------------------------------------

  /** A button shows `number`, sets the page to `target` when clicked, and may
      be disabled; `Dots` is the `...` text. */
  datatype LegacyItem = NumberButton(number: int, target: int, disabled: bool) | Dots

  /** Buttons labelled `page` to `page + 3`: the first goes back a page, the
      others forward by one to three; when `totalPages < 4` a `...` and a
      button to the last page follow. */
  function LegacyBar(page: int, totalPages: int): seq<LegacyItem> {
    [NumberButton(page, page - 1, page == 1),
     NumberButton(page + 1, page + 1, false),
     NumberButton(page + 2, page + 2, false),
     NumberButton(page + 3, page + 3, false)]
    + (if totalPages < 4 then [Dots, NumberButton(totalPages - 1, totalPages, page == totalPages)] else [])
  }

  /** The page after a click on the item at index `k` (nothing happens for a
      disabled button, the dots or an index past the end). */
  function LegacyNavigate(page: int, totalPages: int, k: nat): int {
    var bar := LegacyBar(page, totalPages);
    if k < |bar| && bar[k].NumberButton? && !bar[k].disabled then bar[k].target else page
  }

  function LegacyBrowse(page: int, totalPages: int, ks: seq<nat>): int
    decreases |ks|
  {
    if ks == [] then page else LegacyBrowse(LegacyNavigate(page, totalPages, ks[0]), totalPages, ks[1..])
  }

  /** Four labelled buttons always, six items exactly when `totalPages < 4`;
      the labels count up from `page`; only the first button can be disabled
      among the four, exactly on page 1. The extra button is labelled one
      less than the page it opens, and is disabled exactly on that page. */
  lemma LegacyBarShape(page: int, totalPages: int)
    ensures var bar := LegacyBar(page, totalPages);
      (|bar| == 6 <==> totalPages < 4) && (|bar| == 4 <==> totalPages >= 4)
      && (forall k :: 0 <= k < 4 ==> bar[k].NumberButton? && bar[k].number == page + k)
      && (forall k :: 0 <= k < 4 ==> (bar[k].disabled <==> k == 0 && page == 1))
      && (forall k :: 1 <= k < 4 ==> bar[k].target == bar[k].number)
      && bar[0].target == page - 1
      && (totalPages < 4 ==> bar[4] == Dots && bar[5].number == bar[5].target - 1 == totalPages - 1
                             && (bar[5].disabled <==> page == totalPages))
  {
  }

  /** A click never moves to a page below 1, given that the page and the page
      count are at least 1. */
  lemma LegacyNavigateAtLeastOne(page: int, totalPages: int, k: nat)
    requires page >= 1 && totalPages >= 1
    ensures LegacyNavigate(page, totalPages, k) >= 1
  {
  }

  lemma {:induction false} LegacyBrowseAtLeastOne(page: int, totalPages: int, ks: seq<nat>)
    requires page >= 1 && totalPages >= 1
    ensures LegacyBrowse(page, totalPages, ks) >= 1
    decreases |ks|
  {
    if ks != [] {
      LegacyNavigateAtLeastOne(page, totalPages, ks[0]);
      LegacyBrowseAtLeastOne(LegacyNavigate(page, totalPages, ks[0]), totalPages, ks[1..]);
    }
  }

  /** There is no upper clamp: clicking the `page + 1` button `n` times moves
      `n` pages forward, however many pages there are. */
  lemma {:induction false} LegacyForward(page: int, totalPages: int, n: nat)
    ensures LegacyBrowse(page, totalPages, seq(n, _ => 1)) == page + n
    decreases n
  {
    if n > 0 {
      assert seq(n, _ => 1)[0] == 1;
      assert seq(n, _ => 1)[1..] == seq(n - 1, _ => 1);
      LegacyForward(page + 1, totalPages, n - 1);
    }
  }

  // ---------------------------------------------------------------------------
  // What the section shows
  // ---------------------------------------------------------------------------

  datatype AppSection =
    | Spinner
    | ErrorText(message: string)
    | Grid(movies: seq<Movie>, bar: seq<LegacyItem>)
    | NoMovies

  function Section(s: ListState, page: int): AppSection {
    if s.loading then Spinner
    else if Truthy(s.errorMessage) then ErrorText(s.errorMessage.value)
    else if |s.movies| > 0 then Grid(s.movies, LegacyBar(page, s.totalPages))
    else NoMovies
  }

  /** On the same state both pages choose the same one of spinner, error,
      list and "No movies found"; the home page then shows the app's list
      with its adult and unmarked titles removed. */
  lemma SameChoiceAsHome(s: ListState, page: int)
    ensures Section(s, page).Spinner? <==> HomePage.AllMoviesSection(s, page).Spinner?
    ensures Section(s, page).ErrorText? <==> HomePage.AllMoviesSection(s, page).ErrorText?
    ensures Section(s, page).ErrorText? ==> Section(s, page).message == HomePage.AllMoviesSection(s, page).message
    ensures Section(s, page).NoMovies? <==> HomePage.AllMoviesSection(s, page).NoMovies?
    ensures Section(s, page).Grid? <==> HomePage.AllMoviesSection(s, page).MovieGrid?
    ensures Section(s, page).Grid? ==>
      Section(s, page).movies == s.movies
      && HomePage.AllMoviesSection(s, page).movies == HomePage.VisibleMovies(Section(s, page).movies)
  {
  }

  // ---------------------------------------------------------------------------
  // The component
  // ---------------------------------------------------------------------------

  class AppPage {
    var searchTerm: string
    var page: int
    var totalPages: int
    var movies: seq<Movie>
    var errorMessage: Option<string>
    var loading: bool

    constructor ()
      ensures searchTerm == "" && page == 1 && Primary() == Initial
    {
      searchTerm := "";
      page := 1;
      totalPages := 1;
      movies := [];
      errorMessage := None;
      loading := false;
    }

    function Primary(): ListState
      reads this
    {
      ListState(movies, totalPages, errorMessage, loading)
    }

    function View(): AppSection
      reads this
    {
      Section(Primary(), page)
    }

    method Type(text: string)
      modifies this
      ensures searchTerm == text && page == old(page) && Primary() == old(Primary())
    {
      searchTerm := text;
    }

    /** `fetchMovies(searchTerm, page)` up to its `await`. */
    method StartFetchMovies() returns (url: string)
      modifies this
      ensures url == AppMoviesUrl(searchTerm, page)
      ensures Primary() == Begin(old(Primary())) && loading
      ensures searchTerm == old(searchTerm) && page == old(page)
    {
      url := AppMoviesUrl(searchTerm, page);
      loading := true;
    }

    /** The rest of `fetchMovies`, once its request has ended with `o`. */
    method FinishFetchMovies(o: Outcome)
      modifies this
      ensures Primary() == Settle(old(Primary()), o) && !loading
      ensures searchTerm == old(searchTerm) && page == old(page)
    {
      if o.Ok? {
        var data := o.data;
        if data.response == Some("False") {
          errorMessage := data.error;
          movies := [];
          loading := false;
          return;
        }
        movies := data.results;
        totalPages := data.totalPages;
      } else {
        errorMessage := Some(GenericError);
      }
      loading := false;
    }

    /** A click on the item at index `k` of the pagination. */
    method Click(k: nat)
      modifies this
      ensures page == LegacyNavigate(old(page), totalPages, k)
      ensures old(page) >= 1 && totalPages >= 1 ==> page >= 1
      ensures searchTerm == old(searchTerm) && Primary() == old(Primary())
    {
      if page >= 1 && totalPages >= 1 {
        LegacyNavigateAtLeastOne(page, totalPages, k);
      }
      page := LegacyNavigate(page, totalPages, k);
    }
  }
}
