/** The home page (src/pages/HomePage.jsx): the two request URLs, the two
    fetches and the state they write, the adult filter of the primary list, and
    which of spinner, error, list or "No movies found" each section shows.

    The component's `useState` hooks become the fields of `class Home`; each
    asynchronous fetch becomes a `Start…` method (what runs before its `await`)
    and a `Finish…` method (what runs when the request has ended). The list
    fetch writes exactly what `MovieFetch.Settle` describes. */
module HomePage {
  import opened Text
  import opened Urls
  import opened MovieFetch
  import opened HomePagination

  // ---------------------------------------------------------------------------
  // Request URLs
  // ---------------------------------------------------------------------------

  const SearchPath := ApiUrl + "/search/movie"
  const DiscoverPath := ApiUrl + "/discover/movie"

  /** The list request: a search when the (debounced) query is truthy, the
      popularity-sorted discover list otherwise. */
  function MoviesUrl(query: string, page: int): string {
    if query != "" then
      ApiUrl + "/search/movie" + "?" + ("query=" + query) + "&" + ("page=" + NumberText(page)) + "&" + "include_adult=false"
    else
      ApiUrl + "/discover/movie" + "?" + "sort_by=popularity.desc" + "&" + ("page=" + NumberText(page)) + "&" + "include_adult=false"
  }

  /** The top-rated request; it does not depend on the query. */
  function TopRatedUrl(page: int): string {
    ApiUrl + "/discover/movie" + "?" + "sort_by=vote_count.desc" + "&" + ("page=" + NumberText(page)) + "&" + "limit=10"
    + "&" + "include_adult=false"
  }

  lemma NumberTextPlain(n: int)
    ensures '&' !in NumberText(n) && '=' !in NumberText(n) && '#' !in NumberText(n)
  {
    var d := Decimal(if n < 0 then -n else n);
    assert forall i :: 0 <= i < |d| ==> IsDigit(d[i]);
    assert '&' !in d && '=' !in d && '#' !in d;
    if n < 0 {
      assert NumberText(n) == ['-'] + d;
    }
  }

  lemma PathsPlain()
    ensures '?' !in SearchPath && '?' !in DiscoverPath && '#' !in SearchPath && '#' !in DiscoverPath
  {
    ApiPathPlain("/search/movie");
    ApiPathPlain("/discover/movie");
  }

  /** Each request URL is its path, `?` and its fields joined by `&`. */
  lemma SearchUrlShape(query: string, page: int)
    requires query != ""
    ensures MoviesUrl(query, page) ==
      SearchPath + "?" + QueryString([("query", query), ("page", NumberText(page)), ("include_adult", "false")])
  {
    Regroup3(SearchPath, ("query", query), ("page", NumberText(page)), ("include_adult", "false"));
    assert Field(("query", query)) == "query=" + query;
    assert Field(("page", NumberText(page))) == "page=" + NumberText(page);
    assert Field(("include_adult", "false")) == "include_adult=false";
  }

  lemma DiscoverUrlShape(page: int)
    ensures MoviesUrl("", page) ==
      DiscoverPath + "?" + QueryString([("sort_by", "popularity.desc"), ("page", NumberText(page)), ("include_adult", "false")])
  {
    Regroup3(DiscoverPath, ("sort_by", "popularity.desc"), ("page", NumberText(page)), ("include_adult", "false"));
    assert Field(("sort_by", "popularity.desc")) == "sort_by=popularity.desc";
    assert Field(("page", NumberText(page))) == "page=" + NumberText(page);
    assert Field(("include_adult", "false")) == "include_adult=false";
  }

  lemma TopRatedUrlShape(page: int)
    ensures TopRatedUrl(page) ==
      DiscoverPath + "?" + QueryString([("sort_by", "vote_count.desc"), ("page", NumberText(page)), ("limit", "10"), ("include_adult", "false")])
  {
    var sort := ("sort_by", "vote_count.desc");
    Regroup4(DiscoverPath, sort, ("page", NumberText(page)), ("limit", "10"), ("include_adult", "false"));
    assert Field(sort) == "sort_by=vote_count.desc";
    assert Field(("page", NumberText(page))) == "page=" + NumberText(page);
    assert Field(("limit", "10")) == "limit=10";
    assert Field(("include_adult", "false")) == "include_adult=false";
  }

  /** Read back, a truthy query gives a search for exactly that query on the
      given page, without adult titles. */
  lemma SearchUrlReadsBack(query: string, page: int)
    requires query != "" && '&' !in query && '#' !in query
    ensures ParseUrl(MoviesUrl(query, page)) ==
      Url(SearchPath, [("query", query), ("page", NumberText(page)), ("include_adult", "false")])
  {
    SearchUrlShape(query, page);
    NumberTextPlain(page);
    PathsPlain();
    ParseQuery(SearchPath, [("query", query), ("page", NumberText(page)), ("include_adult", "false")]);
  }

  /** Read back, an empty query gives the popularity-sorted discover list for
      the given page, without adult titles. */
  lemma DiscoverUrlReadsBack(page: int)
    ensures ParseUrl(MoviesUrl("", page)) ==
      Url(DiscoverPath, [("sort_by", "popularity.desc"), ("page", NumberText(page)), ("include_adult", "false")])
  {
    DiscoverUrlShape(page);
    NumberTextPlain(page);
    PathsPlain();
    ParseQuery(DiscoverPath, [("sort_by", "popularity.desc"), ("page", NumberText(page)), ("include_adult", "false")]);
  }

  /** The page field of every request reads back as the page. */
  lemma PageTextReadsBack(page: int)
    requires page >= 0
    ensures NumberText(page) == Decimal(page) && DecimalValue(NumberText(page)) == page
  {
    DecimalRoundTrip(page);
  }

  /** Read back, the top-rated request asks for the vote-count-sorted discover
      list, the given page, ten entries and no adult titles, whatever the
      query. */
  lemma TopRatedUrlReadsBack(page: int)
    ensures ParseUrl(TopRatedUrl(page)) ==
      Url(DiscoverPath, [("sort_by", "vote_count.desc"), ("page", NumberText(page)), ("limit", "10"), ("include_adult", "false")])
  {
    TopRatedUrlShape(page);
    NumberTextPlain(page);
    PathsPlain();
    ParseQuery(DiscoverPath, [("sort_by", "vote_count.desc"), ("page", NumberText(page)), ("limit", "10"), ("include_adult", "false")]);
  }

  // ---------------------------------------------------------------------------
  // The adult filter
  // ---------------------------------------------------------------------------

  /** `movies.filter((movie) => movie.adult === false)`: a missing `adult`
      field does not pass. */
  function VisibleMovies(ms: seq<Movie>): (r: seq<Movie>)
    ensures |r| <= |ms|
    ensures forall m :: m in r <==> m in ms && m.adult == Some(false)
    decreases |ms|
  {
    if ms == [] then []
    else
      assert forall m :: m in ms <==> m == ms[0] || m in ms[1..];
      (if ms[0].adult == Some(false) then [ms[0]] else []) + VisibleMovies(ms[1..])
  }

  /** The filter works element by element, so it keeps the order of the list:
      filtering a concatenation concatenates the filtered parts. */
  lemma {:induction false} VisibleAppend(a: seq<Movie>, b: seq<Movie>)
    ensures VisibleMovies(a + b) == VisibleMovies(a) + VisibleMovies(b)
    decreases |a|
  {
    if a == [] {
      assert a + b == b;
    } else {
      assert (a + b)[0] == a[0];
      assert (a + b)[1..] == a[1..] + b;
      VisibleAppend(a[1..], b);
    }
  }

  /** A list with no adult or unmarked title is shown whole. */
  lemma {:induction false} VisibleAllClean(ms: seq<Movie>)
    requires forall k :: 0 <= k < |ms| ==> ms[k].adult == Some(false)
    ensures VisibleMovies(ms) == ms
    decreases |ms|
  {
    if ms != [] {
      VisibleAllClean(ms[1..]);
    }
  }

  // ---------------------------------------------------------------------------
  // What the two sections show
  // ---------------------------------------------------------------------------

  datatype Section =
    | Spinner
    | ErrorText(message: string)
    | TopRatedRow(movies: seq<Movie>)
    | MovieGrid(movies: seq<Movie>, bar: Bar)
    | NoMovies

  /** The first section: top-rated movies, shown only while the search box is
      empty (the typed text, not the debounced query). */
  function TopRatedSection(loading: bool, errorMessage: Option<string>, topRated: seq<Movie>, searchTerm: string): Section {
    if loading then Spinner
    else if Truthy(errorMessage) then ErrorText(errorMessage.value)
    else if |topRated| > 0 && searchTerm == "" then TopRatedRow(topRated)
    else NoMovies
  }

  /** The "All Movies" section: the filtered list and the pagination bar,
      which are shown whenever the unfiltered list is non-empty. */
  function AllMoviesSection(s: ListState, page: int): Section {
    if s.loading then Spinner
    else if Truthy(s.errorMessage) then ErrorText(s.errorMessage.value)
    else if |s.movies| > 0 then MovieGrid(VisibleMovies(s.movies), PaginationBar(page, s.totalPages))
    else NoMovies
  }

  /** Both sections read the same `loading` and `errorMessage`: they show the
      spinner together and the same error together, and neither shows a list
      while one of those is set. */
  lemma SectionsAgree(s: ListState, page: int, topRated: seq<Movie>, searchTerm: string)
    ensures var top, all := TopRatedSection(s.loading, s.errorMessage, topRated, searchTerm), AllMoviesSection(s, page);
      (top == Spinner <==> s.loading) && (all == Spinner <==> s.loading)
      && (top.ErrorText? <==> all.ErrorText?)
      && (all.ErrorText? ==> top == all && !s.loading && Truthy(s.errorMessage))
      && (all.MovieGrid? || top.TopRatedRow? ==> !s.loading && !Truthy(s.errorMessage))
  {
  }

  /** A grid shows only non-adult movies of the list, and its bar lists 1, the
      window and the last page, with exactly the current page highlighted. */
  lemma GridContents(s: ListState, page: int)
    requires 1 <= page <= s.totalPages
    requires AllMoviesSection(s, page).MovieGrid?
    ensures var g := AllMoviesSection(s, page);
      (forall m :: m in g.movies ==> m in s.movies && m.adult == Some(false))
      && Numbers(g.bar.items) == [1] + Window(page, s.totalPages) + (if s.totalPages > 1 then [s.totalPages] else [])
      && Highlighted(g.bar.items) == [page]
  {
    LayoutNumbers(page, s.totalPages, page > 4, page < s.totalPages - 3 && s.totalPages > 5);
  }

  /** What the section shows once one fetch has settled, by outcome. A
      reported failure without an `Error` text empties the list and shows "No
      movies found"; a successful body shows its list only if no earlier error
      is still set. */
  lemma FetchThenSection(s: ListState, o: Outcome, page: int)
    ensures var all := AllMoviesSection(Fetch(s, o), page);
      (!o.Ok? ==> all == ErrorText(GenericError))
      && (o.Ok? && ReportsFailure(o.data) ==>
            all == (if Truthy(o.data.error) then ErrorText(o.data.error.value) else NoMovies))
      && (o.Ok? && !ReportsFailure(o.data) && !Truthy(s.errorMessage) ==>
            all == (if |o.data.results| > 0
                    then MovieGrid(VisibleMovies(o.data.results), PaginationBar(page, o.data.totalPages))
                    else NoMovies))
      && (o.Ok? && !ReportsFailure(o.data) && Truthy(s.errorMessage) ==> all == ErrorText(s.errorMessage.value))
  {
    SettleEffects(s, o);
  }

  // ---------------------------------------------------------------------------
  // The error message is never cleared
  // ---------------------------------------------------------------------------

  /** As written: after one failed request, a later successful one with a
      non-empty list still shows the old error, on every page. */
  lemma StickyErrorHidesResults(m: Movie)
    ensures var s := Run(Initial, [NotOk, Ok(Payload(None, None, [m], 1))]);
      s.movies == [m] && AllMoviesSection(s, 1) == ErrorText(GenericError)
  {
    var ok := Ok(Payload(None, None, [m], 1));
    var os := [NotOk, ok];
    assert os[0] == NotOk && os[1..] == [ok];
    var s1 := Fetch(Initial, NotOk);
    assert [ok][1..] == [];
    assert Run(Initial, os) == Run(s1, [ok]) == Fetch(s1, ok);
  }

  /** The start of a fetch as intended: the previous error is cleared along
      with setting the spinner. */
  function BeginCleared(s: ListState): ListState {
    s.(loading := true, errorMessage := None)
  }

  function FetchCleared(s: ListState, o: Outcome): ListState {
    Settle(BeginCleared(s), o)
  }

  /** With the error cleared at the start, what the section shows depends only
      on the last request: an error exactly when that request failed with a
      message, and otherwise its list. */
  lemma LastFetchDecides(s: ListState, o: Outcome, page: int)
    ensures Truthy(FetchCleared(s, o).errorMessage) <==> !o.Ok? || (ReportsFailure(o.data) && Truthy(o.data.error))
    ensures o.Ok? && !ReportsFailure(o.data) ==>
      AllMoviesSection(FetchCleared(s, o), page) ==
        (if |o.data.results| > 0
         then MovieGrid(VisibleMovies(o.data.results), PaginationBar(page, o.data.totalPages))
         else NoMovies)
  {
  }

  /** With the error cleared at the start, the failed-then-successful sequence
      above shows its list. */
  lemma ClearedErrorShowsResults(m: Movie)
    requires m.adult == Some(false)
    ensures var s := FetchCleared(FetchCleared(Initial, NotOk), Ok(Payload(None, None, [m], 1)));
      AllMoviesSection(s, 1) == MovieGrid([m], PaginationBar(1, 1))
  {
    VisibleAllClean([m]);
  }

  // ---------------------------------------------------------------------------
  // The component
  // ---------------------------------------------------------------------------

  class Home {
    /** The text in the search box. */
    var searchTerm: string
    /** The search term once the debounce delay has passed. */
    var query: string
    var page: int
    var totalPages: int
    var movies: seq<Movie>
    var topRated: seq<Movie>
    var errorMessage: Option<string>
    var loading: bool

    /** The first render. */
    constructor ()
      ensures searchTerm == "" && query == "" && page == 1 && topRated == []
      ensures Primary() == Initial
    {
      searchTerm := "";
      query := "";
      page := 1;
      totalPages := 1;
      movies := [];
      topRated := [];
      errorMessage := None;
      loading := false;
    }

    /** The part of the state that the list fetch writes. */
    function Primary(): ListState
      reads this
    {
      ListState(movies, totalPages, errorMessage, loading)
    }

    function AllMovies(): Section
      reads this
    {
      AllMoviesSection(Primary(), page)
    }

    function TopRated(): Section
      reads this
    {
      TopRatedSection(loading, errorMessage, topRated, searchTerm)
    }

    /** Typing in the search box. */
    method Type(text: string)
      modifies this
      ensures searchTerm == text
      ensures query == old(query) && page == old(page) && topRated == old(topRated) && Primary() == old(Primary())
    {
      searchTerm := text;
    }

    /** The debounce delay has passed: the query catches up with the box. */
    method DebounceElapsed()
      modifies this
      ensures query == searchTerm == old(searchTerm)
      ensures page == old(page) && topRated == old(topRated) && Primary() == old(Primary())
    {
      query := searchTerm;
    }

    /** `fetchMovies(useDebounceSearch, page)` up to its `await`. */
    method StartFetchMovies() returns (url: string)
      modifies this
      ensures url == MoviesUrl(query, page)
      ensures Primary() == Begin(old(Primary())) && loading
      ensures searchTerm == old(searchTerm) && query == old(query) && page == old(page) && topRated == old(topRated)
    {
      url := MoviesUrl(query, page);
      loading := true;
    }

    /** The rest of `fetchMovies`, once its request has ended with `o`. */
    method FinishFetchMovies(o: Outcome)
      modifies this
      ensures Primary() == Settle(old(Primary()), o) && !loading
      ensures searchTerm == old(searchTerm) && query == old(query) && page == old(page) && topRated == old(topRated)
    {
      if o.Ok? {
        var data := o.data;
        if data.response == Some("False") {
          errorMessage := data.error;
          movies := [];
          loading := false;
          return;
        }
        movies := data.results;
        totalPages := data.totalPages;
      } else {
        errorMessage := Some(GenericError);
      }
      loading := false;
    }

    /** `fetchTopRatedMovies(page)` up to its `await`. */
    method StartFetchTopRated() returns (url: string)
      modifies this
      ensures url == TopRatedUrl(page)
      ensures loading
      ensures movies == old(movies) && totalPages == old(totalPages) && errorMessage == old(errorMessage)
      ensures searchTerm == old(searchTerm) && query == old(query) && page == old(page) && topRated == old(topRated)
    {
      url := TopRatedUrl(page);
      loading := true;
    }

    /** The rest of `fetchTopRatedMovies`: any body replaces the row (there is
      no `Response` check here); a failure sets the generic message and keeps
      the row. */
    method FinishFetchTopRated(o: Outcome)
      modifies this
      ensures !loading
      ensures o.Ok? ==> topRated == o.data.results && errorMessage == old(errorMessage)
      ensures !o.Ok? ==> topRated == old(topRated) && errorMessage == Some(GenericError)
      ensures movies == old(movies) && totalPages == old(totalPages)
      ensures searchTerm == old(searchTerm) && query == old(query) && page == old(page)
    {
      if o.Ok? {
        topRated := o.data.results;
      } else {
        errorMessage := Some(GenericError);
      }
      loading := false;
    }

    /** A click on the pagination bar as it is currently rendered. The page
      stays in `[1, totalPages]` once it is there. */
    method Click(c: Control)
      modifies this
      ensures page == Navigate(old(page), totalPages, c)
      ensures 1 <= old(page) <= totalPages ==> 1 <= page <= totalPages
      ensures searchTerm == old(searchTerm) && query == old(query) && topRated == old(topRated)
      ensures movies == old(movies) && totalPages == old(totalPages)
      ensures errorMessage == old(errorMessage) && loading == old(loading)
    {
      if 1 <= page <= totalPages {
        NavigateInRange(page, totalPages, c);
      }
      page := Navigate(page, totalPages, c);
    }
  }
}
