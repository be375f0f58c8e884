# React movie browser: a Dafny model of its page logic

The application is a small movie browser built on The Movie Database API.

- **Home page.** Lists movies: a search when the search box holds text (debounced), the popularity-sorted discover list otherwise.
  - A row of top-rated movies sits above the list while the box is empty.
  - The list's pagination bar shows page 1, a sliding window of up to four interior pages, two conditional ellipses, the last page, and Prev/Next.
- **App page (earlier version).** Does the same list fetch without the adult exclusion. Its pagination is four fixed buttons and an odd tail.
- **Movie cards.** Each links to `/movie/:id` and shows a poster, a year and a language, with fallbacks for each.
- **Detail page.** Fetches one movie with its videos, picks the first YouTube trailer, and decides between loading, error, "no movie" and the details.

What the model contains:
- Each fetch becomes a pure state transition over the component's `useState` values. It is split at its `await` into a part before the request (`Begin`, `StartDetails`) and a part after it ends in one of its possible ways (`Settle`, `SettleDetails`).
- Each component becomes a class whose fields are those state values. Its methods are the event handlers and the two halves of each fetch, and each method's `ensures` states its new state in full. The fetch halves are proved to write exactly what the pure transition describes.
- Request URLs are modelled as the strings the components build. They are read back by `Urls.ParseUrl`, an independent reading of a URL as a server receives it: the fragment from the first `#` on is never sent; of the rest, the path comes before the first `?`, then `&`-separated `key=value` fields. Field text is taken as written, without percent-decoding.
- The pagination bar is a sequence of items. Its page numbers (`Numbers`) and highlighted pages (`Highlighted`) are read off by separate functions, and the properties are proved about those readings.

The modules are:
- `Text`: truthiness, `indexOf`/`split`/`join`, number text, `toUpperCase`.
- `Urls`: URL rendering and reading.
- `MovieFetch`: the list fetch shared by both list pages.
- `HomePagination`: the home page's bar.
- `HomePage`, `App`, `MovieCard` and `MovieDetails`: one module per component.

## Model

| member | source | states |
|---|---|---|
| Text.Find | src/components/MovieCard.jsx:41 | `indexOf`: the result is an occurrence of the separator and no earlier index is one; `None` exactly when it never occurs |
| Text.SplitOn | src/components/MovieCard.jsx:41 | `split` always yields at least one piece, so `[0]` exists |
| Text.SplitOnFirstPiece | src/components/MovieCard.jsx:41 | the first piece of `split(c)` has no `c`: it is the whole string or the text up to the first `c` |
| Text.SplitJoin | src/pages/MovieDetails.jsx:113 | splitting a `join` on its separator gives the parts back, when no part holds the separator's first character |
| Text.Decimal | src/components/MovieCard.jsx:17 | a number's template text is a non-empty string of digits |
| Text.DecimalRoundTrip | src/components/MovieCard.jsx:17 | the digits of a number read back as that number |
| Text.ToUpperProperties | src/components/MovieCard.jsx:44 | `toUpperCase` keeps the length, leaves no lower-case letter, changes nothing else, and is idempotent |
| Urls.ParseQuery | src/pages/HomePage.jsx:39-41 | a path, `?` and `&`-joined `key=value` fields, none holding `#`, read back as exactly that path and those fields, in order |
| MovieFetch.SettleEffects | src/pages/HomePage.jsx:42-64 | loading is on before the request and off after it. `Response === "False"` sets the payload's error and empties the list. Success sets the list and page count and leaves the error alone. A failure sets the generic message and keeps the list |
| MovieFetch.RunEndsIdle | src/pages/HomePage.jsx:62-64 | after any non-empty run of fetches the page is not loading |
| MovieFetch.RunKeepsListThroughTransportFailures | src/pages/HomePage.jsx:59-61 | failed requests never touch the list or the page count, and leave the generic message |
| MovieFetch.ErrorPersists | src/pages/HomePage.jsx:51-61 | once an error is shown, only a reported failure with a missing or empty `Error` removes it; transport failures, successes and reported failures with a message leave one in place |
| HomePagination.WindowFacts | src/pages/HomePage.jsx:165-169 | for `1 <= page <= totalPages` the window holds `max(0, min(4, totalPages - 2))` consecutive pages in `[2, totalPages - 1]`, including an interior current page |
| HomePagination.WindowNumbers | src/pages/HomePage.jsx:163-173 | the loop that pushes `start..end` builds exactly the window, with its length, bounds and consecutiveness |
| HomePagination.PageButtonsNumbers | src/pages/HomePage.jsx:174-186 | the window's buttons read as the window, and only the current page's button is highlighted |
| HomePagination.AssembleParts | src/pages/HomePage.jsx:152-202 | the bar reads as 1, the window, then the last page when `totalPages > 1`, and the ellipses carry no number |
| HomePagination.LayoutNumbers | src/pages/HomePage.jsx:152-202 | whatever the ellipses, the numbers are 1, the window and `totalPages`; they strictly increase within `[1, totalPages]`, and exactly the current page is highlighted once |
| HomePagination.AssembleNumbers | src/pages/HomePage.jsx:152-202 | 1, an interior range holding the current page, and the last page are strictly increasing, in range, and highlight only the current page |
| HomePagination.AssembleEnds | src/pages/HomePage.jsx:152-202 | page 1 comes first; an ellipsis follows it iff the leading flag is set; the last page closes the bar iff `totalPages > 1`, preceded by an ellipsis iff the trailing flag is set |
| HomePagination.EllipsisPlacement | src/pages/HomePage.jsx:162-191 | the leading ellipsis appears iff `page > 4`, the trailing one iff `page < totalPages - 3 && totalPages > 5`, the last page iff `totalPages > 1` |
| HomePagination.PrevNextSteps | src/pages/HomePage.jsx:144-211 | Prev is disabled iff `page == 1` and otherwise goes back one; Next is disabled iff `page == totalPages` and otherwise goes forward one; both targets lie in `[1, totalPages]` |
| HomePagination.NavigateInRange | src/pages/HomePage.jsx:144-211 | any click on the bar sets a page in `[1, totalPages]` |
| HomePagination.BrowseStaysInRange | src/pages/HomePage.jsx:144-211 | any sequence of clicks keeps the page in `[1, totalPages]` |
| HomePagination.FirstOfTen | src/pages/HomePage.jsx:144-211 | page 1 of 10 gives `1* 2 3 4 5 ... 10`, Prev disabled, Next to page 2 |
| HomePagination.FifthOfTen | src/pages/HomePage.jsx:152-202 | page 5 of 10 gives `1 ... 5* 6 7 8 ... 10` |
| HomePagination.LastOfTen | src/pages/HomePage.jsx:144-211 | page 10 of 10 gives `1 ... 6 7 8 9 10*`, Prev to page 9, Next disabled |
| HomePagination.SinglePage | src/pages/HomePage.jsx:144-211 | one page gives the single highlighted button `1`, Prev and Next disabled |
| HomePagination.AsWrittenMisplacesEllipses | src/pages/HomePage.jsx:162-188 | as written, the ellipses do not mark the skipped pages on page 3 of 10, page 6 of 10 and page 5 of 5 |
| HomePagination.SkippedWithoutMarker | src/pages/HomePage.jsx:162-188 | page 3 of 10 shows `1 3* ...`: page 2 is skipped with no ellipsis |
| HomePagination.MarkerBeforeLastWithoutGap | src/pages/HomePage.jsx:162-188 | page 6 of 10 places an ellipsis between 9 and 10 |
| HomePagination.MarkerAfterFirstWithoutGap | src/pages/HomePage.jsx:162-188 | page 5 of 5 places an ellipsis between 1 and 2 |
| HomePagination.MarkedBarMarksGaps | src/pages/HomePage.jsx:162-202 | with the ellipses placed by the window's ends, every ellipsis stands exactly where pages are skipped; the numbers and the single highlight are those of the bar as written |
| HomePagination.MarkedBarGaps | src/pages/HomePage.jsx:162-202 | the corrected bar marks every gap and only gaps |
| HomePage.SearchUrlShape | src/pages/HomePage.jsx:39-40 | a truthy query's request is the search path with `query`, `page` and `include_adult=false` fields |
| HomePage.DiscoverUrlShape | src/pages/HomePage.jsx:41 | an empty query's request is the discover path with `sort_by=popularity.desc`, `page` and `include_adult=false` |
| HomePage.TopRatedUrlShape | src/pages/HomePage.jsx:68 | the top-rated request is the discover path with `sort_by=vote_count.desc`, `page`, `limit=10` and `include_adult=false` |
| HomePage.SearchUrlReadsBack | src/pages/HomePage.jsx:39-40 | read back, a truthy query's request is a search for exactly that query and page, without adult titles |
| HomePage.DiscoverUrlReadsBack | src/pages/HomePage.jsx:41 | read back, an empty query's request is the popularity-sorted discover list for the page, without adult titles |
| HomePage.TopRatedUrlReadsBack | src/pages/HomePage.jsx:68 | read back, the top-rated request is vote-count sorted, asks for `limit=10`, excludes adult titles, and does not depend on the query |
| HomePage.PageTextReadsBack | src/pages/HomePage.jsx:40-41 | the page field reads back as the page |
| HomePage.VisibleMovies | src/pages/HomePage.jsx:137-141 | the grid holds exactly the listed movies whose `adult` is `false` (a missing field does not pass), and no more of them than the list |
| HomePage.VisibleAppend | src/pages/HomePage.jsx:137-141 | the filter keeps list order: it distributes over concatenation |
| HomePage.VisibleAllClean | src/pages/HomePage.jsx:137-141 | a list with no adult or unmarked movie is shown whole |
| HomePage.SectionsAgree | src/pages/HomePage.jsx:106-134 | both sections show the spinner together and the same error together, and neither shows a list while loading or in error |
| HomePage.GridContents | src/pages/HomePage.jsx:134-202 | a grid shows only non-adult listed movies; its bar reads 1, the window and the last page, with exactly the current page highlighted |
| HomePage.FetchThenSection | src/pages/HomePage.jsx:42-64 | after one fetch, by outcome: the generic error; the reported error or "No movies found"; the new list when no error was set; the old error otherwise |
| HomePage.StickyErrorHidesResults | src/pages/HomePage.jsx:42-61 | as written, a failed request followed by a successful one holds the new list but still shows the old error, whatever the movie |
| HomePage.LastFetchDecides | src/pages/HomePage.jsx:42-64 | clearing the error when a fetch starts makes the error shown iff the last request failed with a message, and otherwise shows its list |
| HomePage.ClearedErrorShowsResults | src/pages/HomePage.jsx:42-64 | with that clearing, the failed-then-successful sequence shows its list |
| HomePage.Home.constructor | src/pages/HomePage.jsx:21-28 | first render: empty box and query, page 1, empty lists, no error, not loading |
| HomePage.Home.Type | src/pages/HomePage.jsx:104 | typing changes only the search box text |
| HomePage.Home.DebounceElapsed | src/pages/HomePage.jsx:30-36 | when the debounce fires, the query becomes the box text and nothing else changes |
| HomePage.Home.StartFetchMovies | src/pages/HomePage.jsx:38-42 | the list fetch requests the URL for the debounced query and page and turns loading on |
| HomePage.Home.FinishFetchMovies | src/pages/HomePage.jsx:43-64 | the end of the list fetch writes exactly the shared transition `Settle` and leaves the rest alone |
| HomePage.Home.StartFetchTopRated | src/pages/HomePage.jsx:67-69 | the top-rated fetch requests its URL for the page and turns loading on |
| HomePage.Home.FinishFetchTopRated | src/pages/HomePage.jsx:70-83 | any body replaces the top-rated row; a failure sets the generic message and keeps the row; loading ends off |
| HomePage.Home.Click | src/pages/HomePage.jsx:144-211 | a click sets the page its control names, which stays in `[1, totalPages]` |
| App.AppSearchUrlShape | src/App.jsx:27 | a truthy query's request is the search path with `query` and `page` fields only |
| App.AppDiscoverUrlShape | src/App.jsx:27 | an empty query's request is the discover path with `sort_by=popularity.desc` and `page` only |
| App.AppSearchUrlReadsBack | src/App.jsx:27 | read back, a truthy query's request is a search for exactly that query and page |
| App.AppDiscoverUrlReadsBack | src/App.jsx:27 | read back, an empty query's request is the popularity-sorted discover list for the page |
| App.AppMoviesUrlReadsBack | src/App.jsx:27 | read back, the request is the search or the discover list, chosen by the query's truthiness, with no `include_adult` field |
| App.HomeAddsAdultExclusion | src/App.jsx:27 | the home page requests the same path and fields as the app page, plus `include_adult=false` |
| App.LegacyBarShape | src/App.jsx:87-95 | four buttons labelled `page..page+3`. The first goes back a page and is disabled iff `page == 1`; the others are never disabled. A `...` and a button labelled `totalPages - 1` that opens `totalPages` appear iff `totalPages < 4` |
| App.LegacyNavigateAtLeastOne | src/App.jsx:87-94 | from page 1 or more, one click never sets a page below 1 |
| App.LegacyBrowseAtLeastOne | src/App.jsx:87-94 | no sequence of clicks sets a page below 1 |
| App.LegacyForward | src/App.jsx:88 | the `page + 1` button has no upper clamp: `n` clicks move `n` pages on, whatever `totalPages` is |
| App.SameChoiceAsHome | src/App.jsx:73-101 | on the same state, both pages pick the same one of spinner, error, list and "No movies found"; the home page's list is the app's list filtered |
| App.AppPage.constructor | src/App.jsx:19-24 | first render: empty box, page 1, empty list, no error, not loading |
| App.AppPage.Type | src/App.jsx:69 | typing changes only the search box |
| App.AppPage.StartFetchMovies | src/App.jsx:26-28 | the fetch requests the app URL for the box text and page and turns loading on |
| App.AppPage.FinishFetchMovies | src/App.jsx:29-51 | the end of the fetch writes exactly the shared transition `Settle`; loading ends off |
| App.AppPage.Click | src/App.jsx:87-94 | a click sets the page its button targets, never below 1 |
| MovieCard.LinkRoundTrip | src/components/MovieCard.jsx:17 | the card's link is a `/movie/:id` route whose parameter is a digit string that reads back as the id |
| MovieCard.LinkInjective | src/components/MovieCard.jsx:17 | different movies link to different paths |
| MovieCard.PosterSrc | src/components/MovieCard.jsx:21-25 | the placeholder is shown iff `poster_path` is not truthy; otherwise the URL is the w500 base followed by the path |
| MovieCard.YearIsDatePrefix | src/components/MovieCard.jsx:41 | the year is the longest dash-free prefix of a truthy date, and `N/A` for a missing or empty one |
| MovieCard.YearOfIsoDate | src/components/MovieCard.jsx:41 | for `YYYY-...` the year is `YYYY` |
| MovieCard.Language | src/components/MovieCard.jsx:44 | `N/A` for a missing or empty language, otherwise the language upper-cased: same length, no lower-case letter, other characters kept |
| MovieCard.BareCard | src/components/MovieCard.jsx:17-44 | a movie with no poster, date or language shows the three fallbacks and still links to itself |
| MovieDetails.TrailerIndex | src/pages/MovieDetails.jsx:36-38 | `find`: the index of a YouTube trailer with none before it, or `None` when there is none |
| MovieDetails.FirstTrailerSkips | src/pages/MovieDetails.jsx:36-39 | non-trailers ahead of the first trailer do not change the choice; a list without one yields no key |
| MovieDetails.DetailsUrlShape | src/pages/MovieDetails.jsx:26 | the request is `/movie/` and the id, then the `api_key` and `append_to_response=videos` fields |
| MovieDetails.DetailsUrlReadsBack | src/pages/MovieDetails.jsx:26 | read back, the request names the movie in its path and asks for its videos, with the key |
| MovieDetails.FetchDetailsEffects | src/pages/MovieDetails.jsx:21-46 | starting sets loading and clears the error. A body sets the movie, and sets the trailer only when `videos.results` is present. A bad status sets the fixed message, an exception its own message, and both keep the movie. Loading ends off |
| MovieDetails.GenreLineReadsBack | src/pages/MovieDetails.jsx:113 | the genre line holds the names in input order: split on `", "` it gives them back |
| MovieDetails.FetchThenView | src/pages/MovieDetails.jsx:21-57 | after a fetch the page shows that fetch's details or error (loading, then error, then no movie, then details), whatever error came before |
| MovieDetails.StaleTrailerWithoutVideos | src/pages/MovieDetails.jsx:35-40 | a payload without videos keeps the previous trailer on the page |
| MovieDetails.NoIdStaysLoading | src/pages/MovieDetails.jsx:18 | the first render shows "Loading..." |
| MovieDetails.CardLinkStartsFetch | src/pages/MovieDetails.jsx:48-51 | a card's link gives the page a truthy id that reads back as the card's movie |
| MovieDetails.DetailsPage.constructor | src/pages/MovieDetails.jsx:16-19 | first render: no movie, no trailer, loading, no error |
| MovieDetails.DetailsPage.StartFetch | src/pages/MovieDetails.jsx:21-28 | the fetch requests the detail URL, turns loading on and clears the error |
| MovieDetails.DetailsPage.FinishFetch | src/pages/MovieDetails.jsx:29-45 | the end of the fetch writes exactly `SettleDetails` |
| MovieDetails.DetailsPage.OnIdChange | src/pages/MovieDetails.jsx:48-53 | a request goes out iff the route id is truthy; otherwise the state does not change |

## Left out

- Network I/O: `fetch`, `response.json()`, the request headers and the API key. A request is modelled by the URL it asks for. Its result is an `Outcome`/`DetailsOutcome` value given by the caller, and the key is a parameter of `DetailsUrl`.
- The debounce timer: the delay belongs to an external library, so the model has only the moment it fires (`Home.DebounceElapsed`).
- Interleaving of concurrent fetches. The two home-page fetches share `loading` and `errorMessage`, and a new search can overlap an old one. The model states what each `Finish…` step does in whatever order the caller settles them, and proves nothing about overlaps. The code has no guard against stale responses.
- `vote_average.toFixed(1)`: floating-point formatting.
- JSX markup, CSS classes, routing, the trailer iframe, the `console` calls, and the detail page's other fields (poster, original title, release date, rating, overview, runtime, language). These are markup with no decisions.
- src/pages/NotFound.jsx is not part of this model: it is static markup.
- Text.ToUpperProperties: models `toUpperCase` on the ASCII letters only, because Unicode case mapping is not modelled.
- URL encoding: the components paste the query, the movie id and the key into the URL without encoding them, and `ParseUrl` does not percent-decode. A query holding `&` turns into extra fields, one holding `#` cuts the URL short (for "#Alive" the request ends at `query=`), and `%` escapes or `+` would be decoded by the server into other text. The read-back lemmas below cover only text free of the separators, and state the raw field text.
- HomePage.SearchUrlReadsBack: requires a query without `&` or `#`, because the query is sent unencoded (see URL encoding above).
- App.AppSearchUrlReadsBack: requires a query without `&` or `#`, for the same reason.
- App.AppMoviesUrlReadsBack: requires a query without `&` or `#`, for the same reason.
- App.HomeAddsAdultExclusion: requires a query without `&` or `#`, for the same reason. With a `#` in the query, neither page's request carries its later fields, `include_adult=false` included.
- MovieDetails.DetailsUrlReadsBack: requires an id without `?` or `#` and a key without `&` or `#`, for the same reason.
- Page bounds after a new search: `HomePagination.NavigateInRange` and `Home.Click` assume `1 <= page <= totalPages`. The source does not reset `page` when a search brings fewer pages, so this bound need not hold after a search.
- The classes `Home` and `AppPage` keep the error handling as written. The corrected start of a fetch (`HomePage.BeginCleared`) is a function beside them, not a change to them.
- Stale responses: the code has no request identity and applies whichever response settles last; the model has none either.

## Findings

| source | as written | input that shows it | evidently intended | confidence | as-written member | corrected member |
|---|---|---|---|---|---|---|
| src/pages/HomePage.jsx:162-188 | the ellipses are shown on `page > 4` and on `page < totalPages - 3 && totalPages > 5`, which do not track the window's ends | page 3 of 10 gives `1 3* 4 5 6 ... 10` (page 2 skipped, no marker); page 6 of 10 gives `... 9 ... 10`; page 5 of 5 gives `1 ... 2` | an ellipsis exactly where the window leaves pages out: after 1 when the window starts past 2, before the last page when it ends before `totalPages - 1` | medium, not executed | HomePagination.AsWrittenMisplacesEllipses | HomePagination.MarkedBarMarksGaps |
| src/pages/HomePage.jsx:42-61 | `errorMessage` is set on failure and never cleared, so the error branch hides every later result (src/App.jsx:28-48 does the same) | a not-ok response, then a successful one with a non-empty list: the list is stored but the page keeps showing "Something went wrong" | clear the error when a fetch starts, so the last request decides what is shown | high, not executed | HomePage.StickyErrorHidesResults | HomePage.LastFetchDecides |
