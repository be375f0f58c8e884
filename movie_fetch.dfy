/** The movie-list fetch shared by the two list pages (`fetchMovies` in
    src/App.jsx and src/pages/HomePage.jsx, which differ only in their URL).

    The asynchronous function is split at its first `await`: `Begin` is what
    runs before the request goes out (`setLoading(true)`), `Settle` what runs
    when the request has ended, in one of four ways (`Outcome`). Nothing is
    written between that `await` and the second one (`response.json()`), so a
    failure of either is the one outcome `Thrown`. There is no request
    identity: whatever settles last is what the state shows. */
module MovieFetch {
  import opened Text

  /** A movie summary as the list endpoints return it. `adult` is `None` when
      the field is missing. */
  datatype Movie = Movie(
    id: nat,
    title: string,
    posterPath: Option<string>,
    releaseDate: Option<string>,
    originalLanguage: Option<string>,
    adult: Option<bool>)

  /** The decoded JSON body: `Response`, `Error`, `results`, `total_pages`. */
  datatype Payload = Payload(
    response: Option<string>,
    error: Option<string>,
    results: seq<Movie>,
    totalPages: int)

  /** How one request ends: `fetch` or `json()` threw, the status was not ok,
      or a body arrived. */
  datatype Outcome = Thrown | NotOk | Ok(data: Payload)

  const GenericError := "Something went wrong. Please try again later."

  /** The payload reports a failure in its body (`data.Response === "False"`). */
  predicate ReportsFailure(d: Payload) {
    d.response == Some("False")
  }

  /** The list-page state that `fetchMovies` writes. */
  datatype ListState = ListState(
    movies: seq<Movie>,
    totalPages: int,
    errorMessage: Option<string>,
    loading: bool)

  /** The component's first render: `useState([])`, `useState(1)`, `useState(null)`, `useState(false)`. */
  const Initial := ListState([], 1, None, false)

  /** The part of `fetchMovies` before the `await`. */
  function Begin(s: ListState): ListState {
    s.(loading := true)
  }

  /** The part after it: the `try`, `catch` and `finally` blocks. */
  function Settle(s: ListState, o: Outcome): ListState {
    match o
    case Ok(d) =>
      if ReportsFailure(d) then s.(errorMessage := d.error, movies := [], loading := false)
      else s.(movies := d.results, totalPages := d.totalPages, loading := false)
    case _ => s.(errorMessage := Some(GenericError), loading := false)
  }

  /** One whole fetch, when no other fetch settles in between. */
  function Fetch(s: ListState, o: Outcome): ListState {
    Settle(Begin(s), o)
  }

  /** Fetches run one after another. */
  function Run(s: ListState, os: seq<Outcome>): ListState
    decreases |os|
  {
    if os == [] then s else Run(Fetch(s, os[0]), os[1..])
  }

  /** What each way of ending does, and what it leaves alone. */
  lemma SettleEffects(s: ListState, o: Outcome)
    ensures Begin(s).loading
    ensures !Fetch(s, o).loading
    ensures o.Ok? && ReportsFailure(o.data) ==>
      Fetch(s, o).errorMessage == o.data.error && Fetch(s, o).movies == [] && Fetch(s, o).totalPages == s.totalPages
    ensures o.Ok? && !ReportsFailure(o.data) ==>
      Fetch(s, o).movies == o.data.results && Fetch(s, o).totalPages == o.data.totalPages
      && Fetch(s, o).errorMessage == s.errorMessage
    ensures !o.Ok? ==>
      Fetch(s, o).errorMessage == Some(GenericError) && Fetch(s, o).movies == s.movies
      && Fetch(s, o).totalPages == s.totalPages
  {
  }

  /** After any non-empty run of fetches the page is not loading. */
  lemma {:induction false} RunEndsIdle(s: ListState, os: seq<Outcome>)
    requires |os| > 0
    ensures !Run(s, os).loading
    decreases |os|
  {
    if |os| > 1 {
      RunEndsIdle(Fetch(s, os[0]), os[1..]);
    }
  }

  /** Transport failures never touch the list or the page count; a run of
      them leaves only the generic message behind. */
  lemma {:induction false} RunKeepsListThroughTransportFailures(s: ListState, os: seq<Outcome>)
    requires forall k :: 0 <= k < |os| ==> !os[k].Ok?
    ensures Run(s, os).movies == s.movies && Run(s, os).totalPages == s.totalPages
    ensures |os| > 0 ==> Run(s, os).errorMessage == Some(GenericError)
    decreases |os|
  {
    if os != [] {
      RunKeepsListThroughTransportFailures(Fetch(s, os[0]), os[1..]);
    }
  }

  /** Nothing in a fetch clears the error message except a reported failure
      whose own `Error` is missing or empty: once set, a transport failure, a
      successful body or a reported failure with a message leaves a message
      in place. */
  lemma {:induction false} ErrorPersists(s: ListState, os: seq<Outcome>)
    requires Truthy(s.errorMessage)
    requires forall k :: 0 <= k < |os| ==> !(os[k].Ok? && ReportsFailure(os[k].data) && !Truthy(os[k].data.error))
    ensures Truthy(Run(s, os).errorMessage)
    decreases |os|
  {
    if os != [] {
      ErrorPersists(Fetch(s, os[0]), os[1..]);
    }
  }
}
