/** The detail page (src/pages/MovieDetails.jsx): one fetch per route `id`,
    picking the first YouTube trailer of the payload, and the order in which
    the page decides what to show. Here the error is cleared when a fetch
    starts, so, unlike the list pages, what the page shows after a fetch
    depends only on that fetch. */
module MovieDetails {
  import opened Text
  import opened Urls
  import MovieCard

  const DetailsError := "Failed to fetch movie details"

  // ---------------------------------------------------------------------------
  // Payload
  // ---------------------------------------------------------------------------

  /** One entry of `videos.results`; `kind` is the `type` field. */
  datatype Video = Video(key: string, site: string, kind: string)

  /** `videos`, whose `results` may be missing. */
  datatype VideoList = VideoList(results: Option<seq<Video>>)

  datatype Genre = Genre(name: string)

  /** The detail payload, as far as the page reads it. */
  datatype Details = Details(title: string, genres: seq<Genre>, videos: Option<VideoList>)

  /** How the request ends: an exception with its message (from `fetch` or
      `json()`), a status that is not ok, or a body. */
  datatype DetailsOutcome = Failed(message: string) | NotOk | Ok(data: Details)

  // ---------------------------------------------------------------------------
  // Trailer selection
  // ---------------------------------------------------------------------------

  predicate IsTrailer(v: Video) {
    v.kind == "Trailer" && v.site == "YouTube"
  }

  /** `results.find(...)`: the index of the first YouTube trailer. */
  function TrailerIndex(vs: seq<Video>): (r: Option<nat>)
    ensures r.Some? ==> r.value < |vs| && IsTrailer(vs[r.value]) && forall j :: 0 <= j < r.value ==> !IsTrailer(vs[j])
    ensures r.None? ==> forall j :: 0 <= j < |vs| ==> !IsTrailer(vs[j])
    decreases |vs|
  {
    if vs == [] then None
    else if IsTrailer(vs[0]) then Some(0)
    else match TrailerIndex(vs[1..])
      case None => None
      case Some(i) => Some(i + 1)
  }

  /** `trailer ? trailer.key : null`. */
  function FirstTrailer(vs: seq<Video>): Option<string> {
    match TrailerIndex(vs)
    case None => None
    case Some(i) => Some(vs[i].key)
  }

  /** Videos ahead of the first trailer do not change the choice, and a list
      with no trailer yields none. */
  lemma FirstTrailerSkips(before: seq<Video>, vs: seq<Video>)
    requires forall j :: 0 <= j < |before| ==> !IsTrailer(before[j])
    ensures FirstTrailer(before + vs) == FirstTrailer(vs)
    ensures (forall j :: 0 <= j < |vs| ==> !IsTrailer(vs[j])) ==> FirstTrailer(before + vs) == None
  {
    var all := before + vs;
    assert forall j :: 0 <= j < |before| ==> all[j] == before[j];
    match TrailerIndex(all)
    case None =>
      forall j | 0 <= j < |vs| ensures !IsTrailer(vs[j]) {
        assert all[|before| + j] == vs[j];
      }
    case Some(i) =>
      forall j | 0 <= j < i - |before| ensures !IsTrailer(vs[j]) {
        assert all[|before| + j] == vs[j];
      }
      assert all[i] == vs[i - |before|];
  }

  // ---------------------------------------------------------------------------
  // The fetch
  // ---------------------------------------------------------------------------

  /** The detail request for a movie id and the API key. */
  function DetailsUrl(movieId: string, apiKey: string): string {
    ApiUrl + "/movie/" + movieId + "?" + ("api_key=" + apiKey) + "&" + "append_to_response=videos"
  }

  lemma DetailsUrlShape(movieId: string, apiKey: string)
    ensures DetailsUrl(movieId, apiKey) ==
      ApiUrl + "/movie/" + movieId + "?" + QueryString([("api_key", apiKey), ("append_to_response", "videos")])
  {
    Regroup2(ApiUrl + "/movie/" + movieId, ("api_key", apiKey), ("append_to_response", "videos"));
    assert Field(("api_key", apiKey)) == "api_key=" + apiKey;
    assert Field(("append_to_response", "videos")) == "append_to_response=videos";
  }

  /** Read back, the request names the movie in its path and asks for its
      videos along with it. */
  lemma DetailsUrlReadsBack(movieId: string, apiKey: string)
    requires '?' !in movieId && '#' !in movieId && '&' !in apiKey && '#' !in apiKey
    ensures ParseUrl(DetailsUrl(movieId, apiKey)) ==
      Url(ApiUrl + "/movie/" + movieId, [("api_key", apiKey), ("append_to_response", "videos")])
  {
    DetailsPathPlain(movieId);
    DetailsParamsPlain(apiKey);
    DetailsUrlShape(movieId, apiKey);
    ReadsBackAs(DetailsUrl(movieId, apiKey), ApiUrl + "/movie/" + movieId,
                [("api_key", apiKey), ("append_to_response", "videos")]);
  }

  lemma DetailsPathPlain(movieId: string)
    requires '?' !in movieId && '#' !in movieId
    ensures '?' !in ApiUrl + "/movie/" + movieId && '#' !in ApiUrl + "/movie/" + movieId
  {
    assert ApiUrl + "/movie/" + movieId == ApiUrl + ("/movie/" + movieId);
    ApiPathPlain("/movie/" + movieId);
  }

  lemma DetailsParamsPlain(apiKey: string)
    requires '&' !in apiKey && '#' !in apiKey
    ensures PlainParams([("api_key", apiKey), ("append_to_response", "videos")])
  {
  }

  datatype DetailsState = DetailsState(
    movie: Option<Details>,
    trailerKey: Option<string>,
    loading: bool,
    error: Option<string>)

  /** The first render: `useState(null)`, `useState(null)`, `useState(true)`, `useState(null)`. */
  const InitialDetails := DetailsState(None, None, true, None)

  /** The part of `fetchMovieDetails` before the `await`. */
  function StartDetails(s: DetailsState): DetailsState {
    s.(loading := true, error := None)
  }

  /** The part after it. The trailer is only touched when the payload has
      `videos.results`. */
  function SettleDetails(s: DetailsState, o: DetailsOutcome): DetailsState {
    match o
    case Ok(d) =>
      if d.videos.Some? && d.videos.value.results.Some?
      then s.(movie := Some(d), trailerKey := FirstTrailer(d.videos.value.results.value), loading := false)
      else s.(movie := Some(d), loading := false)
    case NotOk => s.(error := Some(DetailsError), loading := false)
    case Failed(m) => s.(error := Some(m), loading := false)
  }

  function FetchDetails(s: DetailsState, o: DetailsOutcome): DetailsState {
    SettleDetails(StartDetails(s), o)
  }

  /** What each way of ending does, and what it leaves alone. */
  lemma FetchDetailsEffects(s: DetailsState, o: DetailsOutcome)
    ensures StartDetails(s).loading && StartDetails(s).error == None
    ensures !FetchDetails(s, o).loading
    ensures o.Ok? ==> FetchDetails(s, o).movie == Some(o.data) && FetchDetails(s, o).error == None
    ensures o.Ok? && o.data.videos.Some? && o.data.videos.value.results.Some? ==>
      FetchDetails(s, o).trailerKey == FirstTrailer(o.data.videos.value.results.value)
    ensures o.Ok? && !(o.data.videos.Some? && o.data.videos.value.results.Some?) ==>
      FetchDetails(s, o).trailerKey == s.trailerKey
    ensures o.NotOk? ==> FetchDetails(s, o).error == Some(DetailsError)
    ensures o.Failed? ==> FetchDetails(s, o).error == Some(o.message)
    ensures !o.Ok? ==> FetchDetails(s, o).movie == s.movie && FetchDetails(s, o).trailerKey == s.trailerKey
  {
  }

  // ---------------------------------------------------------------------------
  // What the page shows
  // ---------------------------------------------------------------------------

  datatype View =
    | Loading
    | ErrorView(message: string)
    | NoMovie
    | DetailsView(title: string, trailer: Option<string>, genres: string)

  /** `movie.genres.map((genre) => genre.name).join(", ")`. */
  function GenreLine(gs: seq<Genre>): string {
    Join(seq(|gs|, k requires 0 <= k < |gs| => gs[k].name), ", ")
  }

  /** Genre names without commas can be read back from the line, in order. */
  lemma GenreLineReadsBack(gs: seq<Genre>)
    requires |gs| >= 1 && forall k :: 0 <= k < |gs| ==> ',' !in gs[k].name
    ensures SplitOn(GenreLine(gs), ", ") == seq(|gs|, k requires 0 <= k < |gs| => gs[k].name)
  {
    SplitJoin(seq(|gs|, k requires 0 <= k < |gs| => gs[k].name), ", ");
  }

  /** Loading first, then the error, then a missing movie, then the details;
      the trailer block is shown for a truthy key. */
  function ViewOf(s: DetailsState): View {
    if s.loading then Loading
    else if Truthy(s.error) then ErrorView(s.error.value)
    else if s.movie.None? then NoMovie
    else DetailsView(s.movie.value.title, if Truthy(s.trailerKey) then s.trailerKey else None, GenreLine(s.movie.value.genres))
  }

  /** After a fetch, the page shows exactly what that fetch brought: the
      details of a body, the fixed message for a bad status, the exception's
      message when it has one. Whatever happened before does not show. */
  lemma FetchThenView(s: DetailsState, o: DetailsOutcome)
    ensures o.Ok? ==> ViewOf(FetchDetails(s, o)).DetailsView? && ViewOf(FetchDetails(s, o)).title == o.data.title
    ensures o.NotOk? ==> ViewOf(FetchDetails(s, o)) == ErrorView(DetailsError)
    ensures o.Failed? && o.message != "" ==> ViewOf(FetchDetails(s, o)) == ErrorView(o.message)
    ensures o.Failed? && o.message == "" ==> ViewOf(FetchDetails(s, o)) == ViewOf(s.(loading := false, error := None))
    ensures forall t :: ViewOf(FetchDetails(s, o)) == ViewOf(FetchDetails(s.(error := t), o))
  {
  }

  /** A payload without `videos.results` keeps the trailer shown before, so a
      previous movie's trailer can stay on the page. */
  lemma StaleTrailerWithoutVideos(s: DetailsState, d: Details)
    requires d.videos.None? && Truthy(s.trailerKey)
    ensures ViewOf(FetchDetails(s, Ok(d))) == DetailsView(d.title, s.trailerKey, GenreLine(d.genres))
  {
  }

  // ---------------------------------------------------------------------------
  // The component
  // ---------------------------------------------------------------------------

  class DetailsPage {
    var movie: Option<Details>
    var trailerKey: Option<string>
    var loading: bool
    var error: Option<string>

    constructor ()
      ensures State() == InitialDetails
    {
      movie := None;
      trailerKey := None;
      loading := true;
      error := None;
    }

    function State(): DetailsState
      reads this
    {
      DetailsState(movie, trailerKey, loading, error)
    }

    function View(): View
      reads this
    {
      ViewOf(State())
    }

    /** `fetchMovieDetails(movieId)` up to its `await`. */
    method StartFetch(movieId: string, apiKey: string) returns (url: string)
      modifies this
      ensures url == DetailsUrl(movieId, apiKey)
      ensures State() == StartDetails(old(State()))
    {
      loading := true;
      error := None;
      url := DetailsUrl(movieId, apiKey);
    }

    /** The rest of `fetchMovieDetails`, once its request has ended with `o`. */
    method FinishFetch(o: DetailsOutcome)
      modifies this
      ensures State() == SettleDetails(old(State()), o)
    {
      match o {
        case Failed(m) =>
          error := Some(m);
        case NotOk =>
          error := Some(DetailsError);
        case Ok(data) =>
          movie := Some(data);
          if data.videos.Some? && data.videos.value.results.Some? {
            trailerKey := FirstTrailer(data.videos.value.results.value);
          }
      }
      loading := false;
    }

    /** The effect on a new route `id`: a request goes out exactly when the
      id is truthy; otherwise nothing changes. */
    method OnIdChange(id: Option<string>, apiKey: string) returns (request: Option<string>)
      modifies this
      ensures request.Some? <==> Truthy(id)
      ensures Truthy(id) ==> request == Some(DetailsUrl(id.value, apiKey)) && State() == StartDetails(old(State()))
      ensures !Truthy(id) ==> State() == old(State())
    {
      if Truthy(id) {
        var url := StartFetch(id.value, apiKey);
        request := Some(url);
      } else {
        request := None;
      }
    }
  }

  /** Without an id no fetch starts, so the first render's spinner stays. */
  lemma NoIdStaysLoading()
    ensures ViewOf(InitialDetails) == Loading
  {
  }

  /** Opening a card's link gives the page a truthy id that reads back as the
      card's movie, so the page fetches that movie. */
  lemma CardLinkStartsFetch(id: nat)
    ensures var p := MovieCard.RouteParam(MovieCard.LinkPath(id));
      p.Some? && Truthy(p) && AllDigits(p.value) && DecimalValue(p.value) == id
  {
    MovieCard.LinkRoundTrip(id);
  }
}
