/** One card of a movie list (src/components/MovieCard.jsx): where it links,
    which poster it shows, and the year and language it prints, each with the
    fallback the card uses when the field is missing or empty. */
module MovieCard {
  import opened Text
  import opened MovieFetch

  const MoviePrefix := "/movie/"
  const PosterBase := "https://image.tmdb.org/t/p/w500/"
  const Placeholder := "/no-movie.png"
  const NotAvailable := "N/A"

  // ---------------------------------------------------------------------------
  // Link
  // ---------------------------------------------------------------------------

  /** The card's link target `/movie/${id}`. */
  function LinkPath(id: nat): string {
    MoviePrefix + Decimal(id)
  }

  /** The `:id` segment of a `/movie/:id` path: what follows the prefix, when
      that is one non-empty segment. */
  function RouteParam(path: string): Option<string> {
    if |path| > |MoviePrefix| && path[..|MoviePrefix|] == MoviePrefix && '/' !in path[|MoviePrefix|..]
    then Some(path[|MoviePrefix|..])
    else None
  }

  /** The link of a card leads to a detail route whose parameter is a
      non-empty string of digits that reads back as the movie's id. */
  lemma LinkRoundTrip(id: nat)
    ensures RouteParam(LinkPath(id)).Some?
    ensures var p := RouteParam(LinkPath(id)).value;
      p != "" && AllDigits(p) && DecimalValue(p) == id
  {
    var d := Decimal(id);
    var path := MoviePrefix + d;
    assert path[..|MoviePrefix|] == MoviePrefix;
    assert path[|MoviePrefix|..] == d;
    assert '/' !in d by {
      assert forall i :: 0 <= i < |d| ==> IsDigit(d[i]);
    }
    DecimalRoundTrip(id);
  }

  /** Different movies link to different paths. */
  lemma LinkInjective(a: nat, b: nat)
    requires LinkPath(a) == LinkPath(b)
    ensures a == b
  {
    LinkRoundTrip(a);
    LinkRoundTrip(b);
  }

  // ---------------------------------------------------------------------------
  // Poster, year, language
  // ---------------------------------------------------------------------------

  /** The poster image: the 500-pixel rendition when `poster_path` is truthy,
      the placeholder otherwise. */
  function PosterSrc(posterPath: Option<string>): (r: string)
    ensures r == Placeholder <==> !Truthy(posterPath)
    ensures Truthy(posterPath) ==> |r| > |PosterBase| && r[..|PosterBase|] == PosterBase && r[|PosterBase|..] == posterPath.value
  {
    if Truthy(posterPath) then PosterBase + posterPath.value else Placeholder
  }

  /** The year: the text before the first `-` of `release_date` (the whole
      date when it has none), or `N/A` when the date is missing or empty. */
  function Year(releaseDate: Option<string>): string {
    if Truthy(releaseDate) then SplitOn(releaseDate.value, "-")[0] else NotAvailable
  }

  /** A truthy date yields its longest prefix free of `-`. */
  lemma YearIsDatePrefix(releaseDate: Option<string>)
    ensures !Truthy(releaseDate) ==> Year(releaseDate) == NotAvailable
    ensures Truthy(releaseDate) ==>
      var d, y := releaseDate.value, Year(releaseDate);
      '-' !in y && |y| <= |d| && d[..|y|] == y && (y == d || d[|y|] == '-')
  {
    if Truthy(releaseDate) {
      var d := releaseDate.value;
      SplitOnFirstPiece(d, '-');
      var y := SplitOn(d, "-")[0];
      if y != d {
        assert d[..|y| + 1] == y + ['-'];
        assert d[..|y|] == d[..|y| + 1][..|y|];
        assert d[|y|] == d[..|y| + 1][|y|];
      }
    }
  }

  /** For an ISO date `YYYY-MM-DD` the year is `YYYY`. */
  lemma YearOfIsoDate(y: string, rest: string)
    requires y != "" && '-' !in y
    ensures Year(Some(y + "-" + rest)) == y
  {
    FindClean(y, "-", rest);
    assert (y + "-" + rest)[..|y|] == y;
  }

  /** The language: `original_language` upper-cased, or `N/A` when it is
      missing or empty. */
  function Language(originalLanguage: Option<string>): (r: string)
    ensures !Truthy(originalLanguage) ==> r == NotAvailable
    ensures Truthy(originalLanguage) ==>
      |r| == |originalLanguage.value|
      && (forall i :: 0 <= i < |r| ==> !IsLower(r[i]))
      && (forall i :: 0 <= i < |r| && !IsLower(originalLanguage.value[i]) ==> r[i] == originalLanguage.value[i])
      && ToUpper(r) == r
  {
    if Truthy(originalLanguage) then
      ToUpperProperties(originalLanguage.value);
      ToUpper(originalLanguage.value)
    else NotAvailable
  }

  /** The card as a whole (the rating is left out). */
  datatype Card = Card(link: string, posterSrc: string, title: string, year: string, language: string)

  function CardOf(m: Movie): Card {
    Card(LinkPath(m.id), PosterSrc(m.posterPath), m.title, Year(m.releaseDate), Language(m.originalLanguage))
  }

  /** A card with no poster, date or language shows the three fallbacks and
      still links to its movie. */
  lemma BareCard(id: nat, title: string)
    ensures var c := CardOf(Movie(id, title, None, None, None, None));
      c.posterSrc == Placeholder && c.year == NotAvailable && c.language == NotAvailable
      && RouteParam(c.link).Some? && DecimalValue(RouteParam(c.link).value) == id
  {
    LinkRoundTrip(id);
  }
}
