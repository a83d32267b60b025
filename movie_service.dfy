/** The movie service (src/services/movie.ts): record mappers from TMDb
    payloads to the API's responses, with image-URL prefixing, and the failure
    policy that turns anything thrown into one DomainError. The TMDb client and
    the rating statistics lookup are inputs: they are not part of this model. */
module MovieService {
  import opened Common
  import opened Errors

  /** The prefix every image URL starts with. */
  const BaseImageUrl := "https://image.tmdb.org/t/p"
  /** The leading part of every failure message of the service. */
  const ClientErrorPrefix := "Tmdb client error: "

  datatype TmdbGenre = TmdbGenre(name: string)

  /** TMDb's movie details; a poster or backdrop path may be null. */
  datatype TmdbMovieDetails = TmdbMovieDetails(
    id: nat,
    title: string,
    overview: string,
    releaseDate: string,
    runtime: int,
    genres: seq<TmdbGenre>,
    posterPath: Option<string>,
    backdropPath: Option<string>)

  /** The locally computed statistics, taken as they come. */
  datatype MovieRatingStats = MovieRatingStats(reviewCount: nat, averageRating: Option<real>)

  datatype MovieDetailsResponse = MovieDetailsResponse(
    id: nat,
    title: string,
    overview: string,
    releaseDate: string,
    runtime: int,
    genres: seq<string>,
    posterPath: Option<string>,
    backdropPath: Option<string>,
    averageRating: Option<real>,
    reviewCount: nat)

  datatype TmdbMoviePageResult = TmdbMoviePageResult(id: nat, title: string, releaseDate: string, posterPath: Option<string>)
  datatype TmdbMoviePage = TmdbMoviePage(page: nat, results: seq<TmdbMoviePageResult>, totalPages: nat, totalResults: nat)

  datatype MoviePageResultResponse = MoviePageResultResponse(id: nat, title: string, releaseDate: string, posterPath: Option<string>)
  datatype MoviePageResponse = MoviePageResponse(page: nat, results: seq<MoviePageResultResponse>, totalPages: nat, totalResults: nat)

  /** A value thrown inside the service: an `Error` object with its message,
      or any other value, shown as the text it interpolates to. */
  datatype Thrown = ErrorObject(message: string) | OtherValue(text: string)

  /** The TMDb client and the statistics lookup, as the service sees them. */
  datatype Sources = Sources(
    getMovie: string -> Result<TmdbMovieDetails, Thrown>,
    getPopularMovies: Result<TmdbMoviePage, Thrown>,
    getMovieSearch: string -> Result<TmdbMoviePage, Thrown>,
    findMovieReviewStats: string -> Result<MovieRatingStats, Thrown>)

  /** An image path under a size: a null or empty path (falsy) gives null;
      otherwise the URL is the base, the size and then the path, so that
      stripping the base and size gives the path back. */
  function ImageUrl(size: string, path: Option<string>): (url: Option<string>)
    ensures url.Some? <==> path.Some? && path.value != ""
    ensures url.Some? ==>
      && BaseImageUrl + size <= url.value
      && url.value[|BaseImageUrl + size|..] == path.value
  {
    if path.Some? && path.value != "" then Some(BaseImageUrl + size + path.value) else None
  }

  /** `genres.map(genre => genre.name)`: same length, same order. */
  function GenreNames(genres: seq<TmdbGenre>): (names: seq<string>)
    ensures |names| == |genres|
    ensures forall i | 0 <= i < |genres| :: names[i] == genres[i].name
  {
    if genres == [] then [] else [genres[0].name] + GenreNames(genres[1..])
  }

  /** `mapTmdbMovieDetails`: the details copied field by field, genres reduced
      to their names, images under "/w780" and "/original", and the two
      statistics copied from the stats input. */
  function MapTmdbMovieDetails(movie: TmdbMovieDetails, stats: MovieRatingStats): (r: MovieDetailsResponse)
    ensures r.id == movie.id && r.title == movie.title && r.overview == movie.overview
    ensures r.releaseDate == movie.releaseDate && r.runtime == movie.runtime
    ensures |r.genres| == |movie.genres|
    ensures forall i | 0 <= i < |movie.genres| :: r.genres[i] == movie.genres[i].name
    ensures r.posterPath.Some? <==> movie.posterPath.Some? && movie.posterPath.value != ""
    ensures r.posterPath.Some? ==> r.posterPath.value == BaseImageUrl + "/w780" + movie.posterPath.value
    ensures r.backdropPath.Some? <==> movie.backdropPath.Some? && movie.backdropPath.value != ""
    ensures r.backdropPath.Some? ==> r.backdropPath.value == BaseImageUrl + "/original" + movie.backdropPath.value
    ensures r.averageRating == stats.averageRating && r.reviewCount == stats.reviewCount
  {
    MovieDetailsResponse(
      movie.id, movie.title, movie.overview, movie.releaseDate, movie.runtime,
      GenreNames(movie.genres),
      ImageUrl("/w780", movie.posterPath),
      ImageUrl("/original", movie.backdropPath),
      stats.averageRating, stats.reviewCount)
  }

  /** One page entry: copied, with the poster under "/w500". */
  function MapPageResult(movie: TmdbMoviePageResult): MoviePageResultResponse
  {
    MoviePageResultResponse(movie.id, movie.title, movie.releaseDate, ImageUrl("/w500", movie.posterPath))
  }

  /** `results.map(...)`: same length, same order, each entry mapped. */
  function MapPageResults(results: seq<TmdbMoviePageResult>): (r: seq<MoviePageResultResponse>)
    ensures |r| == |results|
    ensures forall i | 0 <= i < |results| ::
      && r[i].id == results[i].id && r[i].title == results[i].title
      && r[i].releaseDate == results[i].releaseDate
      && (r[i].posterPath.Some? <==> results[i].posterPath.Some? && results[i].posterPath.value != "")
      && (r[i].posterPath.Some? ==> r[i].posterPath.value == BaseImageUrl + "/w500" + results[i].posterPath.value)
  {
    if results == [] then [] else [MapPageResult(results[0])] + MapPageResults(results[1..])
  }

  /** `mapTmdbMoviePage`: results mapped in order; the three counters copied. */
  function MapTmdbMoviePage(page: TmdbMoviePage): (r: MoviePageResponse)
    ensures r.page == page.page && r.totalPages == page.totalPages && r.totalResults == page.totalResults
    ensures |r.results| == |page.results|
    ensures forall i | 0 <= i < |page.results| :: r.results[i] == MapPageResult(page.results[i])
  {
    MoviePageResponse(page.page, MapPageResults(page.results), page.totalPages, page.totalResults)
  }

  /** The text a thrown value contributes to the message. */
  function Describe(e: Thrown): string
  {
    match e
    case ErrorObject(message) => message
    case OtherValue(text) => text
  }

  /** The catch block: one DomainError carrying the prefix and the description. */
  function ClientError(e: Thrown): (err: DomainError)
    ensures ClientErrorPrefix <= err.message
    ensures err.message[|ClientErrorPrefix|..] == Describe(e)
  {
    DomainError(ClientErrorPrefix + Describe(e))
  }

  /** `getMovie`: the client is asked first and the statistics only after it
      succeeded; any failure of either is the one DomainError of the call, and
      there is no partial result. */
  function GetMovie(sources: Sources, tmdbMovieId: string): (r: Result<MovieDetailsResponse, DomainError>)
    ensures r.Ok? <==> sources.getMovie(tmdbMovieId).Ok? && sources.findMovieReviewStats(tmdbMovieId).Ok?
    ensures r.Ok? ==> r.value == MapTmdbMovieDetails(sources.getMovie(tmdbMovieId).value,
                                                     sources.findMovieReviewStats(tmdbMovieId).value)
    ensures r.Err? ==> ClientErrorPrefix <= r.error.message
    ensures sources.getMovie(tmdbMovieId).Err? ==> r == Err(ClientError(sources.getMovie(tmdbMovieId).error))
  {
    match sources.getMovie(tmdbMovieId)
    case Err(e) => Err(ClientError(e))
    case Ok(movie) =>
      match sources.findMovieReviewStats(tmdbMovieId)
      case Err(e) => Err(ClientError(e))
      case Ok(stats) => Ok(MapTmdbMovieDetails(movie, stats))
  }

  /** The shared shape of `getPopularMovies` and `getMovieSearch`. */
  function PageOrError(fetched: Result<TmdbMoviePage, Thrown>): (r: Result<MoviePageResponse, DomainError>)
    ensures r.Ok? <==> fetched.Ok?
    ensures r.Ok? ==> r.value == MapTmdbMoviePage(fetched.value)
    ensures r.Err? ==> r.error == ClientError(fetched.error)
  {
    match fetched
    case Err(e) => Err(ClientError(e))
    case Ok(page) => Ok(MapTmdbMoviePage(page))
  }

  /** `getPopularMovies`: the mapped popular page, or one DomainError. */
  function GetPopularMovies(sources: Sources): (r: Result<MoviePageResponse, DomainError>)
    ensures r.Ok? <==> sources.getPopularMovies.Ok?
    ensures r.Ok? ==> r.value == MapTmdbMoviePage(sources.getPopularMovies.value)
    ensures r.Err? ==> ClientErrorPrefix <= r.error.message
  {
    PageOrError(sources.getPopularMovies)
  }

  /** `getMovieSearch`: the mapped search page, or one DomainError. */
  function GetMovieSearch(sources: Sources, query: string): (r: Result<MoviePageResponse, DomainError>)
    ensures r.Ok? <==> sources.getMovieSearch(query).Ok?
    ensures r.Ok? ==> r.value == MapTmdbMoviePage(sources.getMovieSearch(query).value)
    ensures r.Err? ==> ClientErrorPrefix <= r.error.message
  {
    PageOrError(sources.getMovieSearch(query))
  }

  /** The search route's choice: an absent or empty query falls back to the
      popular movies instead of being an error. */
  function SearchOrPopular(sources: Sources, query: Option<string>): (r: Result<MoviePageResponse, DomainError>)
    ensures query.None? || query.value == "" ==> r == GetPopularMovies(sources)
    ensures query.Some? && query.value != "" ==> r == GetMovieSearch(sources, query.value)
  {
    if query.None? || query.value == "" then GetPopularMovies(sources) else GetMovieSearch(sources, query.value)
  }
}
