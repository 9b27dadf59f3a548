/** The entities of the movie catalogue, cut down to the fields the store
    reads, the outcome of a request to the catalogue API, and the browser's
    key-value storage holding the store's cached state. */
module MovieTypes {

  datatype Genre = Genre(id: int)

  datatype Movie = Movie(id: int, genreIds: seq<int>)

  /** One page of results with the total number of pages the API reports;
      both the store's lists and a list response have this shape. */
  datatype Movies = Movies(results: seq<Movie>, totalPages: int)

  /** A video of a movie; `kind` is the API's `type` field. */
  datatype Video = Video(kind: string, site: string)

  /** The movie detail object; `EmptyDetail` is the empty object `{}`. */
  datatype Detail = EmptyDetail | MovieDetail(id: int)

  datatype Cast = Cast(id: int)

  datatype IndividualMovie = IndividualMovie(detail: Detail, cast: seq<Cast>, trailers: seq<Video>)

  /** What a request to the catalogue API came back with. */
  datatype Response<T> = Succeeded(data: T) | Failed

  /** A value the store keeps in browser storage, in place of its JSON text. */
  datatype Stored =
    | MoviesValue(movies: Movies)
    | GenresValue(genres: seq<Genre>)
    | NumberValue(number: int)
    | IdsValue(ids: seq<int>)
    | TextValue(text: string)
    | DetailValue(detail: Detail)
    | VideosValue(videos: seq<Video>)
    | CastValue(cast: seq<Cast>)

  type Storage = map<string, Stored>

  const MovieGenresKey: string := "movie_genres"
  const MoviesKey: string := "movies"
  const PageKey: string := "page"
  const SearchKey: string := "search"
  const FilteredGenresKey: string := "filtered_genres"
  const MovieDetailKey: string := "movie_detail"
  const MovieTrailersKey: string := "movie_trailers"
  const MovieCastKey: string := "movie_cast"
  const MovieIdKey: string := "movie_id"

  // Reading a key falls back to the source's default when the key is
  // missing; a key holding another kind of value reads the same way.

  function ReadGenres(st: Storage): seq<Genre>
  {
    if MovieGenresKey in st && st[MovieGenresKey].GenresValue? then st[MovieGenresKey].genres else []
  }

  function ReadMovies(st: Storage): Movies
  {
    if MoviesKey in st && st[MoviesKey].MoviesValue? then st[MoviesKey].movies else Movies([], 1)
  }

  function ReadNumber(st: Storage, key: string, default: int): int
  {
    if key in st && st[key].NumberValue? then st[key].number else default
  }

  function ReadSearch(st: Storage): string
  {
    if SearchKey in st && st[SearchKey].TextValue? then st[SearchKey].text else ""
  }

  function ReadIds(st: Storage): seq<int>
  {
    if FilteredGenresKey in st && st[FilteredGenresKey].IdsValue? then st[FilteredGenresKey].ids else []
  }

  function ReadDetail(st: Storage): Detail
  {
    if MovieDetailKey in st && st[MovieDetailKey].DetailValue? then st[MovieDetailKey].detail else EmptyDetail
  }

  function ReadTrailers(st: Storage): seq<Video>
  {
    if MovieTrailersKey in st && st[MovieTrailersKey].VideosValue? then st[MovieTrailersKey].videos else []
  }

  function ReadCast(st: Storage): seq<Cast>
  {
    if MovieCastKey in st && st[MovieCastKey].CastValue? then st[MovieCastKey].cast else []
  }
}
