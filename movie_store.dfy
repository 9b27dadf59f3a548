/** The movie store: the client-side state behind the catalogue's list,
    search and detail views, and the fetch operations that update it. Each
    fetch takes the outcome of the one API request it would issue. */
module MovieStore {
  import opened MovieTypes
  import opened JsCollections
  import opened MovieLogic

  class Store {
    /** Browser storage, which the store reads at start-up and writes after each fetch. */
    var storage: Storage
    /** The genre catalogue, and the part of it the current results use. */
    var movieGenres: seq<Genre>
    var filteredMovieGenres: seq<Genre>
    /** The accumulated results, and those of them matching the genre selection. */
    var movies: Movies
    var filteredMovies: Movies
    var individualMovie: IndividualMovie
    /** The next page to request. */
    var page: int
    var searchQuery: string
    /** The selected genre ids: a JavaScript `Set`, so distinct and in insertion order. */
    var filteredGenreIds: seq<int>
    var isFetching: bool
    var isGenreFetching: bool

    /** The selection never repeats a genre id, as a `Set` cannot; every fetch keeps this. */
    ghost predicate Valid()
      reads this
    {
      Distinct(filteredGenreIds)
    }

    /** The store as set up from storage when the page loads: both result
        lists come from the `movies` key. */
    constructor (st: Storage)
      ensures Valid()
      ensures storage == st
      ensures movieGenres == ReadGenres(st) && filteredMovieGenres == movieGenres
      ensures movies == ReadMovies(st) && filteredMovies == movies
      ensures individualMovie == IndividualMovie(EmptyDetail, [], [])
      ensures page == ReadNumber(st, PageKey, 1)
      ensures searchQuery == ReadSearch(st)
      ensures forall g :: g in filteredGenreIds <==> g in ReadIds(st)
      ensures Distinct(ReadIds(st)) ==> filteredGenreIds == ReadIds(st)
      ensures !isFetching && !isGenreFetching
    {
      storage := st;
      movieGenres := ReadGenres(st);
      filteredMovieGenres := movieGenres;
      movies := ReadMovies(st);
      filteredMovies := ReadMovies(st);
      individualMovie := IndividualMovie(EmptyDetail, [], []);
      page := ReadNumber(st, PageKey, 1);
      searchQuery := ReadSearch(st);
      filteredGenreIds := NewSet(ReadIds(st));
      NewSetMembers(ReadIds(st));
      if Distinct(ReadIds(st)) {
        NewSetOfDistinct(ReadIds(st));
      }
      isFetching := false;
      isGenreFetching := false;
    }

    /** Loads the genre catalogue, unless one is already held; a failed
        request is raised to the caller. */
    method FetchMovieGenres(outcome: Response<seq<Genre>>) returns (raised: bool)
      requires Valid()
      modifies this
      ensures Valid()
      ensures |old(movieGenres)| > 0 ==> !raised && unchanged(this)
      ensures |old(movieGenres)| == 0 ==>
        && raised == outcome.Failed?
        && !isGenreFetching
        && unchanged(this`movies, this`filteredMovies, this`individualMovie, this`page,
                     this`searchQuery, this`filteredGenreIds, this`isFetching)
        && (outcome.Succeeded? ==>
              && movieGenres == outcome.data
              && filteredMovieGenres == outcome.data
              && storage == old(storage)[MovieGenresKey := GenresValue(outcome.data)])
        && (outcome.Failed? ==> unchanged(this`movieGenres, this`filteredMovieGenres, this`storage))
    {
      if |movieGenres| > 0 {
        return false;
      }
      isGenreFetching := true;
      match outcome {
        case Succeeded(genres) =>
          movieGenres := genres;
          filteredMovieGenres := movieGenres;
          storage := storage[MovieGenresKey := GenresValue(movieGenres)];
          raised := false;
        case Failed =>
          raised := true;
      }
      isGenreFetching := false;
    }

    /** A list fetch is over: the flag is cleared, and the catalogue, the
        detail view and the query are as they were. */
    twostate predicate FetchSettled()
      reads this
    {
      && !isFetching
      && movieGenres == old(movieGenres)
      && individualMovie == old(individualMovie)
      && searchQuery == old(searchQuery)
      && isGenreFetching == old(isGenreFetching)
    }

    /** A failed list fetch: the lists, the selection, the page and storage are as they were. */
    twostate predicate ListsUnchanged()
      reads this
    {
      && movies == old(movies)
      && filteredMovies == old(filteredMovies)
      && filteredMovieGenres == old(filteredMovieGenres)
      && filteredGenreIds == old(filteredGenreIds)
      && page == old(page)
      && storage == old(storage)
    }

    /** A page of search results merged into the filtered list: `movies`
        takes the merged list, and the genres, the selection and the
        filtered list are narrowed to the genres it carries. */
    twostate predicate SearchPageMerged(response: Movies)
      reads this
    {
      var merged := DedupeById(old(filteredMovies.results) + response.results);
      var present := GenreIdsOf(merged);
      var selection := PruneSelection(old(filteredGenreIds), present);
      var filtered := Movies(MatchingSelection(merged, selection), response.totalPages);
      && !isFetching
      && movieGenres == old(movieGenres)
      && individualMovie == old(individualMovie)
      && searchQuery == old(searchQuery)
      && isGenreFetching == old(isGenreFetching)
      && movies == old(movies).(results := merged)
      && filteredMovieGenres == AvailableGenres(old(movieGenres), present)
      && filteredGenreIds == selection
      && filteredMovies == filtered
      && page == old(page) + 1
      && storage == old(storage)[FilteredGenresKey := IdsValue(selection)]
                                [MoviesKey := MoviesValue(filtered)]
                                [PageKey := NumberValue(old(page) + 1)]
    }

    /** The state a title search leaves behind, relative to the state before it. */
    twostate predicate SearchedByTitle(outcome: Response<Movies>)
      reads this
    {
      match outcome
      case Failed => FetchSettled() && ListsUnchanged()
      case Succeeded(response) => SearchPageMerged(response)
    }

    /** Requests the next page of results for the search query and merges it
        into the filtered list; a failure is only logged. Either way
        `isFetching` ends cleared. */
    method FetchMoviesByTitle(outcome: Response<Movies>)
      requires Valid()
      modifies this
      ensures Valid()
      ensures SearchedByTitle(outcome)
    {
      match outcome {
        case Failed =>
          isFetching := false;
        case Succeeded(response) =>
          MergeSearchPage(response);
      }
    }

    /** The body of the title search once the request has returned a page,
        with the `finally` clause that clears `isFetching`. The fields are
        written in one assignment; nothing reads them in between. */
    method MergeSearchPage(response: Movies)
      requires Valid()
      modifies this
      ensures Valid()
      ensures SearchPageMerged(response)
    {
      // push the page, then rebuild the list through a Map keyed by id
      var merged := DedupeById(filteredMovies.results + response.results);
      var movieGenreIds := GenreIdsOf(merged);
      var selection := PruneSelection(filteredGenreIds, movieGenreIds);
      PruneSelectionDistinct(filteredGenreIds, movieGenreIds);
      var filtered := Movies(MatchingSelection(merged, selection), response.totalPages);
      var next := page + 1;
      movies, filteredMovieGenres, filteredGenreIds, filteredMovies, page, storage, isFetching :=
        movies.(results := merged), AvailableGenres(movieGenres, movieGenreIds), selection, filtered, next,
        storage[FilteredGenresKey := IdsValue(selection)][MoviesKey := MoviesValue(filtered)][PageKey := NumberValue(next)],
        false;
    }

    /** A page of popular movies merged into the full list: the genres and
        the filtered list are narrowed to it; the selection is kept. */
    twostate predicate PopularPageMerged(response: Movies)
      reads this
    {
      var merged := DedupeById(old(movies.results) + response.results);
      var filtered := Movies(MatchingSelection(merged, old(filteredGenreIds)), response.totalPages);
      && !isFetching
      && movieGenres == old(movieGenres)
      && individualMovie == old(individualMovie)
      && searchQuery == old(searchQuery)
      && isGenreFetching == old(isGenreFetching)
      && movies == Movies(merged, response.totalPages)
      && filteredMovieGenres == AvailableGenres(old(movieGenres), GenreIdsOf(merged))
      && filteredGenreIds == old(filteredGenreIds)
      && filteredMovies == filtered
      && page == old(page) + 1
      && storage == old(storage)[MoviesKey := MoviesValue(filtered)]
                                [PageKey := NumberValue(old(page) + 1)]
    }

    /** The state loading a page of popular movies leaves behind, relative to the state before it. */
    twostate predicate LoadedPopularPage(outcome: Response<Movies>)
      reads this
    {
      match outcome
      case Failed => FetchSettled() && ListsUnchanged()
      case Succeeded(response) => PopularPageMerged(response)
    }

    /** Requests the next page of popular movies, or of the search results
        when a query is set; nothing happens while a fetch is in flight, and
        a failure is only logged. */
    method FetchPopularMovies(outcome: Response<Movies>)
      requires Valid()
      modifies this
      ensures Valid()
      ensures old(isFetching) ==> unchanged(this)
      ensures !old(isFetching) && old(searchQuery) != "" ==> SearchedByTitle(outcome)
      ensures !old(isFetching) && old(searchQuery) == "" ==> LoadedPopularPage(outcome)
    {
      if isFetching {
        return;
      }
      isFetching := true;
      if searchQuery != "" {
        FetchMoviesByTitle(outcome);
        return;
      }
      match outcome {
        case Failed =>
          isFetching := false;
        case Succeeded(response) =>
          MergePopularPage(response);
      }
    }

    /** The body of the popular fetch once the request has returned a page,
        with the `finally` clause that clears `isFetching`. */
    method MergePopularPage(response: Movies)
      requires Valid()
      modifies this
      ensures Valid()
      ensures PopularPageMerged(response)
    {
      // push the page, then rebuild the list through a Map keyed by id
      var merged := DedupeById(movies.results + response.results);
      var movieGenreIds := GenreIdsOf(merged);
      var filtered := Movies(MatchingSelection(merged, filteredGenreIds), response.totalPages);
      var next := page + 1;
      movies, filteredMovieGenres, filteredMovies, page, storage, isFetching :=
        Movies(merged, response.totalPages), AvailableGenres(movieGenres, movieGenreIds), filtered, next,
        storage[MoviesKey := MoviesValue(filtered)][PageKey := NumberValue(next)],
        false;
    }

    /** Shows the detail of movie `id`, from storage when the stored detail is
        for that movie. A failed request is raised and leaves `isFetching` set. */
    method FetchMovieDetail(id: int, outcome: Response<Detail>) returns (raised: bool)
      requires Valid()
      modifies this
      ensures Valid()
      ensures unchanged(this`movieGenres, this`filteredMovieGenres, this`movies, this`filteredMovies,
                        this`page, this`searchQuery, this`filteredGenreIds, this`isGenreFetching)
      ensures individualMovie.cast == old(individualMovie.cast)
      ensures individualMovie.trailers == old(individualMovie.trailers)
      ensures DetailCacheHit(old(storage), id) ==>
        && !raised
        && individualMovie.detail == MovieDetail(id)
        && unchanged(this`storage, this`isFetching)
      ensures !DetailCacheHit(old(storage), id) ==>
        && raised == outcome.Failed?
        && (outcome.Succeeded? ==>
              && individualMovie.detail == outcome.data
              && storage == old(storage)[MovieDetailKey := DetailValue(outcome.data)]
              && !isFetching)
        && (outcome.Failed? ==>
              && individualMovie.detail == old(individualMovie.detail)
              && storage == old(storage)
              && isFetching)
    {
      var localMovieDetail := ReadDetail(storage);
      if DetailCacheHit(storage, id) {
        individualMovie := individualMovie.(detail := localMovieDetail);
        return false;
      }
      isFetching := true;
      match outcome {
        case Failed =>
          return true;
        case Succeeded(detail) =>
          individualMovie := individualMovie.(detail := detail);
          storage := storage[MovieDetailKey := DetailValue(individualMovie.detail)];
      }
      isFetching := false;
      raised := false;
    }

    /** Shows the YouTube trailers of movie `id`, from storage when the
        stored `movie_id` is `id` and stored trailers exist. A failed
        request is raised. */
    method FetchMovieTrailers(id: int, outcome: Response<seq<Video>>) returns (raised: bool)
      requires Valid()
      modifies this
      ensures Valid()
      ensures unchanged(this`movieGenres, this`filteredMovieGenres, this`movies, this`filteredMovies,
                        this`page, this`searchQuery, this`filteredGenreIds, this`isFetching,
                        this`isGenreFetching)
      ensures individualMovie.detail == old(individualMovie.detail)
      ensures individualMovie.cast == old(individualMovie.cast)
      ensures TrailersCacheHit(old(storage), id) ==>
        && !raised
        && individualMovie.trailers == ReadTrailers(old(storage))
        && storage == old(storage)
      ensures !TrailersCacheHit(old(storage), id) ==>
        && raised == outcome.Failed?
        && (outcome.Succeeded? ==>
              && individualMovie.trailers == Trailers(outcome.data)
              && storage == old(storage)[MovieTrailersKey := VideosValue(Trailers(outcome.data))])
        && (outcome.Failed? ==>
              && individualMovie.trailers == old(individualMovie.trailers)
              && storage == old(storage))
    {
      if TrailersCacheHit(storage, id) {
        individualMovie := individualMovie.(trailers := ReadTrailers(storage));
        return false;
      }
      match outcome {
        case Failed =>
          return true;
        case Succeeded(videos) =>
          individualMovie := individualMovie.(trailers := Trailers(videos));
          storage := storage[MovieTrailersKey := VideosValue(individualMovie.trailers)];
      }
      raised := false;
    }

    /** Shows the cast of movie `id`, from storage when the stored `movie_id`
        is `id` and a stored cast exists. A failed request is raised. */
    method FetchMovieCast(id: int, outcome: Response<seq<Cast>>) returns (raised: bool)
      requires Valid()
      modifies this
      ensures Valid()
      ensures unchanged(this`movieGenres, this`filteredMovieGenres, this`movies, this`filteredMovies,
                        this`page, this`searchQuery, this`filteredGenreIds, this`isFetching,
                        this`isGenreFetching)
      ensures individualMovie.detail == old(individualMovie.detail)
      ensures individualMovie.trailers == old(individualMovie.trailers)
      ensures CastCacheHit(old(storage), id) ==>
        && !raised
        && individualMovie.cast == ReadCast(old(storage))
        && storage == old(storage)
      ensures !CastCacheHit(old(storage), id) ==>
        && raised == outcome.Failed?
        && (outcome.Succeeded? ==>
              && individualMovie.cast == outcome.data
              && storage == old(storage)[MovieCastKey := CastValue(outcome.data)])
        && (outcome.Failed? ==>
              && individualMovie.cast == old(individualMovie.cast)
              && storage == old(storage))
    {
      if CastCacheHit(storage, id) {
        individualMovie := individualMovie.(cast := ReadCast(storage));
        return false;
      }
      match outcome {
        case Failed =>
          return true;
        case Succeeded(cast) =>
          individualMovie := individualMovie.(cast := cast);
          storage := storage[MovieCastKey := CastValue(individualMovie.cast)];
      }
      raised := false;
    }
  }
}
