# Movie store model

This project models the movie store of a browser movie catalogue
(`src/stores/movie.ts`). The store holds several pieces of state:

- the genre catalogue, and the part of it that the loaded results use;
- the accumulated list of movies, and the part of it that matches the
  genre selection;
- the selected genre ids;
- the next page to request, and the search query;
- two "fetch in flight" flags;
- the movie shown in the detail view.

It keeps a copy of most of this in browser storage. Each fetch operation
requests one page or one object from the movie-database API and folds the
answer into that state.

The model has four modules:

- `JsCollections` (`js_collections.dfy`) gives the JavaScript collection
  operations the store relies on:
  - a `Map` as its list of entries in insertion order. `MapSet` is
    `Map.prototype.set`, `NewMap` is `new Map(pairs)` and `Values` is
    `[...map.values()]`;
  - a `Set` as a list without repeats (`SetAdd`, `NewSet`);
  - `Filter` as the reference definition of `Array.prototype.filter`.
- `MovieTypes` (`movie_types.dfy`) holds:
  - the API entities, cut down to the fields the store reads;
  - `Response<T>`, the outcome of one request;
  - browser storage as a map from key to a typed value, with readers that
    fall back to the store's defaults.
- `MovieLogic` (`movie_logic.dfy`) holds the pure steps inside the fetches:
  - merging a page into a list through a `Map` keyed by movie id;
  - collecting the genre ids of the results (`CollectGenreIds`, the two
    nested `forEach` loops, proved to compute `GenreIdsOf`);
  - narrowing the catalogue and the selection to those genres;
  - the AND filter by selected genres and the YouTube trailer filter;
  - the storage cache checks.

  Each `.filter(...)` is a recursive function with its own condition. A
  lemma shows it equal to `Filter` with that condition.
- `MovieStore` (`movie_store.dfy`) holds the class `Store`:
  - one field per piece of state, plus `storage`;
  - a constructor that reads the start-up state from storage;
  - one method per fetch operation. Each method takes the outcome of the
    request it would issue as a parameter.

  Each list fetch's final state is stated in a two-state predicate
  (`SearchedByTitle`, `LoadedPopularPage`), relative to the state before
  it. `Valid()` (the selection never repeats an id) holds after every
  operation.

## Model

| member | source | states |
|---|---|---|
| JsCollections.FindIndex | src/stores/movie.ts:69 | the index of the first entry with a key, or -1 exactly when the key is absent; no earlier entry has that key |
| JsCollections.FindLastIndex | src/stores/movie.ts:69 | the index of the last entry with a key, or -1 exactly when the key is absent; no later entry has that key |
| JsCollections.MapSet | src/stores/movie.ts:69 | defined by its body as `Map.prototype.set` on the entry list: replace the entry holding the key where it stands, or append a new one; its properties are `MapSetSpec` |
| JsCollections.MapSetSpec | src/stores/movie.ts:69 | `Map.set` on a map with distinct keys keeps keys distinct and adds the key; a present key has its value replaced in place; an absent key is appended at the end |
| JsCollections.NewMap | src/stores/movie.ts:69 | defined by its body as `new Map(pairs)`: each pair `set` in turn into an empty map; its properties are `NewMapKeys`, `NewMapLength`, `NewMapKeepsLast`, `NewMapKeepsFirstPosition` and `NewMapOfDistinct` |
| JsCollections.NewMapKeys | src/stores/movie.ts:69 | a map built from pairs has distinct keys, and its keys are exactly the keys of the pairs |
| JsCollections.NewMapLength | src/stores/movie.ts:69 | the map holds one entry per distinct key of the pairs |
| JsCollections.NewMapKeepsLast | src/stores/movie.ts:69 | each entry is the last pair with its key: a later pair overwrites the value of an earlier one |
| JsCollections.NewMapKeepsFirstPosition | src/stores/movie.ts:69 | entries are ordered by the index where their key first occurs among the pairs |
| JsCollections.NewMapOfDistinct | src/stores/movie.ts:69 | pairs that repeat no key give back exactly those pairs, in order |
| JsCollections.Values | src/stores/movie.ts:69 | one value per entry |
| JsCollections.ValuesAt | src/stores/movie.ts:69 | value `i` is the value of entry `i`: iteration follows insertion order |
| JsCollections.SetAdd | src/stores/movie.ts:155 | defined by its body as `Set.prototype.add`: a new member goes to the end, an existing one stays where it is; its properties are `NewSetMembers` and `NewSetOfDistinct` |
| JsCollections.NewSet | src/stores/movie.ts:21 | defined by its body as `new Set(xs)`: each element added in turn to an empty set; its properties are `NewSetMembers` and `NewSetOfDistinct` |
| JsCollections.NewSetMembers | src/stores/movie.ts:155 | `new Set(xs)` holds no repeats and has exactly the members of `xs` |
| JsCollections.NewSetOfDistinct | src/stores/movie.ts:21 | `new Set(xs)` of a list without repeats keeps that list and its order |
| JsCollections.Filter | src/stores/movie.ts:80 | the filtered list is no longer than the input |
| JsCollections.FilterMembers | src/stores/movie.ts:80 | an element is kept exactly when it is in the input and satisfies the condition |
| JsCollections.FilterConcat | src/stores/movie.ts:82-84 | filtering a concatenation filters each part in order |
| JsCollections.FilterKeepsAll | src/stores/movie.ts:82-84 | when every element satisfies the condition, the list comes back unchanged |
| JsCollections.FilterDistinct | src/stores/movie.ts:155 | filtering a list without repeats gives a list without repeats |
| MovieLogic.IdEntries | src/stores/movie.ts:69 | `ms.map(item => [item.id, item])` has one pair per movie |
| MovieLogic.IdEntriesAt | src/stores/movie.ts:69 | pair `i` holds movie `i` under its own id |
| MovieLogic.DedupeById | src/stores/movie.ts:69 | defined by its body as `[...new Map(ms.map(item => [item.id, item])).values()]`; its properties are `DedupeByIdIds`, `DedupeByIdKeepsLast`, `DedupeByIdKeepsFirstPosition` and `DedupeByIdOfDistinct` |
| MovieLogic.FirstPosition | src/stores/movie.ts:69 | the index of the first movie with an id, or -1; no earlier movie has that id |
| MovieLogic.LastPosition | src/stores/movie.ts:69 | the index of the last movie with an id, or -1; no later movie has that id |
| MovieLogic.DedupeByIdIds | src/stores/movie.ts:66-69 | after merging the held list with a response page, ids are pairwise distinct, the ids are exactly the union of both inputs' ids, and there is one movie per id |
| MovieLogic.DedupeByIdKeepsLast | src/stores/movie.ts:66-69 | every merged movie is the last movie in held-list-then-page order with its id |
| MovieLogic.DedupeByIdKeepsFirstPosition | src/stores/movie.ts:66-69 | every merged id occurs in the input, and merged movies are ordered by where their id first occurs |
| MovieLogic.DedupeByIdOfDistinct | src/stores/movie.ts:139-142 | a list whose ids are already distinct is unchanged by the merge |
| MovieLogic.GenreIdsOf | src/stores/movie.ts:73-77 | defined by its body as the union of the genre ids of the results; its property is `GenreIdsOfMembers`, and `CollectGenreIds` computes it with the source's loops |
| MovieLogic.GenreIdsOfMembers | src/stores/movie.ts:73-77 | a genre id is collected exactly when some result carries it |
| MovieLogic.CollectGenreIds | src/stores/movie.ts:145-149 | the nested `forEach` loops add up exactly the genre ids carried by the results |
| MovieLogic.AvailableGenres | src/stores/movie.ts:80 | defined by its body as the catalogue genres whose id is present, in catalogue order; its properties are `AvailableGenresIsFilter` and `AvailableGenresMembers` |
| MovieLogic.AvailableGenresIsFilter | src/stores/movie.ts:80 | the genre narrowing is `movieGenres.filter(genre => movieGenreIds.has(genre.id))` |
| MovieLogic.AvailableGenresMembers | src/stores/movie.ts:152 | the narrowed catalogue holds exactly the catalogue genres some result carries, in catalogue order |
| MovieLogic.HasAllGenres | src/stores/movie.ts:83 | defined by its body as: every selected genre id is among the movie's genre ids; used by `MatchingSelectionMembers` |
| MovieLogic.MatchingSelection | src/stores/movie.ts:82-84 | defined by its body as the movies with `HasAllGenres`, in order; its properties are `MatchingSelectionIsFilter` and `MatchingSelectionMembers` |
| MovieLogic.MatchingSelectionIsFilter | src/stores/movie.ts:82-84 | the movie filter is `results.filter(movie => every selected id is in movie.genre_ids)` |
| MovieLogic.MatchingSelectionMembers | src/stores/movie.ts:159-161 | a movie is kept exactly when it carries every selected genre (AND); order is kept; an empty selection keeps every movie |
| MovieLogic.KeepPresent | src/stores/movie.ts:155 | defined by its body as the selected ids that are present, in order; its property is `KeepPresentIsFilter` |
| MovieLogic.KeepPresentIsFilter | src/stores/movie.ts:155 | the selection narrowing is `[...selection].filter(id => movieGenreIds.has(id))` |
| MovieLogic.PruneSelection | src/stores/movie.ts:155 | defined by its body as `new Set` of `KeepPresent`; its properties are `PruneSelectionDistinct` and `PruneSelectionMembers` |
| MovieLogic.PruneSelectionDistinct | src/stores/movie.ts:155 | the pruned selection never repeats an id |
| MovieLogic.PruneSelectionMembers | src/stores/movie.ts:155 | the pruned selection holds exactly the selected genre ids that some result still carries; a selection without repeats keeps its order |
| MovieLogic.IsYouTubeTrailer | src/stores/movie.ts:193-194 | defined by its body as `type` is `Trailer` and `site` is `YouTube`; used by `TrailersMembers` |
| MovieLogic.Trailers | src/stores/movie.ts:193-194 | defined by its body as the videos with `IsYouTubeTrailer`, in order; its properties are `TrailersIsFilter` and `TrailersMembers` |
| MovieLogic.TrailersIsFilter | src/stores/movie.ts:193-194 | the trailer list is `videos.filter(v => v.type === 'Trailer' && v.site === 'YouTube')` |
| MovieLogic.TrailersMembers | src/stores/movie.ts:193-194 | a video is kept exactly when it is a YouTube trailer, in the order the videos came |
| MovieLogic.DetailCacheHit | src/stores/movie.ts:103-104 | defined by its body as: the stored detail is non-empty and carries the requested id; `FetchMovieDetail` states what a hit and a miss do |
| MovieLogic.TrailersCacheHit | src/stores/movie.ts:179-181 | a hit needs stored trailers; with no stored `movie_id` the id reads as 0, so only movie 0 can hit |
| MovieLogic.CastCacheHit | src/stores/movie.ts:206-208 | a hit needs a stored cast; with no stored `movie_id` only movie 0 can hit |
| MovieTypes.ReadGenres | src/stores/movie.ts:8 | defined by its body as the stored `movie_genres`, or `[]`; used by `MovieStore.Store.constructor` |
| MovieTypes.ReadMovies | src/stores/movie.ts:10-13 | defined by its body as the stored `movies`, or no results with `total_pages` 1; used by `MovieStore.Store.constructor` |
| MovieTypes.ReadNumber | src/stores/movie.ts:19 | defined by its body as the number stored under a key, or the given default (1 for `page`, 0 for `movie_id` at lines 180 and 207); used by the constructor and the cache checks |
| MovieTypes.ReadSearch | src/stores/movie.ts:20 | defined by its body as the stored `search`, or the empty string; used by `MovieStore.Store.constructor` |
| MovieTypes.ReadIds | src/stores/movie.ts:21 | defined by its body as the stored `filtered_genres`, or `[]`; used by `MovieStore.Store.constructor` |
| MovieTypes.ReadDetail | src/stores/movie.ts:103 | defined by its body as the stored `movie_detail`, or the empty detail; used by `DetailCacheHit` |
| MovieTypes.ReadTrailers | src/stores/movie.ts:179 | defined by its body as the stored `movie_trailers`, or `[]`; used by `TrailersCacheHit` |
| MovieTypes.ReadCast | src/stores/movie.ts:206 | defined by its body as the stored `movie_cast`, or `[]`; used by `CastCacheHit` |
| MovieStore.Store.constructor | src/stores/movie.ts:8-23 | genres, page and query come from storage with their defaults; both result lists come from the `movies` key; the selection has the stored ids without repeats (as stored, when they have none); no fetch is in flight |
| MovieStore.Store.Valid | src/stores/movie.ts:21 | defined by its body as: the selection repeats no genre id, as a `Set` cannot; the constructor and every fetch method ensure it |
| MovieStore.Store.FetchMovieGenres | src/stores/movie.ts:25-47 | with a catalogue held nothing changes; otherwise a success stores the catalogue as both genre lists and under `movie_genres`, a failure is raised and changes nothing; `isGenreFetching` ends false |
| MovieStore.Store.FetchMoviesByTitle | src/stores/movie.ts:129-174 | on failure only `isFetching` changes (to false); on success the state of `MergeSearchPage` |
| MovieStore.Store.MergeSearchPage | src/stores/movie.ts:139-172 | `movies.results` becomes the merged list; genres, selection and filtered list are narrowed to the genres it carries; `total_pages` is copied to the filtered list only; the page goes up by one; `filtered_genres`, `movies` (the filtered list) and `page` are stored; `isFetching` ends false |
| MovieStore.Store.FetchPopularMovies | src/stores/movie.ts:49-98 | while a fetch is in flight nothing changes; with a query it is a title search; otherwise a failure leaves everything but `isFetching` (false) unchanged, and a success gives the state of `MergePopularPage` |
| MovieStore.Store.MergePopularPage | src/stores/movie.ts:66-97 | `movies` becomes the merged list with the response's `total_pages`; the genre list is narrowed to it; the filtered list is the merged list under the unchanged selection; the page goes up by one; `movies` (the filtered list) and `page` are stored; `isFetching` ends false |
| MovieStore.Store.FetchMovieDetail | src/stores/movie.ts:100-127 | a stored detail for the same id is shown without a request; otherwise a success shows and stores the detail and clears `isFetching`, and a failure is raised and leaves `isFetching` true |
| MovieStore.Store.FetchMovieTrailers | src/stores/movie.ts:176-201 | on a cache hit the stored trailers are shown; otherwise a success shows and stores exactly the YouTube trailers, and a failure is raised and changes nothing |
| MovieStore.Store.FetchMovieCast | src/stores/movie.ts:203-225 | on a cache hit the stored cast is shown; otherwise a success shows and stores the cast, and a failure is raised and changes nothing |

## Left out

- Network requests (axios, base URLs, headers) are not modelled. Each
  fetch takes a `Response<T>` parameter: `Succeeded(data)` for what the
  request returned, or `Failed` for a rejected request.
- Vue `ref`/`reactive` and Pinia are not modelled. Fields have value
  semantics, so no array is shared between `movies` and `filteredMovies`.
  In the source those assignments create a sharing that the next
  reassignment ends anyway.
- JSON text and the storage helpers are not modelled. Storage is a map
  from key to a typed value. A key that holds a value of another kind
  reads as the default, like a missing key. Malformed JSON and `parseInt`
  returning `NaN` are not modelled.
- `MovieStore.Store.FetchPopularMovies` runs the title search it starts
  without `await` to completion before returning. Interleaving of
  concurrent async calls is not modelled.
- `MovieStore.Store.MergeSearchPage` and `MovieStore.Store.MergePopularPage`
  are the parts of the two list fetches after the request has returned.
  Each writes its fields in one assignment, together with the `finally`
  clause's `isFetching = false`. The source writes them one after another,
  and nothing reads them in between.
- The fetch bodies compute the genre ids with `GenreIdsOf`.
  `CollectGenreIds`, the loop the source runs, is proved to compute the
  same set.
- `console.error` logging of a failed list fetch is not modelled. A
  rethrown error is a `raised` result.
- `MovieStore.Store.FetchMovieDetail` models a stored detail object as
  either empty or carrying an id. An object with other keys but no id is
  not modelled.
- API fields that the store does not read are not modelled, such as
  titles, posters and cast names. The API's `Video.type` is named `kind`.
- Nothing in this model writes the `search` or `movie_id` storage keys. The
  code that does is not part of this model. The cast and trailer cache
  checks are modelled as written. Without a stored `movie_id` they can only
  hit for movie 0.
- The following are not part of this model: the intersection observer, the
  `debounce` helper, `getMoviePoster`, and the configuration files.
