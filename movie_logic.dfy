/** The pure steps inside the store's fetch operations: merging a page of
    results into the list already held, collecting the genres the results
    use, narrowing the genre catalogue and the genre selection to those
    genres, keeping the movies that carry every selected genre, picking the
    YouTube trailers out of a movie's videos, and the storage cache checks.
    Each `.filter(...)` of the store is written out with its own condition
    and shown equal to `Filter` with that condition. */
module MovieLogic {
  import opened MovieTypes
  import opened JsCollections

  /** `ms.map((item) => [item.id, item])`: each movie keyed by its id. */
  function IdEntries(ms: seq<Movie>): (es: seq<(int, Movie)>)
    ensures |es| == |ms|
  {
    if ms == [] then [] else [(ms[0].id, ms[0])] + IdEntries(ms[1..])
  }

  /** Entry `i` holds movie `i` under its id. */
  lemma {:induction false} IdEntriesAt(ms: seq<Movie>)
    ensures forall i :: 0 <= i < |ms| ==> IdEntries(ms)[i] == (ms[i].id, ms[i])
  {
    if ms != [] {
      IdEntriesAt(ms[1..]);
    }
  }

  /** `[...new Map(ms.map((item) => [item.id, item])).values()]`: one movie per id. */
  function DedupeById(ms: seq<Movie>): seq<Movie>
  {
    Values(NewMap(IdEntries(ms)))
  }

  /** The ids of a list of movies. */
  function Ids(ms: seq<Movie>): set<int>
  {
    set i | 0 <= i < |ms| :: ms[i].id
  }

  /** No two movies share an id: `DistinctKeys(IdEntries(ms))`, and
      `Distinct` of the id list, stated directly on the movies. */
  predicate DistinctIds(ms: seq<Movie>)
  {
    forall i, j :: 0 <= i < j < |ms| ==> ms[i].id != ms[j].id
  }

  /** The index of the first movie of `ms` with id `id`, or -1: the key
      lookup `FindIndex` on `IdEntries(ms)`, stated over the movies so that
      the merge lemmas below speak of the input list itself. */
  function FirstPosition(ms: seq<Movie>, id: int): (i: int)
    ensures -1 <= i < |ms|
    ensures i >= 0 ==> ms[i].id == id
    ensures forall j :: 0 <= j < |ms| && (i < 0 || j < i) ==> ms[j].id != id
  {
    var es := IdEntries(ms);
    IdEntriesAt(ms);
    FindIndex(es, id)
  }

  /** The index of the last movie of `ms` with id `id`, or -1: `FindLastIndex`
      on `IdEntries(ms)`, stated over the movies like `FirstPosition`. */
  function LastPosition(ms: seq<Movie>, id: int): (i: int)
    ensures -1 <= i < |ms|
    ensures i >= 0 ==> ms[i].id == id
    ensures forall j :: i < j < |ms| ==> ms[j].id != id
  {
    var es := IdEntries(ms);
    IdEntriesAt(ms);
    FindLastIndex(es, id)
  }

  lemma IdEntriesKeys(ms: seq<Movie>)
    ensures KeysOf(IdEntries(ms)) == Ids(ms)
  {
    var es := IdEntries(ms);
    IdEntriesAt(ms);
    forall k | k in Ids(ms) ensures k in KeysOf(es) {
      var i :| 0 <= i < |ms| && ms[i].id == k;
      assert es[i].0 == k;
    }
  }

  /** The merged list read back from the map built from `ms`: its movie
      `j` is the value of entry `j`, stored under that movie's own id. */
  lemma DedupeEntries(ms: seq<Movie>)
    ensures var es, r := NewMap(IdEntries(ms)), DedupeById(ms);
      |r| == |es| && forall j :: 0 <= j < |es| ==> r[j] == es[j].1 && r[j].id == es[j].0
  {
    var pairs := IdEntries(ms);
    var es := NewMap(pairs);
    var r := DedupeById(ms);
    assert r == Values(es);
    ValuesAt(es);
    IdEntriesAt(ms);
    forall j | 0 <= j < |es| ensures r[j] == es[j].1 && r[j].id == es[j].0 {
      NewMapEntry(pairs, j);
      var i := FindLastIndex(pairs, es[j].0);
      assert 0 <= i < |ms| && es[j] == pairs[i];
      assert pairs[i] == (ms[i].id, ms[i]);
    }
  }

  /** Deduplicating keeps, for each id, the LAST movie with that id. */
  lemma DedupeByIdKeepsLast(ms: seq<Movie>)
    ensures var r := DedupeById(ms);
      forall j :: 0 <= j < |r| ==> 0 <= LastPosition(ms, r[j].id) && r[j] == ms[LastPosition(ms, r[j].id)]
  {
    var pairs := IdEntries(ms);
    var es := NewMap(pairs);
    var r := DedupeById(ms);
    DedupeEntries(ms);
    IdEntriesAt(ms);
    forall j | 0 <= j < |r| ensures 0 <= LastPosition(ms, r[j].id) && r[j] == ms[LastPosition(ms, r[j].id)] {
      NewMapEntry(pairs, j);
      var i := FindLastIndex(pairs, es[j].0);
      assert LastPosition(ms, r[j].id) == i;
      assert es[j] == pairs[i] == (ms[i].id, ms[i]);
    }
  }

  /** Deduplicating orders the movies by where their id FIRST occurs. */
  lemma DedupeByIdKeepsFirstPosition(ms: seq<Movie>)
    ensures var r := DedupeById(ms);
      && (forall j :: 0 <= j < |r| ==> 0 <= FirstPosition(ms, r[j].id))
      && (forall j, j' :: 0 <= j < j' < |r| ==> FirstPosition(ms, r[j].id) < FirstPosition(ms, r[j'].id))
  {
    var pairs := IdEntries(ms);
    var es := NewMap(pairs);
    var r := DedupeById(ms);
    DedupeEntries(ms);
    forall j | 0 <= j < |r| ensures 0 <= FirstPosition(ms, r[j].id) {
      NewMapEntry(pairs, j);
      assert FirstPosition(ms, r[j].id) == FindIndex(pairs, es[j].0);
      assert es[j].0 in KeysOf(pairs);
    }
    forall j, j' | 0 <= j < j' < |r| ensures FirstPosition(ms, r[j].id) < FirstPosition(ms, r[j'].id) {
      NewMapOrder(pairs, j, j');
      assert FirstPosition(ms, r[j].id) == FindIndex(pairs, es[j].0);
      assert FirstPosition(ms, r[j'].id) == FindIndex(pairs, es[j'].0);
    }
  }

  lemma IdsConcat(a: seq<Movie>, b: seq<Movie>)
    ensures Ids(a + b) == Ids(a) + Ids(b)
  {
    var ab := a + b;
    forall k | k in Ids(ab) ensures k in Ids(a) + Ids(b) {
      var i :| 0 <= i < |ab| && ab[i].id == k;
      if i < |a| {
        assert ab[i] == a[i];
      } else {
        assert ab[i] == b[i - |a|];
      }
    }
    forall k | k in Ids(a) ensures k in Ids(ab) {
      var i :| 0 <= i < |a| && a[i].id == k;
      assert ab[i] == a[i];
    }
    forall k | k in Ids(b) ensures k in Ids(ab) {
      var i :| 0 <= i < |b| && b[i].id == k;
      assert ab[|a| + i] == b[i];
    }
  }

  /** After a merge of the held list with a response page, ids are pairwise
      distinct, the ids are exactly those of both inputs, and there is one
      movie per id. */
  lemma DedupeByIdIds(current: seq<Movie>, incoming: seq<Movie>)
    ensures var merged := DedupeById(current + incoming);
      && DistinctIds(merged)
      && Ids(merged) == Ids(current) + Ids(incoming)
      && |merged| == |Ids(current) + Ids(incoming)|
  {
    var ms := current + incoming;
    var es := NewMap(IdEntries(ms));
    var merged := DedupeById(ms);
    NewMapKeys(IdEntries(ms));
    NewMapLength(IdEntries(ms));
    IdEntriesKeys(ms);
    DedupeEntries(ms);
    assert Ids(merged) == KeysOf(es) by {
      forall k | k in KeysOf(es) ensures k in Ids(merged) {
        var j :| 0 <= j < |es| && es[j].0 == k;
        assert merged[j].id == k;
      }
    }
    IdsConcat(current, incoming);
  }

  /** A list whose ids are already distinct comes back unchanged. */
  lemma DedupeByIdOfDistinct(ms: seq<Movie>)
    requires DistinctIds(ms)
    ensures DedupeById(ms) == ms
  {
    IdEntriesAt(ms);
    ValuesAt(IdEntries(ms));
    NewMapOfDistinct(IdEntries(ms));
  }

  /** Every genre id carried by some movie of `results`. */
  function GenreIdsOf(results: seq<Movie>): set<int>
  {
    if results == [] then {}
    else
      var gs := results[|results| - 1].genreIds;
      GenreIdsOf(results[..|results| - 1]) + set k | 0 <= k < |gs| :: gs[k]
  }

  /** A genre id is collected exactly when some result carries it. */
  lemma {:induction false} GenreIdsOfMembers(results: seq<Movie>)
    ensures forall g :: g in GenreIdsOf(results) <==> exists m :: m in results && g in m.genreIds
  {
    if results != [] {
      var init, last := results[..|results| - 1], results[|results| - 1];
      assert init + [last] == results;
      GenreIdsOfMembers(init);
      forall g ensures g in GenreIdsOf(results) <==> exists m :: m in results && g in m.genreIds {
        if g in GenreIdsOf(init) {
          var m :| m in init && g in m.genreIds;
          assert m in results;
        }
        if g in last.genreIds {
          assert last in results;
        }
        if m :| m in results && g in m.genreIds {
          if m != last {
            assert m in init;
          }
        }
      }
    }
  }

  /** The `movieGenreIds` set the store builds with two nested `forEach` loops. */
  method CollectGenreIds(results: seq<Movie>) returns (ids: set<int>)
    ensures ids == GenreIdsOf(results)
  {
    ids := {};
    for i := 0 to |results|
      invariant ids == GenreIdsOf(results[..i])
    {
      var genreIds := results[i].genreIds;
      for j := 0 to |genreIds|
        invariant ids == GenreIdsOf(results[..i]) + set k | 0 <= k < j :: genreIds[k]
      {
        ids := ids + {genreIds[j]};
      }
      assert results[..i + 1][..i] == results[..i];
    }
    assert results[..|results|] == results;
  }

  /** `genres.filter((genre) => present.has(genre.id))` */
  function AvailableGenres(genres: seq<Genre>, present: set<int>): seq<Genre>
  {
    if genres == [] then []
    else (if genres[0].id in present then [genres[0]] else []) + AvailableGenres(genres[1..], present)
  }

  lemma {:induction false} AvailableGenresIsFilter(genres: seq<Genre>, present: set<int>)
    ensures AvailableGenres(genres, present) == Filter(genres, (g: Genre) => g.id in present)
  {
    if genres != [] {
      AvailableGenresIsFilter(genres[1..], present);
    }
  }

  /** The narrowed catalogue holds exactly the catalogue genres that some
      result carries, in catalogue order. */
  lemma AvailableGenresMembers(genres: seq<Genre>, more: seq<Genre>, results: seq<Movie>)
    ensures forall g :: g in AvailableGenres(genres, GenreIdsOf(results)) <==>
      g in genres && exists m :: m in results && g.id in m.genreIds
    ensures AvailableGenres(genres + more, GenreIdsOf(results)) ==
      AvailableGenres(genres, GenreIdsOf(results)) + AvailableGenres(more, GenreIdsOf(results))
  {
    var present := GenreIdsOf(results);
    GenreIdsOfMembers(results);
    AvailableGenresIsFilter(genres, present);
    AvailableGenresIsFilter(more, present);
    AvailableGenresIsFilter(genres + more, present);
    FilterMembers(genres, (g: Genre) => g.id in present);
    FilterConcat(genres, more, (g: Genre) => g.id in present);
  }

  /** `[...selection].every((genreId) => movie.genre_ids.includes(genreId))` */
  predicate HasAllGenres(m: Movie, selection: seq<int>)
  {
    forall g :: g in selection ==> g in m.genreIds
  }

  /** `results.filter((movie) => HasAllGenres(movie, selection))` */
  function MatchingSelection(results: seq<Movie>, selection: seq<int>): seq<Movie>
  {
    if results == [] then []
    else
      (if HasAllGenres(results[0], selection) then [results[0]] else [])
        + MatchingSelection(results[1..], selection)
  }

  lemma {:induction false} MatchingSelectionIsFilter(results: seq<Movie>, selection: seq<int>)
    ensures MatchingSelection(results, selection) == Filter(results, (m: Movie) => HasAllGenres(m, selection))
  {
    if results != [] {
      MatchingSelectionIsFilter(results[1..], selection);
    }
  }

  /** The movies kept are exactly those that carry every selected genre
      (an AND filter), in their order; with nothing selected every movie
      is kept. */
  lemma MatchingSelectionMembers(results: seq<Movie>, more: seq<Movie>, selection: seq<int>)
    ensures forall m :: m in MatchingSelection(results, selection) <==>
      m in results && forall g :: g in selection ==> g in m.genreIds
    ensures MatchingSelection(results + more, selection) ==
      MatchingSelection(results, selection) + MatchingSelection(more, selection)
    ensures selection == [] ==> MatchingSelection(results, selection) == results
  {
    var p := (m: Movie) => HasAllGenres(m, selection);
    MatchingSelectionIsFilter(results, selection);
    MatchingSelectionIsFilter(more, selection);
    MatchingSelectionIsFilter(results + more, selection);
    FilterMembers(results, p);
    FilterConcat(results, more, p);
    if selection == [] {
      FilterKeepsAll(results, p);
    }
  }

  /** `[...selection].filter((genreId) => present.has(genreId))` */
  function KeepPresent(selection: seq<int>, present: set<int>): seq<int>
  {
    if selection == [] then []
    else (if selection[0] in present then [selection[0]] else []) + KeepPresent(selection[1..], present)
  }

  lemma {:induction false} KeepPresentIsFilter(selection: seq<int>, present: set<int>)
    ensures KeepPresent(selection, present) == Filter(selection, (g: int) => g in present)
  {
    if selection != [] {
      KeepPresentIsFilter(selection[1..], present);
    }
  }

  /** `new Set(KeepPresent(selection, present))`: the selection narrowed to the genres present. */
  function PruneSelection(selection: seq<int>, present: set<int>): seq<int>
  {
    NewSet(KeepPresent(selection, present))
  }

  /** The pruned selection never repeats a genre id. */
  lemma PruneSelectionDistinct(selection: seq<int>, present: set<int>)
    ensures Distinct(PruneSelection(selection, present))
  {
    NewSetMembers(KeepPresent(selection, present));
  }

  /** The pruned selection is a set of exactly the selected genres some
      result still carries; a selection without repeats keeps its order. */
  lemma PruneSelectionMembers(selection: seq<int>, results: seq<Movie>)
    ensures var r := PruneSelection(selection, GenreIdsOf(results));
      && Distinct(r)
      && (forall g :: g in r <==> g in selection && exists m :: m in results && g in m.genreIds)
      && (Distinct(selection) ==> r == KeepPresent(selection, GenreIdsOf(results)))
  {
    var present := GenreIdsOf(results);
    var kept := KeepPresent(selection, present);
    GenreIdsOfMembers(results);
    KeepPresentIsFilter(selection, present);
    FilterMembers(selection, (g: int) => g in present);
    NewSetMembers(kept);
    if Distinct(selection) {
      FilterDistinct(selection, (g: int) => g in present);
      NewSetOfDistinct(kept);
    }
  }

  /** `video.type === 'Trailer' && video.site === 'YouTube'` */
  predicate IsYouTubeTrailer(v: Video)
  {
    v.kind == "Trailer" && v.site == "YouTube"
  }

  /** `videos.filter((video) => IsYouTubeTrailer(video))` */
  function Trailers(videos: seq<Video>): seq<Video>
  {
    if videos == [] then []
    else (if IsYouTubeTrailer(videos[0]) then [videos[0]] else []) + Trailers(videos[1..])
  }

  lemma {:induction false} TrailersIsFilter(videos: seq<Video>)
    ensures Trailers(videos) == Filter(videos, IsYouTubeTrailer)
  {
    if videos != [] {
      TrailersIsFilter(videos[1..]);
    }
  }

  /** The trailers kept are exactly the YouTube trailers among the videos,
      and they keep the order the videos came in. */
  lemma TrailersMembers(videos: seq<Video>, more: seq<Video>)
    ensures forall v :: v in Trailers(videos) <==> v in videos && v.kind == "Trailer" && v.site == "YouTube"
    ensures Trailers(videos + more) == Trailers(videos) + Trailers(more)
  {
    TrailersIsFilter(videos);
    TrailersIsFilter(more);
    TrailersIsFilter(videos + more);
    FilterMembers(videos, IsYouTubeTrailer);
    FilterConcat(videos, more, IsYouTubeTrailer);
  }

  /** The stored detail is for movie `id`: `Object.keys(localMovieDetail).length && localMovieDetail.id === id`. */
  predicate DetailCacheHit(st: Storage, id: int)
  {
    ReadDetail(st).MovieDetail? && ReadDetail(st).id == id
  }

  /** `localMovieId === id && localMovieTrailers.length`; with no `movie_id`
      key the stored id reads as 0, so only movie 0 can hit. */
  function TrailersCacheHit(st: Storage, id: int): (hit: bool)
    ensures hit ==> |ReadTrailers(st)| > 0
    ensures hit && MovieIdKey !in st ==> id == 0
  {
    ReadNumber(st, MovieIdKey, 0) == id && |ReadTrailers(st)| > 0
  }

  /** `localMovieId === id && localMovieCast.length`, read like the trailers check. */
  function CastCacheHit(st: Storage, id: int): (hit: bool)
    ensures hit ==> |ReadCast(st)| > 0
    ensures hit && MovieIdKey !in st ==> id == 0
  {
    ReadNumber(st, MovieIdKey, 0) == id && |ReadCast(st)| > 0
  }
}
