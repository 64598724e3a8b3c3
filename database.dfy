/** The local store `MovieDatabase` (movie_rec.py:115-180): two SQLite tables,
    here two maps held by an object.

    - `movies` caches a movie's details under its `tmdb_id`, with the time of
      the write; a read honours the entry only while it is younger than 24 hours.
    - `user_data` holds one rating per `(user_id, tmdb_id)`; a write replaces any
      earlier rating for the same pair (`INSERT OR REPLACE`).

    The clock is an explicit parameter: `now` stands both for SQLite's
    `CURRENT_TIMESTAMP` on a write and for `datetime.now()` on a read, in seconds
    on one common clock. */
module Database {
  import opened Catalog

  type UserId = int

  /** Seconds on the store's clock. */
  type Time = int

  /** A rating as the rating dialog produces it (0.5 to 10.0), in tenths. */
  type Score = int

  /** The cached details of a movie (`json.dumps(data)`), kept and handed back
      unchanged. */
  type Payload = string

  /** `timedelta(hours=24)`, in seconds. */
  const CacheTtl: int := 24 * 60 * 60

  /** A row of `movies`: `(data, last_updated)`. */
  datatype CachedMovie = CachedMovie(data: Payload, lastUpdated: Time)

  /** A row of `user_data` without its key: `(rating, timestamp)`. */
  datatype RatingRow = RatingRow(rating: Score, timestamp: Time)

  /** The result of `get_cached_movie(tmdb_id)` at time `now` against table `movies`. */
  function CacheLookup(movies: map<MovieId, CachedMovie>, id: MovieId, now: Time): Option<Payload>
  {
    if id in movies && now - movies[id].lastUpdated < CacheTtl then Some(movies[id].data) else None
  }

  /** The dictionary `get_user_ratings(user)` builds from table `user_data`. */
  function RatingsOf(userData: map<(UserId, MovieId), RatingRow>, user: UserId): (r: map<MovieId, Score>)
    ensures forall m :: m in r <==> (user, m) in userData
    ensures forall m :: m in r ==> r[m] == userData[(user, m)].rating
  {
    map k | k in userData && k.0 == user :: k.1 := userData[k].rating
  }

  /** Writing a rating changes the writer's dictionary at that one movie, to
      the new score: the movie has exactly one entry, holding the latest score. */
  lemma RatingUpsertOwn(userData: map<(UserId, MovieId), RatingRow>, user: UserId, id: MovieId,
                        row: RatingRow)
    ensures RatingsOf(userData[(user, id) := row], user) == RatingsOf(userData, user)[id := row.rating]
  {
    var mine, expected := RatingsOf(userData[(user, id) := row], user), RatingsOf(userData, user)[id := row.rating];
    forall m
      ensures m in mine <==> m in expected
      ensures m in mine ==> mine[m] == expected[m]
    {
      if m != id {
        assert (user, m) in userData[(user, id) := row] <==> (user, m) in userData;
      }
    }
    assert mine == expected;
  }

  /** Writing a rating leaves every other user's dictionary as it was. */
  lemma RatingUpsertOthers(userData: map<(UserId, MovieId), RatingRow>, user: UserId, id: MovieId,
                           row: RatingRow, other: UserId)
    requires other != user
    ensures RatingsOf(userData[(user, id) := row], other) == RatingsOf(userData, other)
  {
    var theirs, before := RatingsOf(userData[(user, id) := row], other), RatingsOf(userData, other);
    forall m
      ensures m in theirs <==> m in before
      ensures m in theirs ==> theirs[m] == before[m]
    {
      assert (other, m) != (user, id);
    }
    assert theirs == before;
  }

  /** A cache write is read back unchanged exactly while it is younger than
      the TTL, and leaves the reads of every other id as they were. */
  lemma CacheWriteThenRead(movies: map<MovieId, CachedMovie>, id: MovieId, data: Payload,
                           written: Time, other: MovieId, now: Time)
    ensures CacheLookup(movies[id := CachedMovie(data, written)], id, now)
            == (if now < written + CacheTtl then Some(data) else None)
    ensures other != id ==> CacheLookup(movies[id := CachedMovie(data, written)], other, now)
                            == CacheLookup(movies, other, now)
  {
  }

  /** Freshness is recomputed on every read and only ever runs out: once an
      entry reads as absent it stays absent until it is rewritten. */
  lemma ExpiredStaysExpired(movies: map<MovieId, CachedMovie>, id: MovieId, t1: Time, t2: Time)
    requires t1 <= t2
    requires CacheLookup(movies, id, t1) == None
    ensures CacheLookup(movies, id, t2) == None
  {
  }

  class MovieDatabase {
    /** Table `movies`, keyed by `tmdb_id`. */
    var movies: map<MovieId, CachedMovie>
    /** Table `user_data`, keyed by `(user_id, tmdb_id)`. */
    var userData: map<(UserId, MovieId), RatingRow>

    /** `__init__`/`_init_db`: `CREATE TABLE IF NOT EXISTS` keeps whatever rows
        the database file already holds, so cached details and ratings survive a
        restart. `movies0` and `userData0` are those rows; both are empty for a
        new file. */
    constructor (movies0: map<MovieId, CachedMovie>, userData0: map<(UserId, MovieId), RatingRow>)
      ensures movies == movies0 && userData == userData0
    {
      movies := movies0;
      userData := userData0;
    }

    /** `cache_movie`: insert or replace the entry of `id`, stamped `now`. */
    method CacheMovie(id: MovieId, data: Payload, now: Time)
      modifies this
      ensures movies == old(movies)[id := CachedMovie(data, now)]
      ensures userData == old(userData)
      ensures forall t :: CacheLookup(movies, id, t) == (if t < now + CacheTtl then Some(data) else None)
      ensures forall other, t :: other != id ==> CacheLookup(movies, other, t) == CacheLookup(old(movies), other, t)
    {
      movies := movies[id := CachedMovie(data, now)];
    }

    /** `get_cached_movie`: the stored data when an entry exists and is younger
        than 24 hours at `now`, else nothing. */
    method GetCachedMovie(id: MovieId, now: Time) returns (r: Option<Payload>)
      ensures id !in movies ==> r == None
      ensures id in movies && now - movies[id].lastUpdated < CacheTtl ==> r == Some(movies[id].data)
      ensures id in movies && now - movies[id].lastUpdated >= CacheTtl ==> r == None
      ensures r == CacheLookup(movies, id, now)
    {
      if id !in movies {
        return None;
      }
      var entry := movies[id];
      if now - entry.lastUpdated < CacheTtl {
        r := Some(entry.data);
      } else {
        r := None;
      }
    }

    /** `save_user_rating`: insert or replace the rating of `(user, id)`. */
    method SaveUserRating(user: UserId, id: MovieId, rating: Score, now: Time)
      modifies this
      ensures userData == old(userData)[(user, id) := RatingRow(rating, now)]
      ensures movies == old(movies)
      ensures RatingsOf(userData, user) == RatingsOf(old(userData), user)[id := rating]
      ensures forall other :: other != user ==> RatingsOf(userData, other) == RatingsOf(old(userData), other)
    {
      userData := userData[(user, id) := RatingRow(rating, now)];
      forall other | other != user
        ensures RatingsOf(userData, other) == RatingsOf(old(userData), other)
      {
        RatingUpsertOthers(old(userData), user, id, RatingRow(rating, now), other);
      }
      RatingUpsertOwn(old(userData), user, id, RatingRow(rating, now));
    }

    /** `get_user_ratings`: the user's movies, each with its one rating. */
    method GetUserRatings(user: UserId) returns (ratings: map<MovieId, Score>)
      ensures forall m :: m in ratings <==> (user, m) in userData
      ensures forall m :: m in ratings ==> ratings[m] == userData[(user, m)].rating
      ensures ratings == RatingsOf(userData, user)
    {
      ratings := map k | k in userData && k.0 == user :: k.1 := userData[k].rating;
    }
  }
}
