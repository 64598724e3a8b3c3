/** `RecommendationEngine.generate_recommendations` (movie_rec.py:265-304).

    The catalog calls are inputs: `trending` is the `results` list of the
    trending endpoint and `recs(id)` the `results` list of the recommendations
    endpoint for movie `id` (a response without `results` is the empty list).

    The rule: a user without ratings gets `trending[:limit]`. Otherwise the
    user's ratings are sorted by score, highest first; the recommendation lists
    of the top three ("seeds") are joined; the joined list is scanned once,
    keeping the first occurrence of each id that the user has not rated, and the
    scan stops as soon as `limit` movies have been kept. */
module Engine {
  import opened Catalog
  import opened Database

  /** The arguments' defaults in the source, `user_id=1, limit=10`; the
      window always acts for user 1 (`current_user_id`). */
  const DefaultUser: UserId := 1
  const DefaultLimit: int := 10

  /** How many of the best-rated movies seed the recommendations. */
  const SeedCount: nat := 3

  /** One `(tmdb_id, rating)` pair of `user_ratings.items()`. */
  datatype RatedMovie = RatedMovie(id: MovieId, score: Score)

  /** `entries` lists the dictionary `ratings`: every pair once, in some order. */
  ghost predicate Lists(entries: seq<RatedMovie>, ratings: map<MovieId, Score>)
  {
    && |entries| == |ratings|
    && (forall i :: 0 <= i < |entries| ==> entries[i].id in ratings && ratings[entries[i].id] == entries[i].score)
    && (forall i, j :: 0 <= i < j < |entries| ==> entries[i].id != entries[j].id)
    && (forall id :: id in ratings ==> exists i :: 0 <= i < |entries| && entries[i].id == id)
  }

  /** Highest score first. */
  ghost predicate ByScoreDesc(s: seq<RatedMovie>)
  {
    forall i, j :: 0 <= i < j < |s| ==> s[i].score >= s[j].score
  }

  ghost predicate DistinctRated(s: seq<RatedMovie>)
  {
    forall i, j :: 0 <= i < j < |s| ==> s[i].id != s[j].id
  }

  /** One step of a stable sort on descending score: `e` goes before the first
      element whose score it matches or beats. */
  function InsertByScore(e: RatedMovie, s: seq<RatedMovie>): (r: seq<RatedMovie>)
    requires ByScoreDesc(s)
    ensures ByScoreDesc(r)
    ensures multiset(r) == multiset(s) + multiset{e}
  {
    if s == [] || e.score >= s[0].score then [e] + s
    else
      var rest := InsertByScore(e, s[1..]);
      assert s == [s[0]] + s[1..];
      HeadStaysFirst(s[0], s[1..], e, rest);
      [s[0]] + rest
  }

  /** An element that scores at least as high as every element of `tail`,
      and higher than `e`, scores at least as high as every element of any
      reordering of `tail` with `e` added. */
  lemma HeadStaysFirst(head: RatedMovie, tail: seq<RatedMovie>, e: RatedMovie, rest: seq<RatedMovie>)
    requires forall i :: 0 <= i < |tail| ==> head.score >= tail[i].score
    requires e.score < head.score
    requires multiset(rest) == multiset(tail) + multiset{e}
    ensures forall j :: 0 <= j < |rest| ==> head.score >= rest[j].score
  {
    forall j | 0 <= j < |rest| ensures head.score >= rest[j].score {
      assert rest[j] in multiset(rest);
      if rest[j] != e {
        assert rest[j] in multiset(tail);
        var p :| 0 <= p < |tail| && tail[p] == rest[j];
      }
    }
  }

  /** `sorted(user_ratings.items(), key=lambda x: x[1], reverse=True)`: a
      permutation of the entries with the highest score first. */
  function SortByScore(s: seq<RatedMovie>): (r: seq<RatedMovie>)
    ensures ByScoreDesc(r)
    ensures multiset(r) == multiset(s)
  {
    if s == [] then []
    else
      assert s == [s[0]] + s[1..];
      InsertByScore(s[0], SortByScore(s[1..]))
  }

  /** The ids of `sorted_ratings[:3]`. */
  function Seeds(sorted: seq<RatedMovie>): (r: seq<MovieId>)
    ensures |r| == Min(SeedCount, |sorted|)
    ensures forall i :: 0 <= i < |r| ==> r[i] == sorted[i].id
  {
    seq(Min(SeedCount, |sorted|), i requires 0 <= i < Min(SeedCount, |sorted|) => sorted[i].id)
  }

  /** What the source promises of its seeds: at most three rated movies, none
      twice, in non-increasing order of rating, and no rated movie left out
      that is rated above the lowest seed. */
  ghost predicate SeedChoice(ratings: map<MovieId, Score>, seeds: seq<MovieId>)
  {
    && |seeds| == Min(SeedCount, |ratings|)
    && (forall i :: 0 <= i < |seeds| ==> seeds[i] in ratings)
    && (forall i, j :: 0 <= i < j < |seeds| ==> seeds[i] != seeds[j])
    && (forall i, j :: 0 <= i < j < |seeds| ==> ratings[seeds[i]] >= ratings[seeds[j]])
    && (forall id :: id in ratings && id !in seeds ==> ratings[id] <= ratings[seeds[|seeds| - 1]])
  }

  /** `recommended_movies`: the seeds' recommendation lists, joined in seed order. */
  function Joined(seeds: seq<MovieId>, recs: MovieId -> seq<Movie>): seq<Movie>
  {
    if seeds == [] then [] else Joined(seeds[..|seeds| - 1], recs) + recs(seeds[|seeds| - 1])
  }

  /** The de-duplicating scan over `ms`: skip ids in `excluded` (rated or
      already kept), keep the rest, and stop right after keeping a movie when
      no more than one more was wanted (`budget <= 1`). */
  function Pick(ms: seq<Movie>, excluded: set<MovieId>, budget: int): seq<Movie>
  {
    if ms == [] then []
    else if ms[0].id in excluded then Pick(ms[1..], excluded, budget)
    else [ms[0]] + (if budget <= 1 then [] else Pick(ms[1..], excluded + {ms[0].id}, budget - 1))
  }

  /** The first movie of `ms` with the given id. */
  ghost function FirstWithId(ms: seq<Movie>, id: MovieId): Movie
    requires id in IdsOf(ms)
  {
    if ms[0].id == id then ms[0]
    else
      assert id in IdsOf(ms[1..]) by {
        var k :| 0 <= k < |ms| && ms[k].id == id;
        assert ms[1..][k - 1].id == id;
      }
      FirstWithId(ms[1..], id)
  }

  // ---------------------------------------------------------------------------
  // Seeds

  lemma {:induction false} InsertKeepsDistinct(e: RatedMovie, s: seq<RatedMovie>)
    requires ByScoreDesc(s) && DistinctRated(s)
    requires forall i :: 0 <= i < |s| ==> s[i].id != e.id
    ensures DistinctRated(InsertByScore(e, s))
  {
    if s != [] && e.score < s[0].score {
      InsertKeepsDistinct(e, s[1..]);
      var rest := InsertByScore(e, s[1..]);
      forall x | x in rest ensures x.id != s[0].id {
        assert x in multiset(s[1..]) + multiset{e};
      }
    }
  }

  lemma {:induction false} SortKeepsDistinct(s: seq<RatedMovie>)
    requires DistinctRated(s)
    ensures DistinctRated(SortByScore(s))
  {
    if s != [] {
      SortKeepsDistinct(s[1..]);
      var rest := SortByScore(s[1..]);
      forall i | 0 <= i < |rest| ensures rest[i].id != s[0].id {
        assert rest[i] in multiset(s[1..]);
      }
      InsertKeepsDistinct(s[0], rest);
    }
  }

  /** Sorting reorders a listing of the ratings into another listing. */
  lemma SortedIsListing(entries: seq<RatedMovie>, ratings: map<MovieId, Score>)
    requires Lists(entries, ratings)
    ensures Lists(SortByScore(entries), ratings)
  {
    var sorted := SortByScore(entries);
    SortKeepsDistinct(entries);
    assert |sorted| == |entries| by {
      assert |multiset(sorted)| == |multiset(entries)|;
    }
    forall i | 0 <= i < |sorted| ensures sorted[i].id in ratings && ratings[sorted[i].id] == sorted[i].score {
      assert sorted[i] in multiset(entries);
    }
    forall id | id in ratings ensures exists q :: 0 <= q < |sorted| && sorted[q].id == id {
      var p :| 0 <= p < |entries| && entries[p].id == id;
      assert entries[p] in multiset(sorted);
    }
  }

  /** The first three ids of a best-first listing of the ratings meet the
      seed contract. */
  lemma SeedsOfListing(sorted: seq<RatedMovie>, ratings: map<MovieId, Score>)
    requires Lists(sorted, ratings) && ByScoreDesc(sorted)
    ensures SeedChoice(ratings, Seeds(sorted))
  {
    var seeds := Seeds(sorted);
    forall id | id in ratings && id !in seeds ensures ratings[id] <= ratings[seeds[|seeds| - 1]] {
      var q :| 0 <= q < |sorted| && sorted[q].id == id;
    }
  }

  /** Sorting a listing of the ratings and taking its first three ids meets
      the seed contract. */
  lemma SortedSeedsAreChosen(entries: seq<RatedMovie>, ratings: map<MovieId, Score>)
    requires Lists(entries, ratings)
    ensures SeedChoice(ratings, Seeds(SortByScore(entries)))
  {
    SortedIsListing(entries, ratings);
    SeedsOfListing(SortByScore(entries), ratings);
  }

  // ---------------------------------------------------------------------------
  // The de-duplicating scan

  /** Nothing kept is excluded (rated by the user), and no id is kept twice. */
  lemma {:induction false} PickIsFresh(ms: seq<Movie>, excluded: set<MovieId>, budget: int)
    ensures forall k :: 0 <= k < |Pick(ms, excluded, budget)| ==> Pick(ms, excluded, budget)[k].id !in excluded
    ensures DistinctIds(Pick(ms, excluded, budget))
  {
    if ms != [] {
      if ms[0].id in excluded {
        PickIsFresh(ms[1..], excluded, budget);
      } else if budget > 1 {
        PickIsFresh(ms[1..], excluded + {ms[0].id}, budget - 1);
      }
    }
  }

  /** What is kept is taken from `ms` in its original order. */
  lemma {:induction false} PickIsSubsequence(ms: seq<Movie>, excluded: set<MovieId>, budget: int)
    ensures IsSubsequence(Pick(ms, excluded, budget), ms)
  {
    if ms != [] {
      if ms[0].id in excluded {
        PickIsSubsequence(ms[1..], excluded, budget);
        SubsequenceSkip(Pick(ms[1..], excluded, budget), ms);
      } else if budget > 1 {
        PickIsSubsequence(ms[1..], excluded + {ms[0].id}, budget - 1);
      } else {
        EmptyIsSubsequence(ms[1..]);
      }
    }
  }

  lemma EmptyIsSubsequence<T>(s: seq<T>)
    ensures IsSubsequence([], s)
  {
  }

  lemma {:induction false} SubsequenceSkip<T>(sub: seq<T>, s: seq<T>)
    requires s != [] && IsSubsequence(sub, s[1..])
    ensures IsSubsequence(sub, s)
  {
  }

  /** At most `budget` movies are kept, and at least one is when one is
      eligible: a budget of zero or less still lets the first through. */
  lemma {:induction false} PickLength(ms: seq<Movie>, excluded: set<MovieId>, budget: int)
    ensures |Pick(ms, excluded, budget)| <= Max(budget, 1)
    ensures |Pick(ms, excluded, budget)| <= |ms|
  {
    if ms != [] {
      if ms[0].id in excluded {
        PickLength(ms[1..], excluded, budget);
      } else if budget > 1 {
        PickLength(ms[1..], excluded + {ms[0].id}, budget - 1);
      }
    }
  }

  /** The scan only stops early once the budget is used up: while fewer than
      `max(budget, 1)` movies are kept, every eligible id of `ms` is kept. */
  lemma {:induction false} PickIsComplete(ms: seq<Movie>, excluded: set<MovieId>, budget: int)
    ensures |Pick(ms, excluded, budget)| < Max(budget, 1) ==>
              forall j :: 0 <= j < |ms| && ms[j].id !in excluded ==> ms[j].id in IdsOf(Pick(ms, excluded, budget))
  {
    var r := Pick(ms, excluded, budget);
    if ms != [] && |r| < Max(budget, 1) {
      if ms[0].id in excluded {
        PickIsComplete(ms[1..], excluded, budget);
        forall j | 0 <= j < |ms| && ms[j].id !in excluded ensures ms[j].id in IdsOf(r) {
          assert ms[1..][j - 1] == ms[j];
        }
      } else {
        var tail := Pick(ms[1..], excluded + {ms[0].id}, budget - 1);
        assert budget > 1;
        PickIsComplete(ms[1..], excluded + {ms[0].id}, budget - 1);
        assert r == [ms[0]] + tail;
        assert ms[0].id == r[0].id;
        forall j | 0 <= j < |ms| && ms[j].id !in excluded ensures ms[j].id in IdsOf(r) {
          if ms[j].id != ms[0].id {
            assert ms[1..][j - 1] == ms[j];
            var k :| 0 <= k < |tail| && tail[k].id == ms[j].id;
            assert r[k + 1] == tail[k];
          }
        }
      }
    }
  }

  /** A budget of zero or less behaves as a budget of one: the first eligible
      movie is kept before the budget is looked at. */
  lemma {:induction false} PickBudgetFloor(ms: seq<Movie>, excluded: set<MovieId>, budget: int)
    requires budget <= 1
    ensures Pick(ms, excluded, budget) == Pick(ms, excluded, 1)
  {
    if ms != [] && ms[0].id in excluded {
      PickBudgetFloor(ms[1..], excluded, budget);
    }
  }

  /** A smaller budget keeps a prefix of what a larger one keeps, and the
      same movies unless the smaller budget is used up. */
  lemma {:induction false} PickPrefix(ms: seq<Movie>, excluded: set<MovieId>, b1: int, b2: int)
    requires 1 <= b1 <= b2
    ensures Pick(ms, excluded, b1) <= Pick(ms, excluded, b2)
    ensures |Pick(ms, excluded, b1)| < b1 ==> Pick(ms, excluded, b1) == Pick(ms, excluded, b2)
  {
    if ms != [] {
      if ms[0].id in excluded {
        PickPrefix(ms[1..], excluded, b1, b2);
      } else if b1 > 1 {
        PickPrefix(ms[1..], excluded + {ms[0].id}, b1 - 1, b2 - 1);
      }
    }
  }

  /** The scan with no limit: every first occurrence of an id not excluded. */
  ghost function Unlimited(ms: seq<Movie>, excluded: set<MovieId>): seq<Movie>
  {
    Pick(ms, excluded, |ms| + 1)
  }

  /** The scan with `limit` keeps the first `max(limit, 1)` movies of the scan
      with no limit (all of them when there are fewer), and the scan with no
      limit keeps every id of `ms` that is not excluded. */
  lemma ScanIsPrefixOfUnlimited(ms: seq<Movie>, excluded: set<MovieId>, limit: int)
    ensures Pick(ms, excluded, limit) <= Unlimited(ms, excluded)
    ensures |Pick(ms, excluded, limit)| == Max(limit, 1) || Pick(ms, excluded, limit) == Unlimited(ms, excluded)
    ensures forall j :: 0 <= j < |ms| && ms[j].id !in excluded ==> ms[j].id in IdsOf(Unlimited(ms, excluded))
  {
    PickLength(ms, excluded, |ms| + 1);
    PickIsComplete(ms, excluded, |ms| + 1);
    PickLength(ms, excluded, limit);
    if limit <= 1 {
      PickBudgetFloor(ms, excluded, limit);
      PickPrefix(ms, excluded, 1, |ms| + 1);
    } else if limit <= |ms| + 1 {
      PickPrefix(ms, excluded, limit, |ms| + 1);
    } else {
      PickPrefix(ms, excluded, |ms| + 1, limit);
    }
  }

  /** Of several movies with one id, the one kept is the first in `ms`. */
  lemma {:induction false} PickKeepsFirst(ms: seq<Movie>, excluded: set<MovieId>, budget: int)
    ensures forall k :: 0 <= k < |Pick(ms, excluded, budget)| ==>
              Pick(ms, excluded, budget)[k].id in IdsOf(ms) &&
              Pick(ms, excluded, budget)[k] == FirstWithId(ms, Pick(ms, excluded, budget)[k].id)
  {
    var r := Pick(ms, excluded, budget);
    if ms != [] {
      var tailExcluded := if ms[0].id in excluded then excluded else excluded + {ms[0].id};
      var tailBudget := if ms[0].id in excluded then budget else budget - 1;
      var tail := Pick(ms[1..], tailExcluded, tailBudget);
      PickKeepsFirst(ms[1..], tailExcluded, tailBudget);
      PickIsFresh(ms[1..], tailExcluded, tailBudget);
      forall k | 0 <= k < |r| ensures r[k].id in IdsOf(ms) && r[k] == FirstWithId(ms, r[k].id) {
        var t := if ms[0].id in excluded then k else k - 1;
        if ms[0].id !in excluded && k == 0 {
          assert ms[0].id in IdsOf(ms);
        } else {
          assert r[k] == tail[t];
          var j :| 0 <= j < |ms[1..]| && ms[1..][j].id == tail[t].id;
          assert ms[j + 1].id == r[k].id;
          assert r[k].id != ms[0].id;
        }
      }
    }
  }

  /** Every movie of the joined list comes from the list of one of the seeds. */
  lemma {:induction false} JoinedFromSeeds(seeds: seq<MovieId>, recs: MovieId -> seq<Movie>, m: Movie)
    requires m in Joined(seeds, recs)
    ensures exists i :: 0 <= i < |seeds| && m in recs(seeds[i])
  {
    var last := |seeds| - 1;
    if m !in recs(seeds[last]) {
      JoinedFromSeeds(seeds[..last], recs, m);
      var i :| 0 <= i < last && m in recs(seeds[..last][i]);
      assert seeds[..last][i] == seeds[i];
    }
  }

  lemma {:induction false} SubsequenceMembers<T>(sub: seq<T>, s: seq<T>)
    requires IsSubsequence(sub, s)
    ensures forall x :: x in sub ==> x in s
  {
    if sub != [] && s != [] {
      if sub[0] == s[0] && IsSubsequence(sub[1..], s[1..]) {
        SubsequenceMembers(sub[1..], s[1..]);
        forall x | x in sub ensures x in s {
          if x != sub[0] {
            assert x in sub[1..];
          }
        }
      } else {
        SubsequenceMembers(sub, s[1..]);
      }
    }
  }

  // ---------------------------------------------------------------------------
  // The rule

  /** Some element of a non-empty set of ids. */
  lemma HasElement(keys: set<MovieId>)
    requires keys != {}
    ensures exists k :: k in keys
  {
    if forall k :: k !in keys {
      assert false;
    }
  }

  /** `user_ratings.items()`: the dictionary's pairs in the order the store's
      query returned the rows, which SQL leaves unspecified; here any order. */
  method RatingItems(ratings: map<MovieId, Score>) returns (entries: seq<RatedMovie>)
    ensures Lists(entries, ratings)
  {
    entries := [];
    var rest := ratings.Keys;
    while rest != {}
      invariant rest <= ratings.Keys
      invariant |entries| + |rest| == |ratings|
      invariant forall i :: 0 <= i < |entries| ==> entries[i].id in ratings && ratings[entries[i].id] == entries[i].score
      invariant forall i :: 0 <= i < |entries| ==> entries[i].id !in rest
      invariant forall i, j :: 0 <= i < j < |entries| ==> entries[i].id != entries[j].id
      invariant forall id :: id in ratings && id !in rest ==> exists i :: 0 <= i < |entries| && entries[i].id == id
      decreases rest
    {
      HasElement(rest);
      var id: MovieId :| id in rest;
      ghost var before := entries;
      entries := entries + [RatedMovie(id, ratings[id])];
      rest := rest - {id};
      forall other | other in ratings && other !in rest
        ensures exists i :: 0 <= i < |entries| && entries[i].id == other
      {
        if other == id {
          assert entries[|entries| - 1].id == other;
        } else {
          var i :| 0 <= i < |before| && before[i].id == other;
          assert entries[i].id == other;
        }
      }
    }
  }

  /** `recommended_movies`: the loop that extends it by each seed's list. */
  method JoinRecommendations(seeds: seq<MovieId>, recs: MovieId -> seq<Movie>) returns (recommended: seq<Movie>)
    ensures recommended == Joined(seeds, recs)
    ensures forall m :: m in recommended ==> exists i :: 0 <= i < |seeds| && m in recs(seeds[i])
  {
    recommended := [];
    for i := 0 to |seeds|
      invariant recommended == Joined(seeds[..i], recs)
    {
      assert seeds[..i + 1][..i] == seeds[..i];
      recommended := recommended + recs(seeds[i]);
    }
    assert seeds[..|seeds|] == seeds;
    forall m | m in recommended ensures exists i :: 0 <= i < |seeds| && m in recs(seeds[i]) {
      JoinedFromSeeds(seeds, recs, m);
    }
  }

  lemma IdsOfAppend(ms: seq<Movie>, m: Movie)
    ensures IdsOf(ms + [m]) == IdsOf(ms) + {m.id}
  {
    assert (ms + [m])[|ms|].id == m.id;
    forall id | id in IdsOf(ms) ensures id in IdsOf(ms + [m]) {
      var k :| 0 <= k < |ms| && ms[k].id == id;
      assert (ms + [m])[k].id == id;
    }
  }

  lemma PickKeeps(m: Movie, rest: seq<Movie>, excluded: set<MovieId>, budget: int)
    requires m.id !in excluded
    ensures Pick([m] + rest, excluded, budget)
            == [m] + (if budget <= 1 then [] else Pick(rest, excluded + {m.id}, budget - 1))
  {
    assert ([m] + rest)[1..] == rest;
  }

  lemma PickSkips(m: Movie, rest: seq<Movie>, excluded: set<MovieId>, budget: int)
    requires m.id in excluded
    ensures Pick([m] + rest, excluded, budget) == Pick(rest, excluded, budget)
  {
    assert ([m] + rest)[1..] == rest;
  }

  /** One kept movie of the scan, for the loop in `CollectUnique`: `total` is
      what has been kept so far followed by the rest of the scan. */
  lemma ScanKeep(kept: seq<Movie>, m: Movie, rest: seq<Movie>, excluded: set<MovieId>, budget: int,
                 total: seq<Movie>)
    requires m.id !in excluded
    requires kept + Pick([m] + rest, excluded, budget) == total
    ensures budget <= 1 ==> kept + [m] == total
    ensures budget > 1 ==> (kept + [m]) + Pick(rest, excluded + {m.id}, budget - 1) == total
  {
    PickKeeps(m, rest, excluded, budget);
    if budget > 1 {
      assert kept + ([m] + Pick(rest, excluded + {m.id}, budget - 1))
          == (kept + [m]) + Pick(rest, excluded + {m.id}, budget - 1);
    } else {
      assert kept + ([m] + []) == kept + [m];
    }
  }

  /** All that the scan promises, in one place. */
  lemma PickFacts(ms: seq<Movie>, excluded: set<MovieId>, budget: int)
    ensures forall k :: 0 <= k < |Pick(ms, excluded, budget)| ==> Pick(ms, excluded, budget)[k].id !in excluded
    ensures DistinctIds(Pick(ms, excluded, budget))
    ensures IsSubsequence(Pick(ms, excluded, budget), ms)
    ensures |Pick(ms, excluded, budget)| <= Max(budget, 1)
    ensures |Pick(ms, excluded, budget)| < Max(budget, 1) ==>
              forall j :: 0 <= j < |ms| && ms[j].id !in excluded ==> ms[j].id in IdsOf(Pick(ms, excluded, budget))
  {
    PickIsFresh(ms, excluded, budget);
    PickIsSubsequence(ms, excluded, budget);
    PickLength(ms, excluded, budget);
    PickIsComplete(ms, excluded, budget);
  }

  /** The loop over `recommended_movies` with its `seen` set and early `break`:
      the first occurrence of each id not in `rated`, in order, stopping once
      `limit` movies are kept. */
  method CollectUnique(recommended: seq<Movie>, rated: set<MovieId>, limit: int) returns (unique: seq<Movie>)
    ensures unique == Pick(recommended, rated, limit)
  {
    var seen: set<MovieId> := {};
    unique := [];
    var n := 0;
    assert recommended[n..] == recommended && rated + seen == rated;
    while n < |recommended|
      invariant 0 <= n <= |recommended|
      invariant seen == IdsOf(unique)
      invariant unique != [] ==> |unique| < limit
      invariant unique + Pick(recommended[n..], rated + seen, limit - |unique|) == Pick(recommended, rated, limit)
    {
      var movie := recommended[n];
      ghost var excluded, budget := rated + seen, limit - |unique|;
      assert recommended[n..] == [movie] + recommended[n + 1..];
      if movie.id !in seen && movie.id !in rated {
        ScanKeep(unique, movie, recommended[n + 1..], excluded, budget, Pick(recommended, rated, limit));
        IdsOfAppend(unique, movie);
        seen := seen + {movie.id};
        unique := unique + [movie];
        if |unique| >= limit {
          break;
        }
        assert excluded + {movie.id} == rated + seen;
      } else {
        PickSkips(movie, recommended[n + 1..], excluded, budget);
      }
      n := n + 1;
    }
  }

  /** The recommendation rule applied to one user's ratings. `seeds` (ghost)
      are the ids whose recommendation lists were joined. */
  method Recommend(userRatings: map<MovieId, Score>, limit: int, trending: seq<Movie>,
                   recs: MovieId -> seq<Movie>)
    returns (result: seq<Movie>, ghost seeds: seq<MovieId>)
    // no ratings: the trending list cut to `limit`
    ensures |userRatings| == 0 ==> result == PyPrefix(trending, limit) && seeds == []
    ensures |userRatings| == 0 && 1 <= limit && trending != [] ==> result != []
    // otherwise: the scan over the seeds' joined lists
    ensures |userRatings| > 0 ==> SeedChoice(userRatings, seeds)
    ensures |userRatings| > 0 ==> result == Pick(Joined(seeds, recs), userRatings.Keys, limit)
    ensures |userRatings| > 0 ==> forall k :: 0 <= k < |result| ==> result[k].id !in userRatings
    ensures |userRatings| > 0 ==> DistinctIds(result)
    ensures |userRatings| > 0 ==> IsSubsequence(result, Joined(seeds, recs))
    ensures |userRatings| > 0 ==> forall k :: 0 <= k < |result| ==>
              result[k].id in IdsOf(Joined(seeds, recs)) && result[k] == FirstWithId(Joined(seeds, recs), result[k].id)
    ensures |userRatings| > 0 ==> |result| <= Max(limit, 1)
    ensures |userRatings| > 0 && |result| < Max(limit, 1) ==>
              forall m :: m in Joined(seeds, recs) && m.id !in userRatings ==> m.id in IdsOf(result)
    ensures |userRatings| > 0 ==> forall m :: m in result ==> exists i :: 0 <= i < |seeds| && m in recs(seeds[i])
    // the first `max(limit, 1)` unrated movies of the joined lists, or all of them
    ensures |userRatings| > 0 ==> result <= Unlimited(Joined(seeds, recs), userRatings.Keys)
    ensures |userRatings| > 0 ==> |result| == Max(limit, 1) || result == Unlimited(Joined(seeds, recs), userRatings.Keys)
  {
    if |userRatings| == 0 {
      return PyPrefix(trending, limit), [];
    }
    var items := RatingItems(userRatings);
    var top := Seeds(SortByScore(items));
    SortedSeedsAreChosen(items, userRatings);
    seeds := top;
    var recommended := JoinRecommendations(top, recs);
    result := CollectUnique(recommended, userRatings.Keys, limit);
    PickFacts(recommended, userRatings.Keys, limit);
    SubsequenceMembers(result, recommended);
    PickKeepsFirst(recommended, userRatings.Keys, limit);
    ScanIsPrefixOfUnlimited(recommended, userRatings.Keys, limit);
  }

  /** The engine holds the store it reads ratings from; the catalog it calls is
      replaced by the `trending` and `recs` arguments of each request. */
  class RecommendationEngine {
    const db: MovieDatabase

    constructor (db: MovieDatabase)
      ensures this.db == db
    {
      this.db := db;
    }

    /** `generate_recommendations(user_id, limit)`: read the user's ratings
        from the store, then apply the rule. */
    method GenerateRecommendations(user: UserId, limit: int, trending: seq<Movie>,
                                   recs: MovieId -> seq<Movie>)
      returns (result: seq<Movie>, ghost seeds: seq<MovieId>)
      ensures RatingsOf(db.userData, user) == map[] ==> result == PyPrefix(trending, limit)
      ensures RatingsOf(db.userData, user) != map[] ==>
                && SeedChoice(RatingsOf(db.userData, user), seeds)
                && result == Pick(Joined(seeds, recs), RatingsOf(db.userData, user).Keys, limit)
      ensures RatingsOf(db.userData, user) != map[] ==>
                forall k :: 0 <= k < |result| ==> (user, result[k].id) !in db.userData
      ensures RatingsOf(db.userData, user) != map[] ==> DistinctIds(result) && |result| <= Max(limit, 1)
      ensures RatingsOf(db.userData, user) != map[] ==>
                && result <= Unlimited(Joined(seeds, recs), RatingsOf(db.userData, user).Keys)
                && (|result| == Max(limit, 1) || result == Unlimited(Joined(seeds, recs), RatingsOf(db.userData, user).Keys))
    {
      var userRatings := db.GetUserRatings(user);
      result, seeds := Recommend(userRatings, limit, trending, recs);
    }
  }

  /** The rating dialog's submit (`current_user_id` is 1), followed by the
      refresh of the recommendations tab. The source refreshes only when that
      tab is the selected one; this is that case. After rating a movie, the
      user is never recommended that movie, and sees at most the default ten. */
  method RateThenRecommend(engine: RecommendationEngine, movie: Movie, rating: Score,
                           now: Time, trending: seq<Movie>, recs: MovieId -> seq<Movie>)
    returns (shown: seq<Movie>)
    modifies engine.db
    ensures engine.db.userData == old(engine.db.userData)[(DefaultUser, movie.id) := RatingRow(rating, now)]
    ensures engine.db.movies == old(engine.db.movies)
    ensures forall k :: 0 <= k < |shown| ==> shown[k].id != movie.id
    ensures |shown| <= DefaultLimit
    ensures DistinctIds(shown)
  {
    engine.db.SaveUserRating(DefaultUser, movie.id, rating, now);
    ghost var seeds;
    shown, seeds := engine.GenerateRecommendations(DefaultUser, DefaultLimit, trending, recs);
  }
}
