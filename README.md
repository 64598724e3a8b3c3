# Movie recommender core, modelled in Dafny

`movie_rec.py` is a Tk desktop client for the TMDb movie catalog. Its core
has three parts, and each is modelled here.

- **The local store** (`MovieDatabase`) has two SQLite tables.
  - `movies` is a 24-hour cache of movie details, keyed by `tmdb_id`.
  - `user_data` holds one rating per `(user_id, tmdb_id)`, written with `INSERT OR REPLACE`.
- **The recommendation rule** (`RecommendationEngine.generate_recommendations`).
  - A user with no ratings gets the trending list cut to `limit`.
  - Otherwise the three best-rated movies are the seeds. Their TMDb recommendation lists are joined.
  - From the joined list the rule keeps the first occurrence of each movie the user has not rated, and stops at `limit`.
- **Two pieces of display arithmetic** in `MovieRecommenderApp`.
  - The runtime text (`"2h 5m"`, `"45m"`).
  - The placement of movie cards in a four-column grid (search shows at most 20).

Files:

- `catalog.dfy` (module `Catalog`): `Movie`, `Option`, Python's `s[:n]`, and id and subsequence predicates.
- `database.dfy` (module `Database`): class `MovieDatabase`, with one map field per table and an explicit integer clock.
  - `CacheLookup` and `RatingsOf` state what its reads return.
  - Lemmas cover the upsert and freshness rules.
- `engine.dfy` (module `Engine`): the recommendation rule, split into its steps.
  - `RatingItems` lists the ratings dictionary.
  - `SortByScore` is the stable descending sort.
  - `Seeds` takes the first three.
  - `JoinRecommendations` is the `extend` loop.
  - `CollectUnique` is the `seen` loop with its `break`.
  - `RatingItems` is proved to produce a listing of the dictionary (`Lists`). `JoinRecommendations` is proved equal to the function `Joined`, and `CollectUnique` to the function `Pick`.
  - `SortByScore` and `InsertByScore` are functions whose contracts state order and permutation.
  - Lemmas prove what the source promises about `Joined` and `Pick`.
- `display.dfy` (module `Display`): `RuntimeText`, which is proved against an independent reader `ReadRuntime`, and the card placement methods.

Modelling choices:

- **Catalog responses are inputs.** `trending` is the `results` list of the trending call. `recs(id)` is the `results` list of the recommendations call for `id`. A response without `results` is the empty list, as `.get('results', [])` makes it.
- **One integer clock in seconds.** It replaces SQLite's `CURRENT_TIMESTAMP` on writes and `datetime.now()` on reads.
- **Ratings are integers in tenths.** The rating scale is 0.5 to 10.0 in steps the dialog leaves free. The engine only compares ratings.
- **The order of `user_ratings.items()` is free.** It is the order in which SQLite returns the rows, which SQL does not fix. So `RatingItems` may list the ratings in any order.
  - Seeds with equal ratings may therefore come in any order.
  - `SeedChoice` states exactly what holds for every such order.
- **`limit` is any integer.** Python's `trending[:limit]` treats a negative `limit` as "all but the last `-limit`". `PyPrefix` models this.
  - With ratings, the check `len(...) >= limit` runs after the append. So `limit <= 0` still lets one movie through.
  - Both behaviours are modelled as written.

`movie_rec.py` ranks only by the user's own ratings. It has no genre-affinity scoring, no mood filter, no weighted popularity score, no preferences table and no poster pruning. `TMDbClient` raises an exception after four rate-limited attempts (movie_rec.py:63-68).

## Model

| member | source | states |
|---|---|---|
| `Catalog.PyPrefix` | movie_rec.py:279 | `s[:n]` is a prefix of `s`, of length `min(n, len(s))` for `n >= 0` and `max(0, len(s) + n)` for negative `n` |
| `Database.MovieDatabase.constructor` | movie_rec.py:118-137 | opening the store keeps the rows the file already holds in both tables (`CREATE TABLE IF NOT EXISTS`); a new file gives two empty tables |
| `Database.MovieDatabase.CacheMovie` | movie_rec.py:139-145 | insert-or-replace of the entry of `id`, stamped with the write time; afterwards a read of `id` returns the data exactly until 24 hours after the write; other ids and the ratings table are unchanged |
| `Database.MovieDatabase.GetCachedMovie` | movie_rec.py:147-163 | no entry gives `None`; an entry younger than 24 hours gives its data unchanged; an older entry gives `None` |
| `Database.CacheWriteThenRead` | movie_rec.py:139-163 | a cached value reads back unchanged while `now < written + 24h` and as absent afterwards; writing one id never changes what another id reads |
| `Database.ExpiredStaysExpired` | movie_rec.py:158-163 | freshness is recomputed on each read and only runs out: an entry absent at `t1` is absent at every later `t2` |
| `Database.RatingsOf` | movie_rec.py:173-180 | the ratings dictionary of a user has a key exactly for each `(user, movie)` row, mapped to that row's rating |
| `Database.MovieDatabase.GetUserRatings` | movie_rec.py:173-180 | returns the movies the user rated, each mapped to its one stored rating |
| `Database.MovieDatabase.SaveUserRating` | movie_rec.py:165-171 | insert-or-replace keyed by `(user, movie)`: the user's dictionary afterwards is the old one with that movie set to the new rating; every other user's dictionary and the cache are unchanged |
| `Database.RatingUpsertOwn` | movie_rec.py:165-180 | after a rating write, the writer's dictionary has exactly one entry for the movie, holding the latest score, and is otherwise unchanged |
| `Database.RatingUpsertOthers` | movie_rec.py:165-180 | a rating write by one user leaves every other user's dictionary unchanged |
| `Engine.RatingItems` | movie_rec.py:285 | `user_ratings.items()`: every `(id, rating)` pair of the dictionary exactly once, ids distinct |
| `Engine.InsertByScore` | movie_rec.py:285 | inserting one pair into a highest-first list keeps it highest-first and adds exactly that pair |
| `Engine.SortByScore` | movie_rec.py:285 | `sorted(..., key=rating, reverse=True)` returns a permutation of its input in non-increasing rating order |
| `Engine.SortKeepsDistinct` | movie_rec.py:285 | sorting a listing with distinct ids keeps the ids distinct |
| `Engine.SortedSeedsAreChosen` | movie_rec.py:285-288 | the seeds `sorted_ratings[:3]` are `min(3, #ratings)` distinct rated ids in non-increasing rating order, and every rated id left out is rated no higher than the last seed |
| `Engine.JoinRecommendations` | movie_rec.py:282-290 | the `extend` loop yields the seeds' recommendation lists joined in seed order, and every movie in it comes from some seed's list |
| `Engine.JoinedFromSeeds` | movie_rec.py:287-290 | every movie of the joined list occurs in the recommendation list of some seed |
| `Engine.CollectUnique` | movie_rec.py:292-304 | the `seen`/`break` loop computes exactly the scan `Pick(recommended, rated, limit)` |
| `Engine.PickIsFresh` | movie_rec.py:296-299 | no kept movie has an excluded (rated) id, and no id is kept twice |
| `Engine.PickIsSubsequence` | movie_rec.py:292-299 | the kept movies are a subsequence of the joined list: same movies, original order |
| `Engine.PickKeepsFirst` | movie_rec.py:292-299 | of several movies with one id, the one kept is its first occurrence in the joined list |
| `Engine.PickLength` | movie_rec.py:296-302 | at most `max(limit, 1)` movies are kept (so at most `limit` when `limit >= 1`), and never more than the list holds |
| `Engine.PickIsComplete` | movie_rec.py:296-302 | the scan stops early only when the limit is reached: with fewer than `max(limit, 1)` kept, every unrated id of the joined list is kept |
| `Engine.PickBudgetFloor` | movie_rec.py:299-302 | since the limit is checked only after an append, a limit of 0 or less keeps exactly what a limit of 1 keeps |
| `Engine.PickPrefix` | movie_rec.py:296-302 | a smaller limit keeps a prefix of what a larger limit keeps, and the same movies when the smaller limit is not reached |
| `Engine.ScanIsPrefixOfUnlimited` | movie_rec.py:292-304 | the scan with `limit` keeps the first `max(limit, 1)` movies of the scan without limit, or all of them when there are fewer; the scan without limit keeps every unrated id of the joined list |
| `Engine.Recommend` | movie_rec.py:277-304 | no ratings: exactly `trending[:limit]`, which is non-empty if `limit >= 1` and trending is non-empty. Otherwise the seeds meet `SeedChoice` and the result is the scan of their joined lists. That means: no rated id, ids pairwise distinct, a subsequence of the joined lists, first occurrences only, at most `max(limit, 1)` items, stopping early only at the limit, and exactly the first `max(limit, 1)` unrated first occurrences of the joined lists (or all of them when there are fewer) |
| `Engine.RecommendationEngine.constructor` | movie_rec.py:268-270 | the engine keeps the store it was given |
| `Engine.RecommendationEngine.GenerateRecommendations` | movie_rec.py:272-304 | reads the user's ratings from the store and applies the rule. If the user has rated anything, no returned movie is one the user rated, ids are distinct, there are at most `max(limit, 1)` of them, and they are the first `max(limit, 1)` unrated first occurrences of the seeds' joined lists (or all of them) |
| `Engine.RateThenRecommend` | movie_rec.py:632-641 | user 1's rating is saved (the cache is unchanged); after the recommendations are refreshed with the default limit 10, the rated movie is not among the at most 10 distinct movies shown |
| `Display.RuntimeText` | movie_rec.py:551-554 | a missing runtime or a runtime of 0 shows no text; any other runtime shows some text |
| `Display.RuntimeTextReadsBack` | movie_rec.py:551-553 | for `runtime != 0` the text shows the unique `h`, `m` with `60h + m == runtime` and `0 <= m < 60`; they read back from the text; the `h` part appears exactly when `h != 0` |
| `Display.RuntimeTextInjective` | movie_rec.py:551-553 | two different non-zero runtimes never show the same text |
| `Display.NatReadsBack` | movie_rec.py:553 | the decimal text Python's f-string writes for a natural number reads back as that number |
| `Display.GridCell` | movie_rec.py:444 | `divmod(idx, 4)`: the column is below 4 and `4 * row + column == idx` |
| `Display.PlaceCards` | movie_rec.py:443-445 | card `i` shows movie `i` at the cell `(row, column)` with `4 * row + column == i` and `column < 4`; no two cards share a cell |
| `Display.DisplaySearchResults` | movie_rec.py:428-445 | at most the first 20 results get cards, in order, card `i` at row `i // 4` and column `i % 4`, so in at most 5 rows of 4, no two in one cell |
| `Display.DisplayRecommendations` | movie_rec.py:703-722 | every recommended movie gets a card, movie `i` at row `i // 4` and column `i % 4` |

## Left out

- `TMDbClient` (movie_rec.py:32-113) is HTTP plumbing over `requests`, with sleeps, a wall-clock rate-limit reset and JSON decoding. Its responses are the engine's `trending` and `recs` inputs. Its retry recursion is not modelled: up to four attempts on HTTP 429, then an exception that its own handler does not catch. `generate_recommendations` then raises instead of returning. `Recommend` covers only runs in which every catalog call returns.
- `ImageCache` (movie_rec.py:182-219): filesystem checks, PIL decoding, deleting corrupt files and downloads. All of it is I/O and foreign library calls.
- SQLite itself. Tables are maps, and each call is one atomic map update. `CURRENT_TIMESTAMP` is written in UTC but compared with the local `datetime.now()`. This time-zone offset is not reproduced: one clock serves both.
- `json.dumps`/`json.loads` of cached details. The payload is an opaque string, stored and returned unchanged.
- Ratings are floats from the 0.5-10 scale. Here they are integers, tenths of a point, because the engine only compares them.
- A catalog result without an `id` key raises `KeyError` in the source. A `Movie` here always has an id.
- `ScrollableFrame`, and every widget, dialog, message box and label of `MovieRecommenderApp`. This includes the `"Runtime: "` prefix and the `" | "` join with the release date, and the read-through of the details window (movie_rec.py:500-512). Only the runtime text and the grid placement are modelled.
- `RateThenRecommend` models the submit when the recommendations tab is the selected one. On any other tab the source saves the rating and does not refresh; that case is `SaveUserRating` alone.
- Process start-up (movie_rec.py:724-728) and reading the API key from the environment.
- Engine.SortByScore: the sort is stable, as Python's `sorted` is, but its contract states only order and permutation. Because the listing order of the ratings is itself unspecified, stability adds nothing observable.
