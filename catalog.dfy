/** Values shared by the store, the recommendation engine and the display:
    a movie as the TMDb catalog returns it, reduced to the fields the core
    looks at, and a few small helpers. */
module Catalog {

  /** TMDb's integer movie identifier (`movie['id']`, `tmdb_id`). */
  type MovieId = int

  /** One entry of a catalog `results` list. Only `id` matters to the core;
      the title stands for the rest of the JSON object, which is carried along
      unchanged. */
  datatype Movie = Movie(id: MovieId, title: string)

  /** Python's `None` or a value. */
  datatype Option<T> = None | Some(value: T)

  function Min(a: int, b: int): int { if a <= b then a else b }

  function Max(a: int, b: int): int { if a >= b then a else b }

  /** The ids occurring in a list of movies. */
  ghost function IdsOf(ms: seq<Movie>): set<MovieId>
  {
    set k | 0 <= k < |ms| :: ms[k].id
  }

  /** No id occurs twice. */
  ghost predicate DistinctIds(ms: seq<Movie>)
  {
    forall i, j :: 0 <= i < j < |ms| ==> ms[i].id != ms[j].id
  }

  /** `sub` can be obtained from `s` by deleting elements: same elements,
      same relative order. */
  ghost predicate IsSubsequence<T>(sub: seq<T>, s: seq<T>)
    decreases |s|
  {
    if sub == [] then true
    else if s == [] then false
    else (sub[0] == s[0] && IsSubsequence(sub[1..], s[1..])) || IsSubsequence(sub, s[1..])
  }

  /** Python's `s[:n]`: the first `n` elements, or, for negative `n`, all
      but the last `-n`. */
  function PyPrefix<T>(s: seq<T>, n: int): (r: seq<T>)
    ensures r <= s
    ensures 0 <= n ==> |r| == Min(n, |s|)
    ensures n < 0 ==> |r| == Max(0, |s| + n)
  {
    if n >= 0 then s[..Min(n, |s|)] else s[..Max(0, |s| + n)]
  }
}
