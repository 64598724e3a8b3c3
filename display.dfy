/** The two pieces of arithmetic in the desktop window `MovieRecommenderApp`
    that decide what is shown, apart from the widgets themselves:

    - the runtime line of the details window (movie_rec.py:551-554):
      `hours, minutes = divmod(runtime, 60)`, shown as `"{hours}h {minutes}m"`,
      or as `"{minutes}m"` when there are no hours; a missing or zero runtime
      shows nothing;
    - the card grid of the search and recommendation tabs
      (movie_rec.py:438-445, 715-722): card `idx` goes to
      `divmod(idx, 4)`, i.e. row `idx // 4` and column `idx % 4`; search shows
      at most the first 20 results. */
module Display {
  import opened Catalog

  const MinutesPerHour: int := 60
  const MaxColumns: nat := 4
  const SearchCardLimit: nat := 20

  // ---------------------------------------------------------------------------
  // Decimal text, as Python's `f"{n}"` writes an int

  predicate IsDigit(c: char) { '0' <= c <= '9' }

  function DigitChar(d: nat): (c: char)
    requires d < 10
    ensures IsDigit(c) && c as int - '0' as int == d
  {
    ('0' as int + d) as char
  }

  /** Decimal digits of `n`, most significant first, no leading zeros. */
  function NatToString(n: nat): (s: string)
    ensures |s| >= 1
    ensures forall i :: 0 <= i < |s| ==> IsDigit(s[i])
  {
    if n < 10 then [DigitChar(n)] else NatToString(n / 10) + [DigitChar(n % 10)]
  }

  /** Python's `str(i)` for an int: a minus sign, then the digits. */
  function IntToString(i: int): string
  {
    if i < 0 then "-" + NatToString(-i) else NatToString(i)
  }

  // ---------------------------------------------------------------------------
  // The runtime line

  /** `runtime_str` for `movie.get('runtime')`; `None` when the source shows
      no runtime (a missing runtime, or 0). Python's `divmod` by 60 floors,
      which is Dafny's `/` and `%` for a positive divisor. */
  function RuntimeText(runtime: Option<int>): (text: Option<string>)
    ensures text == None <==> runtime == None || runtime == Some(0)
  {
    match runtime
    case None => None
    case Some(total) =>
      if total == 0 then None
      else
        var hours, minutes := total / MinutesPerHour, total % MinutesPerHour;
        if hours != 0 then Some(IntToString(hours) + "h " + NatToString(minutes) + "m")
        else Some(NatToString(minutes) + "m")
  }

  /** The value of a non-empty string of decimal digits. */
  ghost function DigitsValue(s: string): nat
    requires |s| >= 1 && forall i :: 0 <= i < |s| ==> IsDigit(s[i])
  {
    assert IsDigit(s[|s| - 1]);
    var last: nat := s[|s| - 1] as int - '0' as int;
    if |s| == 1 then last else 10 * DigitsValue(s[..|s| - 1]) + last
  }

  /** Reads a natural number written in decimal. */
  ghost function ReadNat(s: string): Option<nat>
  {
    if |s| >= 1 && forall i :: 0 <= i < |s| ==> IsDigit(s[i]) then Some(DigitsValue(s)) else None
  }

  /** Reads an integer written in decimal, with an optional minus sign. */
  ghost function ReadInt(s: string): Option<int>
  {
    if |s| >= 1 && s[0] == '-' then
      match ReadNat(s[1..])
      case Some(n) => Some(0 - n as int)
      case None => None
    else
      match ReadNat(s)
      case Some(n) => Some(n)
      case None => None
  }

  /** The position of the first `c` in `s`, or `|s|` when there is none. */
  ghost function IndexOf(s: string, c: char): (k: nat)
    ensures k <= |s|
  {
    if s == [] then 0 else if s[0] == c then 0 else 1 + IndexOf(s[1..], c)
  }

  /** Reads the hours and minutes back from a runtime text: `"{h}h {m}m"` or
      `"{m}m"` (then with no hours). */
  ghost function ReadRuntime(text: string): Option<(int, int)>
  {
    if |text| == 0 || text[|text| - 1] != 'm' then None
    else
      var body := text[..|text| - 1];
      var k := IndexOf(body, 'h');
      if k == |body| then
        match ReadNat(body)
        case Some(m) => Some((0, m))
        case None => None
      else if k + 1 < |body| && body[k + 1] == ' ' then
        match (ReadInt(body[..k]), ReadNat(body[k + 2..]))
        case (Some(h), Some(m)) => Some((h, m))
        case _ => None
      else None
  }

  lemma {:induction false} NatReadsBack(n: nat)
    ensures ReadNat(NatToString(n)) == Some(n)
  {
    var s := NatToString(n);
    if n >= 10 {
      NatReadsBack(n / 10);
      assert s[..|s| - 1] == NatToString(n / 10);
    }
  }

  lemma IntReadsBack(i: int)
    ensures ReadInt(IntToString(i)) == Some(i)
  {
    var s := IntToString(i);
    if i < 0 {
      NatReadsBack(-i);
      assert s[1..] == NatToString(-i);
    } else {
      NatReadsBack(i);
      assert IsDigit(s[0]);
    }
  }

  lemma {:induction false} IndexOfPast(a: string, b: string, c: char)
    requires forall i :: 0 <= i < |a| ==> a[i] != c
    requires |b| >= 1 && b[0] == c
    ensures IndexOf(a + b, c) == |a|
  {
    if a != [] {
      assert (a + b)[1..] == a[1..] + b;
      IndexOfPast(a[1..], b, c);
    } else {
      assert a + b == b;
    }
  }

  lemma {:induction false} IndexOfAbsent(s: string, c: char)
    requires forall i :: 0 <= i < |s| ==> s[i] != c
    ensures IndexOf(s, c) == |s|
  {
    if s != [] {
      IndexOfAbsent(s[1..], c);
    }
  }

  /** `divmod` by 60 is the unique `(h, m)` with `60 * h + m == total` and
      `0 <= m < 60`. */
  lemma DivModUnique(total: int, h: int, m: int)
    requires MinutesPerHour * h + m == total && 0 <= m < MinutesPerHour
    ensures h == total / MinutesPerHour && m == total % MinutesPerHour
  {
    var q, r := total / MinutesPerHour, total % MinutesPerHour;
    assert MinutesPerHour * (h - q) == r - m;
  }

  /** No digit or minus sign is the letter `h`. */
  lemma IntTextHasNoH(h: int)
    ensures forall i :: 0 <= i < |IntToString(h)| ==> IntToString(h)[i] != 'h'
  {
    if h < 0 {
      assert forall i :: 1 <= i < |IntToString(h)| ==> IntToString(h)[i] == NatToString(-h)[i - 1];
    }
  }

  /** `"{h}h {m}m"` is read back by splitting at the first `h`. */
  lemma ReadRuntimeSplits(hs: string, ms: string)
    requires forall i :: 0 <= i < |hs| ==> hs[i] != 'h'
    ensures ReadRuntime(hs + "h " + ms + "m") == match (ReadInt(hs), ReadNat(ms))
                                                 case (Some(h), Some(m)) => Some((h, m))
                                                 case _ => None
  {
    var text := hs + "h " + ms + "m";
    var body := text[..|text| - 1];
    assert body == hs + ("h " + ms);
    IndexOfPast(hs, "h " + ms, 'h');
    assert body[|hs| + 1] == ' ';
    assert body[..|hs|] == hs;
    assert body[|hs| + 2..] == ms;
  }

  lemma ReadsBackWithHours(h: int, m: nat)
    requires h != 0
    ensures ReadRuntime(IntToString(h) + "h " + NatToString(m) + "m") == Some((h, m as int))
    ensures 'h' in IntToString(h) + "h " + NatToString(m) + "m"
  {
    var hs, ms := IntToString(h), NatToString(m);
    IntTextHasNoH(h);
    ReadRuntimeSplits(hs, ms);
    IntReadsBack(h);
    NatReadsBack(m);
    assert (hs + "h " + ms + "m")[|hs|] == 'h';
  }

  lemma ReadsBackMinutesOnly(m: nat)
    ensures ReadRuntime(NatToString(m) + "m") == Some((0, m as int))
    ensures 'h' !in NatToString(m) + "m"
  {
    var text := NatToString(m) + "m";
    assert text[..|text| - 1] == NatToString(m);
    IndexOfAbsent(NatToString(m), 'h');
    NatReadsBack(m);
    assert forall i :: 0 <= i < |text| ==> text[i] != 'h';
  }

  /** The runtime text shows the hours and the minutes of `divmod(total, 60)`
      — the unique `h`, `m` with `60 * h + m == total` and `0 <= m < 60` — and
      they can be read back from it; the hours part is present exactly when
      `h != 0`. So different runtimes never show the same text. */
  lemma RuntimeTextReadsBack(total: int, h: int, m: int)
    requires total != 0
    requires MinutesPerHour * h + m == total && 0 <= m < MinutesPerHour
    ensures RuntimeText(Some(total)).Some?
    ensures ReadRuntime(RuntimeText(Some(total)).value) == Some((h, m))
    ensures h == 0 <==> 'h' !in RuntimeText(Some(total)).value
  {
    DivModUnique(total, h, m);
    if h != 0 {
      ReadsBackWithHours(h, m);
    } else {
      ReadsBackMinutesOnly(m);
    }
  }

  /** Two runtimes that show the same text are the same runtime. */
  lemma RuntimeTextInjective(a: int, b: int)
    requires a != 0 && b != 0
    requires RuntimeText(Some(a)) == RuntimeText(Some(b))
    ensures a == b
  {
    RuntimeTextReadsBack(a, a / MinutesPerHour, a % MinutesPerHour);
    RuntimeTextReadsBack(b, b / MinutesPerHour, b % MinutesPerHour);
  }

  // ---------------------------------------------------------------------------
  // The card grid

  /** A movie card and the grid cell it is placed in. */
  datatype Card = Card(movie: Movie, row: nat, column: nat)

  /** `row, col = divmod(idx, max_columns)`. */
  function GridCell(idx: nat): (cell: (nat, nat))
    ensures cell.1 < MaxColumns
    ensures MaxColumns * cell.0 + cell.1 == idx
  {
    (idx / MaxColumns, idx % MaxColumns)
  }

  /** The placement loop: the `idx`-th movie's card goes to cell
      `divmod(idx, 4)`; cards fill rows of four left to right, and no two cards
      share a cell. */
  method PlaceCards(movies: seq<Movie>) returns (cards: seq<Card>)
    ensures |cards| == |movies|
    ensures forall i :: 0 <= i < |cards| ==>
              cards[i].movie == movies[i] && cards[i].column < MaxColumns &&
              MaxColumns * cards[i].row + cards[i].column == i
    ensures forall i, j :: 0 <= i < j < |cards| ==>
              cards[i].row != cards[j].row || cards[i].column != cards[j].column
  {
    cards := [];
    for idx := 0 to |movies|
      invariant |cards| == idx
      invariant forall i :: 0 <= i < idx ==>
                  cards[i].movie == movies[i] && cards[i].column < MaxColumns &&
                  MaxColumns * cards[i].row + cards[i].column == i
    {
      var (row, col) := GridCell(idx);
      cards := cards + [Card(movies[idx], row, col)];
    }
  }

  /** `_display_search_results`: at most the first 20 results, card `i` at
      `divmod(i, 4)`, so at most five rows of four. No results place no card
      (the window shows "No results found" instead). */
  method DisplaySearchResults(movies: seq<Movie>) returns (cards: seq<Card>)
    ensures |cards| == Min(|movies|, SearchCardLimit)
    ensures forall i :: 0 <= i < |cards| ==>
              cards[i].movie == movies[i] && cards[i].row == i / MaxColumns && cards[i].column == i % MaxColumns &&
              cards[i].row < SearchCardLimit / MaxColumns
    ensures forall i, j :: 0 <= i < j < |cards| ==>
              cards[i].row != cards[j].row || cards[i].column != cards[j].column
  {
    cards := PlaceCards(PyPrefix(movies, SearchCardLimit));
  }

  /** `_display_recommendations`: every movie of the list gets a card. */
  method DisplayRecommendations(movies: seq<Movie>) returns (cards: seq<Card>)
    ensures |cards| == |movies|
    ensures forall i :: 0 <= i < |cards| ==>
              cards[i].movie == movies[i] && cards[i].row == i / MaxColumns && cards[i].column == i % MaxColumns
  {
    cards := PlaceCards(movies);
  }
}
