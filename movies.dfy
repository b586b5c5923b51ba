// The catalogue page (src/pages/Movies.jsx): the payload turned into
// movie records, the filter effect, client-side pagination and the
// filters read from the URL query.
//
// Lower-casing is ASCII-only here (Strings.Lower). A filter callback that
// throws (toLowerCase on a title that is not a string, `some` on genres
// that are not an array) ends the effect: such a run yields None.

module Movies {
  import opened Wrappers
  import opened Strings
  import opened Js

  /** The movie record the page filters and shows. */
  datatype Movie = Movie(id: Js, title: Js, englishTitle: Js, ageRating: Js, imdbRating: Js, averageRating: Js,
                         totalRatings: Js, year: Js, genres: Js, synopsis: Js, thumb: Js, isAvailable: bool,
                         actors: Js, directors: Js, country: Js)

  /** The record of one payload entry; `thumb` and `country` are the
      fields whose fallbacks differ between the two transforms. None when
      the entry is null or undefined (reading its id throws). */
  function MovieOf(m: Js, thumb: Js, country: Js): (r: Option<Movie>)
    ensures r.None? <==> Nullish(m)
    ensures r.Some? ==> r.value.title == Field(m, "title") && r.value.englishTitle == Field(m, "title")
    ensures r.Some? ==> (r.value.year.Undefined? <==> Nullish(Field(m, "year")))
    ensures r.Some? && !Nullish(Field(m, "year")) ==> r.value.year == Str(ToStr(Field(m, "year")))
  {
    if Nullish(m) then None
    else
      Some(Movie(Field(m, "id"), Field(m, "title"), Field(m, "title"),
                 Or(Field(m, "ageRating"), Null), Coalesce(Field(m, "imdbRating"), Null),
                 Coalesce(Field(m, "averageRating"), Null), Coalesce(Field(m, "totalRatings"), Num(0)),
                 if Nullish(Field(m, "year")) then Undefined else Str(ToStr(Field(m, "year"))),
                 Or(Field(m, "categories"), Or(Field(m, "genres"), Arr([]))),
                 Or(Field(m, "synopsis"), Str("")), thumb, Truthy(Field(m, "isAvailable")),
                 Or(Field(m, "actors"), Arr([])), Or(Field(m, "directors"), Arr([])), country))
  }

  /** The now-showing transform: thumb `posterUrl || thumbnailUrl`,
      country `country || countryName`. */
  function NowShowingMovie(m: Js): Option<Movie>
  {
    MovieOf(m, Or(Field(m, "posterUrl"), Or(Field(m, "thumbnailUrl"), Undefined)),
            Or(Field(m, "country"), Or(Field(m, "countryName"), Undefined)))
  }

  /** transformSearchResults' record: thumb `posterUrl`, country
      `country`. */
  function SearchMovie(m: Js): Option<Movie>
  {
    MovieOf(m, Or(Field(m, "posterUrl"), Undefined), Or(Field(m, "country"), Undefined))
  }

  /** `list.map(transform)`, None when an entry throws. */
  function MapMovies(list: seq<Js>, transform: Js -> Option<Movie>): (r: Option<seq<Movie>>)
    ensures r.Some? <==> forall i :: 0 <= i < |list| ==> transform(list[i]).Some?
    ensures r.Some? ==> |r.value| == |list|
                        && forall i :: 0 <= i < |list| ==> r.value[i] == transform(list[i]).value
  {
    if list == [] then Some([])
    else
      var rest := MapMovies(list[1..], transform);
      assert forall i :: 1 <= i < |list| ==> list[i] == list[1..][i - 1];
      match transform(list[0])
      case None => None
      case Some(m) => if rest.None? then None else Some([m] + rest.value)
  }

  /** transformSearchResults: `content`, else `movies`, else the payload,
      when an array; else []. */
  function TransformSearchResults(data: Js): Option<seq<Movie>>
  {
    MapMovies(FirstArray([OptField(data, "content"), OptField(data, "movies"), data]), SearchMovie)
  }

  const LoadFailed := "Failed to load movies"

  /** The now-showing load: `movies` (and the filtered list) on success,
      or the error text and no movies. */
  datatype Loaded = Loaded(movies: seq<Movie>, error: Js)

  /** The list the page maps: the payload if it is an array, else
      `content || movies || data || []`. */
  function PayloadList(data: Js): (r: Js)
    ensures data.Arr? ==> r == data
    ensures !data.Arr? && Truthy(OptField(data, "content")) ==> r == OptField(data, "content")
    ensures (!data.Arr? && !Truthy(OptField(data, "content")) && !Truthy(OptField(data, "movies"))
             && !Truthy(OptField(data, "data"))) ==> r == Arr([])
  {
    if data.Arr? then data
    else Or(OptField(data, "content"), Or(OptField(data, "movies"), Or(OptField(data, "data"), Arr([]))))
  }

  /** `moviesData.map(transform)`, or None when it throws: the list is not
      an array, or one of its entries is null or undefined. */
  function MapPayload(list: Js): (r: Option<seq<Movie>>)
    ensures r.Some? <==> list.Arr? && forall i :: 0 <= i < |list.items| ==> !Nullish(list.items[i])
    ensures r.Some? ==> |r.value| == |list.items|
                        && forall i :: 0 <= i < |list.items| ==> Some(r.value[i]) == NowShowingMovie(list.items[i])
  {
    if list.Arr? then MapMovies(list.items, NowShowingMovie) else None
  }

  /** The load effect. A failed request shows its message, or "Failed to
      load movies" when it has none; a list that cannot be mapped throws a
      TypeError inside the `try`, whose message (`thrown`, supplied by the
      browser) is shown instead. */
  function LoadNowShowing(reply: Outcome, thrown: string): (r: Loaded)
    ensures reply.Failed? ==> r == Loaded([], Or(reply.message, Str(LoadFailed)))
    ensures reply.Done? && MapPayload(PayloadList(reply.value)).Some? ==>
              r == Loaded(MapPayload(PayloadList(reply.value)).value, Null)
    ensures reply.Done? && MapPayload(PayloadList(reply.value)).None? ==>
              r == Loaded([], Or(Str(thrown), Str(LoadFailed)))
    ensures r.error.Null? <==> reply.Done? && MapPayload(PayloadList(reply.value)).Some?
    ensures !r.error.Null? ==> r.movies == [] && Truthy(r.error)
  {
    if reply.Failed? then Loaded([], Or(reply.message, Str(LoadFailed)))
    else match MapPayload(PayloadList(reply.value))
      case Some(ms) => Loaded(ms, Null)
      case None => Loaded([], Or(Str(thrown), Str(LoadFailed)))
  }

  // ---------------------------------------------------------------------
  // The filter effect
  // ---------------------------------------------------------------------

  datatype Filters = Filters(genre: string, year: string, search: string, country: string, actor: string,
                             director: string)

  const NoFilters := Filters("", "", "", "", "", "")

  /** `s.toLowerCase().includes(needle)` for a string value; None for any
      other value (toLowerCase is not a function). */
  function LowerIncludes(v: Js, needle: string): Option<bool>
  {
    if v.Str? then Some(Contains(Lower(v.s), needle)) else None
  }

  /** title or English title contains the term (both lower-cased). */
  function SearchPred(m: Movie, term: string): Option<bool>
  {
    var t := Lower(term);
    match LowerIncludes(m.title, t)
    case None => None
    case Some(true) => Some(true)
    case Some(false) =>
      if !Truthy(m.englishTitle) then Some(false) else LowerIncludes(m.englishTitle, t)
  }

  /** `genres.some(g => g.toLowerCase().includes(needle))`: stops at the
      first match; an element before it that is not a string throws. */
  function SomeIncludes(gs: seq<Js>, needle: string): (r: Option<bool>)
    ensures r == Some(true) ==> exists i :: 0 <= i < |gs| && LowerIncludes(gs[i], needle) == Some(true)
    ensures (forall i :: 0 <= i < |gs| ==> LowerIncludes(gs[i], needle) == Some(false)) ==> r == Some(false)
  {
    if gs == [] then Some(false)
    else match LowerIncludes(gs[0], needle)
      case None => None
      case Some(true) => Some(true)
      case Some(false) =>
        var rest := SomeIncludes(gs[1..], needle);
        assert forall i :: 1 <= i < |gs| ==> gs[i] == gs[1..][i - 1];
        rest
  }

  function GenrePred(m: Movie, term: string): Option<bool>
  {
    if m.genres.Arr? then SomeIncludes(m.genres.items, Lower(term)) else None
  }

  function YearPred(m: Movie, year: string): Option<bool>
  {
    Some(m.year == Str(year))
  }

  function CountryPred(m: Movie, country: string): Option<bool>
  {
    Some(Truthy(m.country) && Lower(ToStr(m.country)) == Lower(country))
  }

  /** `Array.isArray(list) && list.some(n => String(n).toLowerCase().includes(needle))` */
  function NamesInclude(list: Js, needle: string): Option<bool>
  {
    Some(list.Arr? && exists n :: n in list.items && Contains(Lower(ToStr(n)), Lower(needle)))
  }

  /** `list.filter(p)`: every entry is tested; None when one throws. */
  function Keep(ms: seq<Movie>, p: Movie -> Option<bool>): (r: Option<seq<Movie>>)
    ensures r.Some? <==> forall i :: 0 <= i < |ms| ==> p(ms[i]).Some?
    ensures r.Some? ==> forall m :: m in r.value <==> m in ms && p(m) == Some(true)
    ensures r.Some? ==> IsSubsequence(r.value, ms)
  {
    if ms == [] then Some([])
    else
      var rest := Keep(ms[1..], p);
      assert forall i :: 1 <= i < |ms| ==> ms[i] == ms[1..][i - 1];
      match p(ms[0])
      case None => None
      case Some(keep) =>
        if rest.None? then None
        else if keep then
          var r := [ms[0]] + rest.value;
          assert r[0] == ms[0] && r[1..] == rest.value;
          Some(r)
        else Some(rest.value)
  }

  /** a is b with some entries left out, order kept. */
  predicate IsSubsequence(a: seq<Movie>, b: seq<Movie>)
    decreases |b|
  {
    a == [] || (b != [] && ((a[0] == b[0] && IsSubsequence(a[1..], b[1..])) || IsSubsequence(a, b[1..])))
  }

  /** One `if (filter) current = current.filter(...)` step. */
  function Stage(current: Option<seq<Movie>>, active: bool, p: Movie -> Option<bool>): (r: Option<seq<Movie>>)
    ensures current.None? ==> r.None?
    ensures current.Some? && !active ==> r == current
  {
    if current.None? then None else if active then Keep(current.value, p) else current
  }

  /** The filter effect's list; the effect also resets the page to 1. */
  function FilterMovies(movies: seq<Movie>, f: Filters): Option<seq<Movie>>
  {
    var s := Stage(Some(movies), f.search != "", (m: Movie) => SearchPred(m, f.search));
    var g := Stage(s, f.genre != "", (m: Movie) => GenrePred(m, f.genre));
    var y := Stage(g, f.year != "", (m: Movie) => YearPred(m, f.year));
    var c := Stage(y, f.country != "", (m: Movie) => CountryPred(m, f.country));
    var a := Stage(c, f.actor != "", (m: Movie) => NamesInclude(m.actors, f.actor));
    Stage(a, f.director != "", (m: Movie) => NamesInclude(m.directors, f.director))
  }

  datatype View = View(filtered: seq<Movie>, currentPage: int)

  function FilterEffect(movies: seq<Movie>, f: Filters): (r: Option<View>)
    ensures r.Some? ==> r.value.currentPage == 1
  {
    match FilterMovies(movies, f)
    case Some(list) => Some(View(list, 1))
    case None => None
  }

  /** A movie passes every active filter: the reference the filter chain
      is proved against. */
  predicate Passes(m: Movie, f: Filters)
  {
    (f.search == "" || SearchPred(m, f.search) == Some(true))
    && (f.genre == "" || GenrePred(m, f.genre) == Some(true))
    && (f.year == "" || m.year == Str(f.year))
    && (f.country == "" || (Truthy(m.country) && Lower(ToStr(m.country)) == Lower(f.country)))
    && (f.actor == "" || NamesInclude(m.actors, f.actor) == Some(true))
    && (f.director == "" || NamesInclude(m.directors, f.director) == Some(true))
  }

  // ---------------------------------------------------------------------
  // Properties of the filter chain
  // ---------------------------------------------------------------------

  lemma {:induction false} SubsequenceTransitive(a: seq<Movie>, b: seq<Movie>, c: seq<Movie>)
    requires IsSubsequence(a, b) && IsSubsequence(b, c)
    ensures IsSubsequence(a, c)
    decreases |c|
  {
    if a == [] {
    } else if IsSubsequence(b, c[1..]) && c != [] {
      SubsequenceTransitive(a, b, c[1..]);
    } else {
      assert b != [] && c != [] && b[0] == c[0] && IsSubsequence(b[1..], c[1..]);
      if a[0] == b[0] && IsSubsequence(a[1..], b[1..]) {
        SubsequenceTransitive(a[1..], b[1..], c[1..]);
      } else {
        SubsequenceTransitive(a, b[1..], c[1..]);
      }
    }
  }

  lemma {:induction false} SubsequenceRefl(a: seq<Movie>)
    ensures IsSubsequence(a, a)
    decreases |a|
  {
    if a != [] {
      SubsequenceRefl(a[1..]);
    }
  }

  /** A stage keeps a subsequence of its input, and exactly the entries
      that pass its test when active. */
  lemma StageFacts(current: Option<seq<Movie>>, active: bool, p: Movie -> Option<bool>)
    ensures Stage(current, active, p).Some? ==> current.Some?
    ensures Stage(current, active, p).Some? ==> IsSubsequence(Stage(current, active, p).value, current.value)
    ensures Stage(current, active, p).Some? ==>
              forall m :: m in Stage(current, active, p).value <==>
                m in current.value && (!active || p(m) == Some(true))
  {
    if current.Some? && !active {
      SubsequenceRefl(current.value);
    }
  }

  /** The filtered list is a subsequence of the loaded movies and holds
      exactly the movies that pass every active filter. */
  lemma FilteredIsSubsequence(movies: seq<Movie>, f: Filters)
    requires FilterMovies(movies, f).Some?
    ensures IsSubsequence(FilterMovies(movies, f).value, movies)
    ensures forall m :: m in FilterMovies(movies, f).value <==> m in movies && Passes(m, f)
  {
    FilteredSubsequence(movies, f);
    FilteredMembers(movies, f);
  }

  lemma FilteredSubsequence(movies: seq<Movie>, f: Filters)
    requires FilterMovies(movies, f).Some?
    ensures IsSubsequence(FilterMovies(movies, f).value, movies)
  {
    var s := Stage(Some(movies), f.search != "", (m: Movie) => SearchPred(m, f.search));
    var g := Stage(s, f.genre != "", (m: Movie) => GenrePred(m, f.genre));
    var y := Stage(g, f.year != "", (m: Movie) => YearPred(m, f.year));
    var c := Stage(y, f.country != "", (m: Movie) => CountryPred(m, f.country));
    var a := Stage(c, f.actor != "", (m: Movie) => NamesInclude(m.actors, f.actor));
    var d := Stage(a, f.director != "", (m: Movie) => NamesInclude(m.directors, f.director));
    StageFacts(a, f.director != "", (m: Movie) => NamesInclude(m.directors, f.director));
    StageFacts(c, f.actor != "", (m: Movie) => NamesInclude(m.actors, f.actor));
    StageFacts(y, f.country != "", (m: Movie) => CountryPred(m, f.country));
    StageFacts(g, f.year != "", (m: Movie) => YearPred(m, f.year));
    StageFacts(s, f.genre != "", (m: Movie) => GenrePred(m, f.genre));
    StageFacts(Some(movies), f.search != "", (m: Movie) => SearchPred(m, f.search));
    var dv, av, cv, yv, gv, sv := d.value, a.value, c.value, y.value, g.value, s.value;
    SubsequenceTransitive(dv, av, cv);
    SubsequenceTransitive(dv, cv, yv);
    SubsequenceTransitive(dv, yv, gv);
    SubsequenceTransitive(dv, gv, sv);
    SubsequenceTransitive(dv, sv, movies);
  }

  lemma FilteredMembers(movies: seq<Movie>, f: Filters)
    requires FilterMovies(movies, f).Some?
    ensures forall m :: m in FilterMovies(movies, f).value <==> m in movies && Passes(m, f)
  {
    var s := Stage(Some(movies), f.search != "", (m: Movie) => SearchPred(m, f.search));
    var g := Stage(s, f.genre != "", (m: Movie) => GenrePred(m, f.genre));
    var y := Stage(g, f.year != "", (m: Movie) => YearPred(m, f.year));
    var c := Stage(y, f.country != "", (m: Movie) => CountryPred(m, f.country));
    var a := Stage(c, f.actor != "", (m: Movie) => NamesInclude(m.actors, f.actor));
    StageFacts(a, f.director != "", (m: Movie) => NamesInclude(m.directors, f.director));
    StageFacts(c, f.actor != "", (m: Movie) => NamesInclude(m.actors, f.actor));
    StageFacts(y, f.country != "", (m: Movie) => CountryPred(m, f.country));
    StageFacts(g, f.year != "", (m: Movie) => YearPred(m, f.year));
    StageFacts(s, f.genre != "", (m: Movie) => GenrePred(m, f.genre));
    StageFacts(Some(movies), f.search != "", (m: Movie) => SearchPred(m, f.search));
    var d := FilterMovies(movies, f).value;
    forall m
      ensures m in d <==> m in movies && Passes(m, f)
    {
    }
  }

  /** With every filter empty the list is the loaded list itself. */
  lemma NoFiltersKeepAll(movies: seq<Movie>)
    ensures FilterMovies(movies, NoFilters) == Some(movies)
  {
  }

  /** A title search keeps a movie exactly when its title or English title
      contains the term, ignoring ASCII case. */
  lemma SearchOnly(movies: seq<Movie>, term: string, m: Movie)
    requires term != ""
    requires forall x :: x in movies ==> x.title.Str? && (Truthy(x.englishTitle) ==> x.englishTitle.Str?)
    requires m in movies
    ensures FilterMovies(movies, NoFilters.(search := term)).Some?
    ensures m in FilterMovies(movies, NoFilters.(search := term)).value <==>
              Contains(Lower(m.title.s), Lower(term))
              || (Truthy(m.englishTitle) && Contains(Lower(m.englishTitle.s), Lower(term)))
  {
    var f := NoFilters.(search := term);
    assert forall i :: 0 <= i < |movies| ==> SearchPred(movies[i], term).Some? by {
      forall i | 0 <= i < |movies|
        ensures SearchPred(movies[i], term).Some?
      {
        assert movies[i] in movies;
      }
    }
    FilteredIsSubsequence(movies, f);
  }

  // ---------------------------------------------------------------------
  // Pagination
  // ---------------------------------------------------------------------

  const ItemsPerPage := 24

  /** `Math.ceil(n / itemsPerPage)` */
  function TotalPages(n: nat): (r: nat)
    ensures r * ItemsPerPage >= n && (r == 0 || (r - 1) * ItemsPerPage < n)
  {
    (n + ItemsPerPage - 1) / ItemsPerPage
  }

  /** `filtered.slice((page - 1) * 24, page * 24)`; slice clamps its bounds
      to the list. Pages are numbered from 1. */
  function Page(list: seq<Movie>, page: int): (r: seq<Movie>)
    requires page >= 1
    ensures |r| <= ItemsPerPage
    ensures (page - 1) * ItemsPerPage >= |list| ==> r == []
  {
    var start := (page - 1) * ItemsPerPage;
    var end := page * ItemsPerPage;
    if start >= |list| then [] else list[start..if end <= |list| then end else |list|]
  }

  /** Pages 1..k read one after another. */
  function PagesUpTo(list: seq<Movie>, k: nat): seq<Movie>
  {
    if k == 0 then [] else PagesUpTo(list, k - 1) + Page(list, k)
  }

  lemma {:induction false} PagesUpToPrefix(list: seq<Movie>, k: nat)
    ensures PagesUpTo(list, k) == list[..if k * ItemsPerPage <= |list| then k * ItemsPerPage else |list|]
  {
    if k > 0 {
      PagesUpToPrefix(list, k - 1);
      var start, end := (k - 1) * ItemsPerPage, k * ItemsPerPage;
      var a := if start <= |list| then start else |list|;
      var b := if end <= |list| then end else |list|;
      PageIsSlice(list, k, a, b);
      PrefixSplit(list, a, b);
    }
  }

  lemma PageIsSlice(list: seq<Movie>, k: nat, a: nat, b: nat)
    requires k > 0
    requires a == if (k - 1) * ItemsPerPage <= |list| then (k - 1) * ItemsPerPage else |list|
    requires b == if k * ItemsPerPage <= |list| then k * ItemsPerPage else |list|
    ensures a <= b <= |list| && Page(list, k) == list[a..b]
  {
    assert k * ItemsPerPage == (k - 1) * ItemsPerPage + ItemsPerPage;
  }

  lemma PrefixSplit(list: seq<Movie>, a: nat, b: nat)
    requires a <= b <= |list|
    ensures list[..b] == list[..a] + list[a..b]
  {
  }

  /** The pages partition the filtered list: read in order they give it
      back, and every page after the last is empty. */
  lemma PagesPartition(list: seq<Movie>, p: int)
    requires p > TotalPages(|list|)
    ensures PagesUpTo(list, TotalPages(|list|)) == list
    ensures Page(list, p) == []
  {
    PagesUpToPrefix(list, TotalPages(|list|));
    assert list[..|list|] == list;
  }

  // ---------------------------------------------------------------------
  // URL query
  // ---------------------------------------------------------------------

  /** `params.get(key) || ""` */
  function Param(params: map<string, string>, key: string): string
  {
    if key in params then params[key] else ""
  }

  /** The filters after reading `query`, `genre`, `country`, `actor` and
      `director` from the URL: a non-empty parameter overwrites its
      filter, the rest and the year stay. */
  function InitFromQuery(f: Filters, params: map<string, string>): (r: Filters)
    ensures r.year == f.year
    ensures r.search == (if Param(params, "query") != "" then Param(params, "query") else f.search)
    ensures r.genre == (if Param(params, "genre") != "" then Param(params, "genre") else f.genre)
    ensures r.country == (if Param(params, "country") != "" then Param(params, "country") else f.country)
    ensures r.actor == (if Param(params, "actor") != "" then Param(params, "actor") else f.actor)
    ensures r.director == (if Param(params, "director") != "" then Param(params, "director") else f.director)
  {
    var q := Param(params, "query");
    var g := Param(params, "genre");
    var c := Param(params, "country");
    var a := Param(params, "actor");
    var d := Param(params, "director");
    var next := f;
    var next := if q != "" then next.(search := q) else next;
    var next := if g != "" then next.(genre := g) else next;
    var next := if c != "" then next.(country := c) else next;
    var next := if a != "" then next.(actor := a) else next;
    if d != "" then next.(director := d) else next
  }

  /** Reading the same query twice changes nothing more. */
  lemma InitFromQueryIdempotent(f: Filters, params: map<string, string>)
    ensures InitFromQuery(InitFromQuery(f, params), params) == InitFromQuery(f, params)
  {
  }
}
