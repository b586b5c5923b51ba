// The landing page's data shaping (src/pages/Home.jsx): the trending and
// now-showing payloads turned into cards, poster URL normalisation, the
// featured fallback and the active hero movie.
//
// A callback that throws (reading a property of null, calling startsWith
// on a value that is not a string) ends the surrounding try block: such a
// transform yields None here. encodeURIComponent is the `encode` parameter.

module Home {
  import opened Wrappers
  import opened Strings
  import opened Js
  import ImageUtils

  /** `list.length > 0 ? list[activeIndex] : undefined`; an index past the
      end reads as undefined too. */
  function ActiveMovie(list: seq<Js>, activeIndex: int): (r: Js)
    ensures list == [] ==> r == Undefined
    ensures 0 <= activeIndex < |list| ==> r == list[activeIndex]
  {
    if |list| > 0 && 0 <= activeIndex < |list| then list[activeIndex] else Undefined
  }

  /** The trending payload: an array, else `items`, else `data`, else []. */
  function TrendingList(data: Js): (r: seq<Js>)
    ensures data.Arr? ==> r == data.items
    ensures !data.Arr? && OptField(data, "items").Arr? ==> r == OptField(data, "items").items
    ensures !data.Arr? && !OptField(data, "items").Arr? && OptField(data, "data").Arr? ==> r == OptField(data, "data").items
    ensures !data.Arr? && !OptField(data, "items").Arr? && !OptField(data, "data").Arr? ==> r == []
  {
    var candidates := [data, OptField(data, "items"), OptField(data, "data")];
    assert candidates[1] == OptField(data, "items") && candidates[2] == OptField(data, "data");
    FirstArray(candidates)
  }

  /** The now-showing payload: an array, else `content`, else `data`, else []. */
  function NowShowingList(data: Js): (r: seq<Js>)
    ensures data.Arr? ==> r == data.items
    ensures !data.Arr? && OptField(data, "content").Arr? ==> r == OptField(data, "content").items
    ensures !data.Arr? && !OptField(data, "content").Arr? && OptField(data, "data").Arr? ==> r == OptField(data, "data").items
    ensures !data.Arr? && !OptField(data, "content").Arr? && !OptField(data, "data").Arr? ==> r == []
  {
    var candidates := [data, OptField(data, "content"), OptField(data, "data")];
    assert candidates[1] == OptField(data, "content") && candidates[2] == OptField(data, "data");
    FirstArray(candidates)
  }

  function MovieLabel(i: int): string
  {
    "Movie " + IntToString(i + 1)
  }

  /** The placeholder poster of a card: the placeholder service with a
      size and colour path, captioned with the title or "Movie <i+1>". */
  function PosterPlaceholder(path: string, caption: Js, i: int, encode: string -> string): (url: string)
    ensures url != [] && StartsWith(url, "http")
  {
    var url := ImageUtils.PlaceholderBase + path + encode(ToStr(Or(caption, Str(MovieLabel(i)))));
    assert url[..4] == ImageUtils.PlaceholderBase[..4];
    url
  }

  /** A trending poster: "/uploads…" is served under "/api"; any other
      value not starting with "http" or "/api" gets "/api" put in front as
      it is; an empty value becomes a placeholder captioned with the title.
      None where the value is truthy but not a string (startsWith throws). */
  function TrendingPoster(poster: Js, caption: Js, i: int, encode: string -> string): (r: Option<string>)
    ensures r.None? <==> Truthy(poster) && !poster.Str?
  {
    if !Truthy(poster) then
      Some(PosterPlaceholder("300x300/333/fff?text=", caption, i, encode))
    else if !poster.Str? then None
    else
      var p := poster.s;
      if StartsWith(p, "/uploads") then Some("/api" + p)
      else if !StartsWith(p, "http") && !StartsWith(p, "/api") then Some("/api" + p)
      else Some(p)
  }

  /** A now-showing poster: only values starting with neither "http" nor
      "/" get "/api" in front; an empty value becomes a placeholder. */
  function NowShowingPoster(poster: Js, caption: Js, i: int, encode: string -> string): (r: Option<string>)
    ensures r.None? <==> Truthy(poster) && !poster.Str?
  {
    if !Truthy(poster) then
      Some(PosterPlaceholder("300x450/222/fff?text=", caption, i, encode))
    else if !poster.Str? then None
    else if !StartsWith(poster.s, "http") && !StartsWith(poster.s, "/") then Some("/api" + poster.s)
    else Some(poster.s)
  }

  datatype Card = Card(id: Js, title: Js, thumb: string, rating: Js, year: Js, genres: Js, synopsis: Js,
                       imdbRating: Js, averageRating: Js, isFavorite: Js, isInWatchlist: Js)

  /** `a?.toString() || b?.toString() || "8.5"` */
  function Rating(imdb: Js, average: Js): Js
  {
    Or(OptToString(imdb), Or(OptToString(average), Str("8.5")))
  }

  function TrendingCard(movie: Js, i: int, encode: string -> string): (r: Option<Card>)
    ensures Nullish(movie) ==> r.None?
  {
    if Nullish(movie) then None
    else
      var poster := Or(Field(movie, "posterUrl"), Or(Field(movie, "thumbnailUrl"), Or(Field(movie, "thumb"), Str(""))));
      match TrendingPoster(poster, Field(movie, "title"), i, encode)
      case None => None
      case Some(thumb) =>
        Some(Card(Coalesce(Field(movie, "id"), Num(i + 1)),
                  Or(Field(movie, "title"), Or(Field(movie, "englishTitle"), Str(MovieLabel(i)))),
                  thumb,
                  Rating(Field(movie, "imdbRating"), Field(movie, "averageRating")),
                  Or(OptToString(Field(movie, "year")), Str("2024")),
                  Or(Field(movie, "categories"), Or(Field(movie, "genres"), Arr([]))),
                  Or(Field(movie, "synopsis"), Or(Field(movie, "overview"), Str(""))),
                  Field(movie, "imdbRating"), Undefined, Undefined, Undefined))
  }

  function NowShowingCard(movie: Js, i: int, encode: string -> string): (r: Option<Card>)
    ensures Nullish(movie) ==> r.None?
  {
    if Nullish(movie) then None
    else
      var poster := Or(Field(movie, "posterUrl"), Str(""));
      match NowShowingPoster(poster, Field(movie, "title"), i, encode)
      case None => None
      case Some(thumb) =>
        Some(Card(Field(movie, "id"), Field(movie, "title"), thumb,
                  Rating(Field(movie, "imdbRating"), Field(movie, "averageRating")),
                  Or(OptToString(Field(movie, "year")), Str("2024")),
                  Or(Field(movie, "categories"), Arr([])),
                  Or(Field(movie, "synopsis"), Str("")),
                  Field(movie, "imdbRating"), Field(movie, "averageRating"),
                  Or(Field(movie, "isFavorite"), Bool(false)),
                  Or(Field(movie, "isInWatchlist"), Bool(false))))
  }

  /** `list.map(card)` inside a try: every card, or None when one throws.
      `card` receives the element and its index. */
  function MapCards(list: seq<Js>, start: int, card: (Js, int) -> Option<Card>): (r: Option<seq<Card>>)
    ensures r.Some? ==> |r.value| == |list|
    ensures r.Some? <==> forall i :: 0 <= i < |list| ==> card(list[i], start + i).Some?
    ensures r.Some? ==> forall i :: 0 <= i < |list| ==> r.value[i] == card(list[i], start + i).value
    decreases |list|
  {
    if list == [] then Some([])
    else match card(list[0], start)
      case None => None
      case Some(c) =>
        var rest := MapCards(list[1..], start + 1, card);
        assert forall i :: 1 <= i < |list| ==> list[i] == list[1..][i - 1];
        if rest.None? then None else Some([c] + rest.value)
  }

  function MapTrending(list: seq<Js>, encode: string -> string): Option<seq<Card>>
  {
    MapCards(list, 0, (m, i) => TrendingCard(m, i, encode))
  }

  function MapNowShowing(list: seq<Js>, encode: string -> string): Option<seq<Card>>
  {
    MapCards(list, 0, (m, i) => NowShowingCard(m, i, encode))
  }

  /** The fallback card of a featured movie from the shared movie list. */
  function FeaturedCard(m: Js): Card
  {
    Card(Field(m, "id"), Field(m, "title"), if Field(m, "thumb").Str? then Field(m, "thumb").s else "",
         Rating(Field(m, "imdbRating"), Field(m, "averageRating")),
         Or(Field(m, "year"), Str("2024")), Or(Field(m, "genres"), Arr([])), Or(Field(m, "synopsis"), Str("")),
         Undefined, Undefined, Undefined, Undefined)
  }

  /** `movies.filter(m => m.isFeatured)` */
  function Featured(movies: seq<Js>): (r: seq<Js>)
    ensures |r| <= |movies|
    ensures forall m :: m in r ==> m in movies && Truthy(Field(m, "isFeatured"))
    ensures forall m :: m in movies && Truthy(Field(m, "isFeatured")) ==> m in r
  {
    if movies == [] then []
    else (if Truthy(Field(movies[0], "isFeatured")) then [movies[0]] else []) + Featured(movies[1..])
  }

  /** The filter keeps list order: filtering a concatenation filters each
      part. */
  lemma {:induction false} FeaturedAppend(a: seq<Js>, b: seq<Js>)
    ensures Featured(a + b) == Featured(a) + Featured(b)
    decreases |a|
  {
    if a != [] {
      assert (a + b)[0] == a[0];
      assert (a + b)[1..] == a[1..] + b;
      FeaturedAppend(a[1..], b);
      var head := if Truthy(Field(a[0], "isFeatured")) then [a[0]] else [];
      Regroup(head, Featured(a[1..]), Featured(b));
    } else {
      assert a + b == b;
    }
  }

  /** The featured cards when the now-showing request fails: the first ten
      featured movies of the shared list. */
  function FeaturedFallback(movies: seq<Js>): (r: seq<Card>)
    ensures |r| == if |Featured(movies)| <= 10 then |Featured(movies)| else 10
    ensures forall i :: 0 <= i < |r| ==> r[i] == FeaturedCard(Featured(movies)[i])
  {
    var f := Featured(movies);
    var top := if |f| <= 10 then f else f[..10];
    seq(|top|, i requires 0 <= i < |top| => FeaturedCard(top[i]))
  }

  /** The now-showing effect: the transformed payload, or the fallback when
      the request or the transform throws. `data` is None when the request
      fails. */
  function NowShowing(data: Option<Js>, movies: seq<Js>, encode: string -> string): seq<Card>
  {
    if data.None? then FeaturedFallback(movies)
    else match MapNowShowing(NowShowingList(data.value), encode)
      case Some(cards) => cards
      case None => FeaturedFallback(movies)
  }

  // ---------------------------------------------------------------------
  // Properties
  // ---------------------------------------------------------------------

  /** A trending thumbnail is never empty and always points at the API or
      an absolute http(s) URL. */
  lemma TrendingPosterServed(poster: Js, caption: Js, i: int, encode: string -> string)
    requires TrendingPoster(poster, caption, i, encode).Some?
    ensures var t := TrendingPoster(poster, caption, i, encode).value;
            t != "" && (StartsWith(t, "http") || StartsWith(t, "/api"))
  {
  }

  /** Normalising an already normalised trending poster changes nothing. */
  lemma TrendingPosterIdempotent(poster: Js, caption: Js, i: int, encode: string -> string)
    requires TrendingPoster(poster, caption, i, encode).Some?
    ensures var t := TrendingPoster(poster, caption, i, encode).value;
            TrendingPoster(Str(t), caption, i, encode) == Some(t)
  {
    TrendingPosterServed(poster, caption, i, encode);
    ServedPosterKept(TrendingPoster(poster, caption, i, encode).value, caption, i, encode);
  }

  /** A served poster URL goes through the trending normalisation as it
      is. */
  lemma ServedPosterKept(t: string, caption: Js, i: int, encode: string -> string)
    requires t != "" && (StartsWith(t, "http") || StartsWith(t, "/api"))
    ensures TrendingPoster(Str(t), caption, i, encode) == Some(t)
  {
    if StartsWith(t, "/api") {
      assert !StartsWith(t, "/uploads") by {
        assert t[1] == 'a';
      }
    }
  }

  /** A now-showing thumbnail is never empty and always an absolute URL or
      a path from the site root. */
  lemma NowShowingPosterServed(poster: Js, caption: Js, i: int, encode: string -> string)
    requires NowShowingPoster(poster, caption, i, encode).Some?
    ensures var t := NowShowingPoster(poster, caption, i, encode).value;
            t != "" && (StartsWith(t, "http") || StartsWith(t, "/"))
  {
  }

  /** The two pages differ on "/…" paths: trending serves "/posters/x" as
      "/api/posters/x" while now-showing keeps it. */
  lemma RootPathsDiffer(p: string, caption: Js, i: int, encode: string -> string)
    requires StartsWith(p, "/") && !StartsWith(p, "/api") && p != ""
    ensures TrendingPoster(Str(p), caption, i, encode) == Some("/api" + p)
    ensures NowShowingPoster(Str(p), caption, i, encode) == Some(p)
  {
    assert !StartsWith(p, "http") by { assert p[0] == '/'; }
  }

  /** A trending card keeps the movie's own id when it has one and numbers
      it from 1 by position otherwise. */
  lemma TrendingIds(list: seq<Js>, encode: string -> string, i: int)
    requires MapTrending(list, encode).Some? && 0 <= i < |list|
    ensures var c := MapTrending(list, encode).value[i];
            (!Nullish(Field(list[i], "id")) ==> c.id == Field(list[i], "id"))
            && (Nullish(Field(list[i], "id")) ==> c.id == Num(i + 1))
  {
  }

  /** A single null entry sends the now-showing row to the fallback. */
  lemma NullEntryFallsBack(data: Js, movies: seq<Js>, encode: string -> string, i: int)
    requires 0 <= i < |NowShowingList(data)| && Nullish(NowShowingList(data)[i])
    ensures NowShowing(Some(data), movies, encode) == FeaturedFallback(movies)
  {
    var card := (m, j) => NowShowingCard(m, j, encode);
    assert card(NowShowingList(data)[i], 0 + i).None?;
  }

  /** The fallback shows featured movies only, in list order, ten at most. */
  lemma FallbackIsFeatured(movies: seq<Js>, k: int)
    requires 0 <= k < |FeaturedFallback(movies)|
    ensures exists m :: m in movies && Truthy(Field(m, "isFeatured")) && FeaturedFallback(movies)[k] == FeaturedCard(m)
  {
    var f := Featured(movies);
    assert f[k] in f;
  }
}
