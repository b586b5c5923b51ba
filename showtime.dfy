// The upcoming-movies page (src/pages/Showtime.jsx): createMovieCardData
// and the effect that loads the list, maps it to cards and drops the
// missing entries.
//
// encodeURIComponent is `encode`; `new Date(d).getFullYear()` is
// `yearOf`.

module Showtime {
  import opened Wrappers
  import opened Strings
  import opened Js
  import ImageUtils

  datatype ShowCard = ShowCard(id: Js, title: Js, thumb: string, rating: Js, year: Js, genres: Js,
                               synopsis: Js, releaseDate: Js, duration: Js)

  /** What createMovieCardData does with one entry: a falsy entry gives
      null, a truthy poster that is not a string makes startsWith throw. */
  datatype Made = Skipped | Made(card: ShowCard) | Threw

  function Title(movie: Js, index: int): Js
  {
    Or(Field(movie, "title"), Or(Field(movie, "englishTitle"), Or(Field(movie, "name"),
       Str("Movie " + IntToString(index + 1)))))
  }

  /** The five poster fields, first truthy one, else "". */
  function PosterField(movie: Js): Js
  {
    Or(Field(movie, "posterUrl"), Or(Field(movie, "thumbnail"), Or(Field(movie, "thumbnailUrl"),
       Or(Field(movie, "thumb"), Or(Field(movie, "imageUrl"), Str(""))))))
  }

  /** Poster normalisation: a value starting with neither "http", "/api"
      nor "/" gets "/api" in front; an empty one becomes a placeholder. */
  function Poster(poster: Js, title: Js, encode: string -> string): (r: Option<string>)
    ensures r.None? <==> Truthy(poster) && !poster.Str?
    ensures r.Some? ==> r.value != [] && (StartsWith(r.value, "http") || StartsWith(r.value, "/"))
  {
    if !Truthy(poster) then
      var url := ImageUtils.PlaceholderBase + "400x550/111/fff?text=" + encode(ToStr(title));
      assert url[..4] == ImageUtils.PlaceholderBase[..4];
      Some(url)
    else if !poster.Str? then None
    else
      var p := poster.s;
      if !StartsWith(p, "http") && !StartsWith(p, "/api") && !StartsWith(p, "/") then
        assert ("/api" + p)[..1] == "/";
        Some("/api" + p)
      else Some(p)
  }

  /** `a?.toString() || b?.toString() || c?.toString() || "8.5"` */
  function Rating(movie: Js): Js
  {
    Or(OptToString(Field(movie, "imdbRating")), Or(OptToString(Field(movie, "averageRating")),
       Or(OptToString(Field(movie, "rating")), Str("8.5"))))
  }

  function Year(movie: Js, yearOf: Js -> Js): Js
  {
    Or(OptToString(Field(movie, "year")),
       if Truthy(Field(movie, "releaseDate")) then yearOf(Field(movie, "releaseDate")) else Str("2024"))
  }

  /** createMovieCardData(movie, index) */
  function CardData(movie: Js, index: int, encode: string -> string, yearOf: Js -> Js): (r: Made)
    ensures !Truthy(movie) <==> r.Skipped?
    ensures r.Made? ==> r.card.title == Title(movie, index)
    ensures r.Made? && !Nullish(Field(movie, "id")) ==> r.card.id == Field(movie, "id")
    ensures r.Made? && Nullish(Field(movie, "id")) ==>
              r.card.id == Str(ToStr(Title(movie, index)) + "-" + IntToString(index))
  {
    if !Truthy(movie) then Skipped
    else
      var title := Title(movie, index);
      match Poster(PosterField(movie), title, encode)
      case None => Threw
      case Some(thumb) =>
        Made(ShowCard(Coalesce(Field(movie, "id"), Str(ToStr(title) + "-" + IntToString(index))),
                      title, thumb, Rating(movie), Year(movie, yearOf),
                      Or(Field(movie, "categories"), Or(Field(movie, "genres"), Arr([]))),
                      Or(Field(movie, "synopsis"), Or(Field(movie, "description"), Str(""))),
                      Field(movie, "releaseDate"),
                      Or(Field(movie, "duration"), Field(movie, "runtime"))))
  }

  /** `list.map(createMovieCardData)`: the outcome of each entry, with its
      position in the unfiltered list as the index. */
  function Outcomes(list: seq<Js>, encode: string -> string, yearOf: Js -> Js): (ms: seq<Made>)
    ensures |ms| == |list|
    ensures forall i :: 0 <= i < |list| ==> ms[i] == CardData(list[i], i, encode, yearOf)
  {
    seq(|list|, i requires 0 <= i < |list| => CardData(list[i], i, encode, yearOf))
  }

  /** Number of entries that made a card. */
  function CountMade(ms: seq<Made>): nat
  {
    if ms == [] then 0 else CountMade(ms[..|ms| - 1]) + (if ms[|ms| - 1].Made? then 1 else 0)
  }

  /** `.filter(Boolean)` over the outcomes; None when any entry threw
      (the exception leaves the map before the filter runs). */
  function Collect(ms: seq<Made>): (r: Option<seq<ShowCard>>)
    ensures r.Some? <==> forall i :: 0 <= i < |ms| ==> !ms[i].Threw?
    ensures r.Some? ==> |r.value| == CountMade(ms)
  {
    if ms == [] then Some([])
    else
      var init := Collect(ms[..|ms| - 1]);
      assert forall i :: 0 <= i < |ms| - 1 ==> ms[..|ms| - 1][i] == ms[i];
      match ms[|ms| - 1]
      case Threw => None
      case Skipped => init
      case Made(c) => if init.None? then None else Some(init.value + [c])
  }

  function Cards(list: seq<Js>, encode: string -> string, yearOf: Js -> Js): Option<seq<ShowCard>>
  {
    Collect(Outcomes(list, encode, yearOf))
  }

  /** Number of truthy entries. */
  function CountTruthy(list: seq<Js>): nat
  {
    if list == [] then 0 else CountTruthy(list[..|list| - 1]) + (if Truthy(list[|list| - 1]) then 1 else 0)
  }

  const DefaultError := "Không thể tải danh sách phim sắp chiếu"

  datatype Upcoming = Upcoming(movies: seq<ShowCard>, error: string)

  /** The loading effect: `data` is None when the request rejects; the
      error's message (`err?.message`) is `message`. On any failure the
      list is emptied and the message, or the default text, is shown. */
  function LoadUpcoming(data: Option<Js>, message: Js, encode: string -> string, yearOf: Js -> Js): (r: Upcoming)
    ensures r.error != "" ==> r.movies == []
    ensures var list := if data.Some? then FirstArray([data.value, OptField(data.value, "content"), OptField(data.value, "data")]) else [];
            if data.Some? && Cards(list, encode, yearOf).Some? then r == Upcoming(Cards(list, encode, yearOf).value, "")
            else r.movies == [] && r.error == ToStr(Or(message, Str(DefaultError)))
  {
    var failed := Upcoming([], ToStr(Or(message, Str(DefaultError))));
    if data.None? then failed
    else
      var list := FirstArray([data.value, OptField(data.value, "content"), OptField(data.value, "data")]);
      match Cards(list, encode, yearOf)
      case Some(cards) => Upcoming(cards, "")
      case None => failed
  }

  // ---------------------------------------------------------------------
  // Properties
  // ---------------------------------------------------------------------

  /** The outcome of an entry is a card exactly when the entry is truthy
      and does not throw. */
  lemma {:induction false} MadeIffTruthy(list: seq<Js>, encode: string -> string, yearOf: Js -> Js, n: int)
    requires 0 <= n <= |list|
    requires forall i :: 0 <= i < |list| ==> !Outcomes(list, encode, yearOf)[i].Threw?
    ensures CountMade(Outcomes(list, encode, yearOf)[..n]) == CountTruthy(list[..n])
  {
    var ms := Outcomes(list, encode, yearOf);
    if n > 0 {
      MadeIffTruthy(list, encode, yearOf, n - 1);
      assert ms[..n][..n - 1] == ms[..n - 1];
      assert list[..n][..n - 1] == list[..n - 1];
      assert ms[n - 1] == CardData(list[n - 1], n - 1, encode, yearOf);
    }
  }

  /** When nothing throws, exactly the truthy entries become cards. */
  lemma CardsCount(list: seq<Js>, encode: string -> string, yearOf: Js -> Js)
    requires Cards(list, encode, yearOf).Some?
    ensures |Cards(list, encode, yearOf).value| == CountTruthy(list)
  {
    var ms := Outcomes(list, encode, yearOf);
    MadeIffTruthy(list, encode, yearOf, |list|);
    assert ms[..|list|] == ms && list[..|list|] == list;
  }

  /** Every collected card is the card of some outcome. */
  lemma {:induction false} CollectFrom(ms: seq<Made>)
    requires Collect(ms).Some?
    ensures forall c :: c in Collect(ms).value ==> Made(c) in ms
  {
    if ms != [] {
      var init := ms[..|ms| - 1];
      CollectFrom(init);
      assert forall m :: m in init ==> m in ms;
    }
  }

  /** Every card's poster is non-empty and absolute or rooted. */
  lemma CardsServed(list: seq<Js>, encode: string -> string, yearOf: Js -> Js)
    requires Cards(list, encode, yearOf).Some?
    ensures forall c :: c in Cards(list, encode, yearOf).value ==>
              c.thumb != [] && (StartsWith(c.thumb, "http") || StartsWith(c.thumb, "/"))
  {
    var ms := Outcomes(list, encode, yearOf);
    CollectFrom(ms);
    forall c | c in Cards(list, encode, yearOf).value
      ensures c.thumb != [] && (StartsWith(c.thumb, "http") || StartsWith(c.thumb, "/"))
    {
      var i :| 0 <= i < |ms| && ms[i] == Made(c);
      var movie := list[i];
      var p := Poster(PosterField(movie), Title(movie, i), encode);
      assert p.Some? && p.value == c.thumb;
    }
  }

  /** The collected cards keep the outcomes' order: the card made at
      position i comes after the cards made before it. */
  lemma {:induction false} CollectInOrder(ms: seq<Made>, i: int)
    requires Collect(ms).Some?
    requires 0 <= i < |ms| && ms[i].Made?
    ensures CountMade(ms[..i]) < |Collect(ms).value|
    ensures Collect(ms).value[CountMade(ms[..i])] == ms[i].card
  {
    var init := ms[..|ms| - 1];
    assert Collect(init).Some? by {
      assert forall j :: 0 <= j < |init| ==> init[j] == ms[j];
    }
    if i == |ms| - 1 {
      assert ms[..i] == init;
    } else {
      assert init[..i] == ms[..i];
      CollectInOrder(init, i);
    }
  }

  /** The card of the k-th truthy entry is that entry's card: the order is
      kept and a card's index is its position in the unfiltered list. */
  lemma CardsInOrder(list: seq<Js>, encode: string -> string, yearOf: Js -> Js, i: int)
    requires Cards(list, encode, yearOf).Some?
    requires 0 <= i < |list| && Truthy(list[i])
    ensures CountTruthy(list[..i]) < |Cards(list, encode, yearOf).value|
    ensures Cards(list, encode, yearOf).value[CountTruthy(list[..i])] == CardData(list[i], i, encode, yearOf).card
  {
    var ms := Outcomes(list, encode, yearOf);
    MadeIffTruthy(list, encode, yearOf, i);
    CollectInOrder(ms, i);
  }
}
