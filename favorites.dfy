// The favourites page (src/pages/Favorites.jsx): pages of favourites
// loaded and appended, the page count, the "load more" button and
// removal.
//
// `new URL(path, window.location.origin)` (browser URL resolution) is the
// `resolve` parameter; each awaited request's answer is an Outcome.

module Favorites {
  import opened Wrappers
  import opened Js
  import opened Strings

  /** A favourite as the page keeps it. */
  datatype Fav = Fav(id: Js, movieId: Js, title: Js, year: Js, genres: Js, poster: string, addedAt: Js)

  const PageSize := 24
  const LoadFailed := "Không thể tải danh sách yêu thích"
  const RemoveFailed := "Không thể xóa khỏi yêu thích"

  /** `Array.isArray(data?.content) ? data.content : []` */
  function Source(data: Js): (r: seq<Js>)
    ensures OptField(data, "content").Arr? ==> r == OptField(data, "content").items
    ensures !OptField(data, "content").Arr? ==> r == []
  {
    Items(OptField(data, "content"))
  }

  /** buildImageUrl(path): "" for a falsy path, an http(s) URL as it is,
      anything else resolved against the page's origin. None where the
      path is truthy but not a string, on which `startsWith` throws. */
  function ImageUrl(path: Js, resolve: string -> string): (r: Option<string>)
    ensures r.None? <==> Truthy(path) && !path.Str?
    ensures !Truthy(path) ==> r == Some("")
    ensures path.Str? && (StartsWith(path.s, "http://") || StartsWith(path.s, "https://")) ==> r == Some(path.s)
  {
    if !Truthy(path) then Some("")
    else if !path.Str? then None
    else if StartsWith(path.s, "http://") || StartsWith(path.s, "https://") then Some(path.s)
    else Some(resolve(path.s))
  }

  /** Mapping one favourite throws when it is null or undefined (reading
      its id) or when its poster path makes buildImageUrl throw. */
  predicate MapThrows(fav: Js, resolve: string -> string)
  {
    Nullish(fav) || ImageUrl(Field(fav, "moviePosterUrl"), resolve).None?
  }

  function FavOf(fav: Js, resolve: string -> string): Fav
    requires !MapThrows(fav, resolve)
  {
    Fav(Field(fav, "id"), Field(fav, "movieId"), Field(fav, "movieTitle"), Field(fav, "movieYear"),
        Or(Field(fav, "movieGenres"), Arr([])), ImageUrl(Field(fav, "moviePosterUrl"), resolve).value,
        Field(fav, "addedAt"))
  }

  /** The mapping of a page: one entry per favourite, in order, or None
      when mapping some entry throws. */
  function Mapped(source: seq<Js>, resolve: string -> string): (r: Option<seq<Fav>>)
    ensures r.Some? <==> forall i :: 0 <= i < |source| ==> !MapThrows(source[i], resolve)
    ensures r.Some? ==> |r.value| == |source|
    ensures r.Some? ==> forall i :: 0 <= i < |source| ==>
              var fav, out := source[i], r.value[i];
              out.id == Field(fav, "id") && out.movieId == Field(fav, "movieId")
              && out.title == Field(fav, "movieTitle") && out.year == Field(fav, "movieYear")
              && out.genres == Or(Field(fav, "movieGenres"), Arr([]))
              && Some(out.poster) == ImageUrl(Field(fav, "moviePosterUrl"), resolve)
              && out.addedAt == Field(fav, "addedAt")
  {
    if exists i :: 0 <= i < |source| && MapThrows(source[i], resolve) then None
    else Some(seq(|source|, i requires 0 <= i < |source| => FavOf(source[i], resolve)))
  }

  /** `data?.totalPages ?? (count < size ? nextPage + 1 : nextPage + 2)` */
  function TotalPagesOf(data: Js, count: int, nextPage: int): (r: Js)
    ensures !Nullish(OptField(data, "totalPages")) ==> r == OptField(data, "totalPages")
    ensures Nullish(OptField(data, "totalPages")) && count < PageSize ==> r == Num(nextPage + 1)
    ensures Nullish(OptField(data, "totalPages")) && count >= PageSize ==> r == Num(nextPage + 2)
  {
    Coalesce(OptField(data, "totalPages"), Num(if count < PageSize then nextPage + 1 else nextPage + 2))
  }

  /** `page + 1 < totalPages`, for a numeric page count. */
  predicate ShowsLoadMore(page: int, totalPages: Js)
  {
    totalPages.Num? && page + 1 < totalPages.n
  }

  /** `prev.filter(x => x.id !== favoriteId)` */
  function WithoutFav(items: seq<Fav>, favoriteId: Js): (r: seq<Fav>)
    ensures |r| <= |items|
    ensures forall x :: x in r <==> x in items && x.id != favoriteId
  {
    if items == [] then []
    else (if items[0].id != favoriteId then [items[0]] else []) + WithoutFav(items[1..], favoriteId)
  }

  class FavoritesPage {
    var items: seq<Fav>
    var page: int
    var totalPages: Js
    var loading: bool
    var error: Js

    constructor ()
      ensures items == [] && page == 0 && totalPages == Num(1) && loading && error == Str("")
    {
      items := [];
      page := 0;
      totalPages := Num(1);
      loading := true;
      error := Str("");
    }

    /** loadPage(nextPage, append). A favourite whose mapping throws (see
        MapThrows) raises a TypeError, whose message (`thrown`, supplied by
        the browser) becomes the error, as a failed request's message does. */
    method LoadPage(nextPage: int, append: bool, reply: Outcome, resolve: string -> string, thrown: string)
      modifies this
      ensures reply.Done? && Mapped(Source(reply.value), resolve).Some? ==>
                var mapped := Mapped(Source(reply.value), resolve).value;
                items == (if append then old(items) + mapped else mapped)
                && page == nextPage && totalPages == TotalPagesOf(reply.value, |mapped|, nextPage)
                && error == Str("")
      ensures reply.Done? && Mapped(Source(reply.value), resolve).None? ==>
                items == old(items) && page == old(page) && totalPages == old(totalPages)
                && error == Or(Str(thrown), Str(LoadFailed))
      ensures reply.Failed? ==> items == old(items) && page == old(page) && totalPages == old(totalPages)
                                && error == Or(reply.message, Str(LoadFailed))
      ensures !loading
    {
      loading := true;
      error := Str("");
      if reply.Done? {
        var mapped := Mapped(Source(reply.value), resolve);
        if mapped.None? {
          error := Or(Str(thrown), Str(LoadFailed));
        } else {
          if append {
            items := items + mapped.value;
          } else {
            items := mapped.value;
          }
          page := nextPage;
          totalPages := TotalPagesOf(reply.value, |mapped.value|, nextPage);
        }
      } else {
        error := Or(reply.message, Str(LoadFailed));
      }
      loading := false;
    }

    /** handleRemove(favoriteId) */
    method Remove(favoriteId: Js, reply: Outcome)
      modifies this
      ensures reply.Done? ==> items == WithoutFav(old(items), favoriteId) && error == old(error)
      ensures reply.Failed? ==> items == old(items) && error == Or(reply.message, Str(RemoveFailed))
      ensures page == old(page) && totalPages == old(totalPages) && loading == old(loading)
    {
      if reply.Done? {
        items := WithoutFav(items, favoriteId);
      } else {
        error := Or(reply.message, Str(RemoveFailed));
      }
    }
  }

  // ---------------------------------------------------------------------
  // Properties
  // ---------------------------------------------------------------------

  /** Without a page count from the server, a short page ends the list and
      a full one offers the next. */
  lemma LoadMoreWithoutServerCount(data: Js, count: int, nextPage: int)
    requires Nullish(OptField(data, "totalPages"))
    ensures ShowsLoadMore(nextPage, TotalPagesOf(data, count, nextPage)) <==> count >= PageSize
  {
  }

  /** With a numeric page count from the server, "load more" follows it. */
  lemma LoadMoreWithServerCount(data: Js, count: int, nextPage: int)
    requires OptField(data, "totalPages").Num?
    ensures ShowsLoadMore(nextPage, TotalPagesOf(data, count, nextPage))
            <==> nextPage + 1 < OptField(data, "totalPages").n
  {
  }

  /** Removal keeps the other favourites in order: removing an id that is
      gone already changes nothing. */
  lemma {:induction false} RemoveIdempotent(items: seq<Fav>, favoriteId: Js)
    ensures WithoutFav(WithoutFav(items, favoriteId), favoriteId) == WithoutFav(items, favoriteId)
  {
    if items != [] {
      RemoveIdempotent(items[1..], favoriteId);
      var rest := WithoutFav(items[1..], favoriteId);
      if items[0].id != favoriteId {
        var once := [items[0]] + rest;
        assert WithoutFav(items, favoriteId) == once;
        assert once[0] == items[0] && once[1..] == rest;
        assert WithoutFav(once, favoriteId) == [items[0]] + WithoutFav(rest, favoriteId);
      } else {
        assert WithoutFav(items, favoriteId) == rest;
      }
    }
  }

  /** Loading page 0 and then appending page 1 lists both pages in
      order. */
  method LoadTwoPages(first: Js, second: Js, resolve: string -> string, thrown: string) returns (p: FavoritesPage)
    ensures Mapped(Source(first), resolve).Some? && Mapped(Source(second), resolve).Some? ==>
              p.items == Mapped(Source(first), resolve).value + Mapped(Source(second), resolve).value
              && p.page == 1
  {
    p := new FavoritesPage();
    p.LoadPage(0, false, Done(first), resolve, thrown);
    p.LoadPage(1, true, Done(second), resolve, thrown);
  }
}
