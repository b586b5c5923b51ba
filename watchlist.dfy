// The collections page (src/pages/Watchlist.jsx): the list of
// collections, the selected collection and its movies, and the handlers
// that create, edit, delete and prune them.
//
// Each handler awaits one request; its answer is passed in as an
// Outcome, and the handler's state changes follow the source's order.

module Watchlist {
  import opened Wrappers
  import opened Js
  import opened Strings

  /** `movieId ?? id` */
  function MovieIdOf(m: Js): (r: Js)
    ensures !Nullish(Field(m, "movieId")) ==> r == Field(m, "movieId")
    ensures Nullish(Field(m, "movieId")) ==> r == Field(m, "id")
  {
    Coalesce(Field(m, "movieId"), Field(m, "id"))
  }

  /** `title || movieTitle || (movie && movie.title) || "Phim"` */
  function ResolveTitle(m: Js): (r: Js)
    ensures Truthy(r)
    ensures r == Str("Phim") || r == Field(m, "title") || r == Field(m, "movieTitle")
            || r == Field(Field(m, "movie"), "title")
    ensures (!Truthy(Field(m, "title")) && !Truthy(Field(m, "movieTitle"))
             && !Truthy(Field(Field(m, "movie"), "title"))) ==> r == Str("Phim")
  {
    Or(Field(m, "title"), Or(Field(m, "movieTitle"),
       Or(And(Field(m, "movie"), Field(Field(m, "movie"), "title")), Str("Phim"))))
  }

  /** `cols?.[0]?.id ?? null` for the list the first request gives. */
  function FirstId(cols: seq<Js>): (r: Js)
    ensures cols == [] ==> r == Null
    ensures cols != [] && !Nullish(OptField(cols[0], "id")) ==> r == Field(cols[0], "id")
    ensures cols != [] && Nullish(OptField(cols[0], "id")) ==> r == Null
  {
    if cols == [] then Null else Coalesce(OptField(cols[0], "id"), Null)
  }

  /** `prev.map(c => c.id === id ? updated : c)` */
  function Replaced(cols: seq<Js>, id: Js, updated: Js): (r: seq<Js>)
    ensures |r| == |cols|
    ensures forall i :: 0 <= i < |cols| ==> r[i] == (if Field(cols[i], "id") == id then updated else cols[i])
  {
    seq(|cols|, i requires 0 <= i < |cols| => if Field(cols[i], "id") == id then updated else cols[i])
  }

  /** `prev.filter(c => c.id !== id)` */
  function WithoutId(cols: seq<Js>, id: Js): (r: seq<Js>)
    ensures |r| <= |cols|
    ensures forall c :: c in r <==> c in cols && Field(c, "id") != id
  {
    if cols == [] then []
    else (if Field(cols[0], "id") != id then [cols[0]] else []) + WithoutId(cols[1..], id)
  }

  /** `prev.filter(m => (m.movieId ?? m.id) !== movieId)` */
  function WithoutMovie(movies: seq<Js>, movieId: Js): (r: seq<Js>)
    ensures |r| <= |movies|
    ensures forall m :: m in r <==> m in movies && MovieIdOf(m) != movieId
  {
    if movies == [] then []
    else (if MovieIdOf(movies[0]) != movieId then [movies[0]] else []) + WithoutMovie(movies[1..], movieId)
  }

  const LoadFailed := "Lỗi tải danh sách"
  const SaveFailed := "Lỗi lưu"
  const DeleteFailed := "Lỗi xóa"
  const MoviesFailed := "Lỗi tải phim"
  const RemoveFailed := "Không thể xóa phim khỏi danh sách"

  class WatchlistPage {
    var collections: seq<Js>
    var selectedId: Js
    var movies: seq<Js>
    var error: Js
    var dialogOpen: bool
    var editing: Js
    var form: (Js, Js)

    constructor ()
      ensures collections == [] && selectedId == Null && movies == [] && error == Str("")
      ensures !dialogOpen && editing == Null && form == (Str(""), Str(""))
    {
      collections := [];
      selectedId := Null;
      movies := [];
      error := Str("");
      dialogOpen := false;
      editing := Null;
      form := (Str(""), Str(""));
    }

    /** The first load: the collections (`cols || []`), the first one
        selected, and its movies fetched when its id is truthy. */
    method Load(listed: Outcome, moviesOf: Js -> Outcome)
      modifies this
      ensures listed.Failed? ==> collections == old(collections) && selectedId == old(selectedId)
                                 && movies == old(movies) && error == Or(listed.message, Str(LoadFailed))
      ensures listed.Done? ==> collections == Items(listed.value) && selectedId == FirstId(Items(listed.value))
      ensures listed.Done? && !Truthy(selectedId) ==> movies == old(movies) && error == old(error)
      ensures listed.Done? && Truthy(selectedId) ==>
                match moviesOf(selectedId)
                case Done(ms) => movies == Items(ms) && error == old(error)
                case Failed(e) => movies == old(movies) && error == Or(e, Str(LoadFailed))
      ensures dialogOpen == old(dialogOpen) && editing == old(editing) && form == old(form)
    {
      if listed.Failed? {
        error := Or(listed.message, Str(LoadFailed));
        return;
      }
      collections := Items(listed.value);
      var firstId := FirstId(collections);
      selectedId := firstId;
      if Truthy(firstId) {
        var ms := moviesOf(firstId);
        if ms.Done? {
          movies := Items(ms.value);
        } else {
          error := Or(ms.message, Str(LoadFailed));
        }
      }
    }

    method OpenCreate()
      modifies this
      ensures editing == Null && form == (Str(""), Str("")) && dialogOpen
      ensures collections == old(collections) && selectedId == old(selectedId) && movies == old(movies)
      ensures error == old(error)
    {
      editing := Null;
      form := (Str(""), Str(""));
      dialogOpen := true;
    }

    method OpenEdit(col: Js)
      modifies this
      ensures editing == col && dialogOpen
      ensures form == (Or(Field(col, "name"), Str("")), Or(Field(col, "description"), Str("")))
      ensures collections == old(collections) && selectedId == old(selectedId) && movies == old(movies)
      ensures error == old(error)
    {
      editing := col;
      form := (Or(Field(col, "name"), Str("")), Or(Field(col, "description"), Str("")));
      dialogOpen := true;
    }

    /** onSubmit: an edit replaces the collection with the edited id, a
        creation puts the new collection first; the dialog closes. */
    method Submit(reply: Outcome)
      modifies this
      ensures reply.Done? && Truthy(old(editing)) ==>
                collections == Replaced(old(collections), Field(old(editing), "id"), reply.value) && !dialogOpen
      ensures reply.Done? && !Truthy(old(editing)) ==>
                collections == [reply.value] + old(collections) && !dialogOpen
      ensures reply.Done? ==> error == old(error)
      ensures reply.Failed? ==> collections == old(collections) && dialogOpen == old(dialogOpen)
                                && error == Or(reply.message, Str(SaveFailed))
      ensures selectedId == old(selectedId) && movies == old(movies) && editing == old(editing)
      ensures form == old(form)
    {
      if reply.Failed? {
        error := Or(reply.message, Str(SaveFailed));
        return;
      }
      if Truthy(editing) {
        collections := Replaced(collections, Field(editing, "id"), reply.value);
      } else {
        collections := [reply.value] + collections;
      }
      dialogOpen := false;
    }

    /** onDelete: nothing without the user's confirmation; the collection
        goes, and the selection and its movies go too when it was the
        selected one. */
    method Delete(id: Js, confirmed: bool, reply: Outcome)
      modifies this
      ensures !confirmed ==> collections == old(collections) && selectedId == old(selectedId)
                             && movies == old(movies) && error == old(error)
      ensures confirmed && reply.Done? ==> collections == WithoutId(old(collections), id) && error == old(error)
      ensures confirmed && reply.Done? && old(selectedId) == id ==> selectedId == Null && movies == []
      ensures confirmed && reply.Done? && old(selectedId) != id ==>
                selectedId == old(selectedId) && movies == old(movies)
      ensures confirmed && reply.Failed? ==> collections == old(collections) && selectedId == old(selectedId)
                                             && movies == old(movies) && error == Or(reply.message, Str(DeleteFailed))
      ensures dialogOpen == old(dialogOpen) && editing == old(editing) && form == old(form)
    {
      if !confirmed {
        return;
      }
      if reply.Failed? {
        error := Or(reply.message, Str(DeleteFailed));
        return;
      }
      collections := WithoutId(collections, id);
      if selectedId == id {
        selectedId := Null;
        movies := [];
      }
    }

    /** onSelect: the selection moves at once; the movies follow when the
        request answers. */
    method Select(id: Js, reply: Outcome)
      modifies this
      ensures selectedId == id
      ensures reply.Done? ==> movies == Items(Or(reply.value, Arr([]))) && error == old(error)
      ensures reply.Failed? ==> movies == old(movies) && error == Or(reply.message, Str(MoviesFailed))
      ensures collections == old(collections) && dialogOpen == old(dialogOpen) && editing == old(editing)
      ensures form == old(form)
    {
      selectedId := id;
      if reply.Done? {
        movies := Items(Or(reply.value, Arr([])));
      } else {
        error := Or(reply.message, Str(MoviesFailed));
      }
    }

    /** onRemoveMovie */
    method RemoveMovie(movieId: Js, reply: Outcome)
      modifies this
      ensures reply.Done? ==> movies == WithoutMovie(old(movies), movieId) && error == old(error)
      ensures reply.Failed? ==> movies == old(movies) && error == Or(reply.message, Str(RemoveFailed))
      ensures collections == old(collections) && selectedId == old(selectedId)
      ensures dialogOpen == old(dialogOpen) && editing == old(editing) && form == old(form)
    {
      if reply.Done? {
        movies := WithoutMovie(movies, movieId);
      } else {
        error := Or(reply.message, Str(RemoveFailed));
      }
    }
  }

  // ---------------------------------------------------------------------
  // Properties of the list updates
  // ---------------------------------------------------------------------

  /** Editing touches only collections with the edited id. */
  lemma ReplacedOnlyMatching(cols: seq<Js>, id: Js, updated: Js, i: int)
    requires 0 <= i < |cols| && Field(cols[i], "id") != id
    ensures Replaced(cols, id, updated)[i] == cols[i]
  {
  }

  /** Filtering keeps the order: the result is the input with the
      removed entries cut out, so filtering again changes nothing. */
  lemma {:induction false} WithoutIdIdempotent(cols: seq<Js>, id: Js)
    ensures WithoutId(WithoutId(cols, id), id) == WithoutId(cols, id)
  {
    if cols != [] {
      WithoutIdIdempotent(cols[1..], id);
      var rest := WithoutId(cols[1..], id);
      if Field(cols[0], "id") != id {
        var once := [cols[0]] + rest;
        assert WithoutId(cols, id) == once;
        assert once[0] == cols[0] && once[1..] == rest;
        assert WithoutId(once, id) == [cols[0]] + WithoutId(rest, id);
      } else {
        assert WithoutId(cols, id) == rest;
      }
    }
  }

  lemma {:induction false} WithoutMovieIdempotent(movies: seq<Js>, movieId: Js)
    ensures WithoutMovie(WithoutMovie(movies, movieId), movieId) == WithoutMovie(movies, movieId)
  {
    if movies != [] {
      WithoutMovieIdempotent(movies[1..], movieId);
      var rest := WithoutMovie(movies[1..], movieId);
      if MovieIdOf(movies[0]) != movieId {
        var once := [movies[0]] + rest;
        assert WithoutMovie(movies, movieId) == once;
        assert once[0] == movies[0] && once[1..] == rest;
        assert WithoutMovie(once, movieId) == [movies[0]] + WithoutMovie(rest, movieId);
      } else {
        assert WithoutMovie(movies, movieId) == rest;
      }
    }
  }

  /** Removing an id nobody has leaves the list as it is. */
  lemma {:induction false} WithoutAbsentId(cols: seq<Js>, id: Js)
    requires forall c :: c in cols ==> Field(c, "id") != id
    ensures WithoutId(cols, id) == cols
  {
    if cols != [] {
      WithoutAbsentId(cols[1..], id);
      HeadTail(cols);
    }
  }

  /** A new collection with a fresh id and then its deletion restore the
      list. */
  lemma CreateThenDelete(cols: seq<Js>, created: Js)
    requires forall c :: c in cols ==> Field(c, "id") != Field(created, "id")
    ensures WithoutId([created] + cols, Field(created, "id")) == cols
  {
    assert ([created] + cols)[1..] == cols;
    WithoutAbsentId(cols, Field(created, "id"));
  }
}
