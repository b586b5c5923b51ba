// The administration page (src/pages/AdminManagement.jsx): the actor and
// movie panels with their server-side and client-side paging, the
// availability switch, selecting users, the user search, the month
// statistics picker and the director list. getInitials on this page is
// the one of the account page (Account.Initials).

module AdminManagement {
  import opened Wrappers
  import opened Strings
  import opened Js

  // ---------------------------------------------------------------------
  // Client-side paging
  // ---------------------------------------------------------------------

  /** `const [size] = useState(20)` */
  const Size: nat := 20

  /** `list.slice(start, end)` for start, end >= 0: both clamped to the
      length. */
  function Slice(list: seq<Js>, start: nat, end: nat): (r: seq<Js>)
    ensures start <= |list| && start <= end ==> r == list[start..if end <= |list| then end else |list|]
    ensures |list| <= start || end <= start ==> r == []
  {
    var s := if start <= |list| then start else |list|;
    var e := if end <= |list| then end else |list|;
    if e <= s then [] else list[s..e]
  }

  /** `list.slice(page * size, page * size + size)` */
  function ClientPage(list: seq<Js>, page: nat): (r: seq<Js>)
    ensures |r| <= Size
  {
    Slice(list, page * Size, page * Size + Size)
  }

  /** `Math.ceil(n / size)` */
  function PageCount(n: nat): (c: nat)
    ensures (c - 1) * Size < n <= c * Size || (n == 0 && c == 0)
  {
    (n + Size - 1) / Size
  }

  /** Pages 0 to n - 1 one after the other. */
  function Pages(list: seq<Js>, n: nat): seq<Js>
  {
    if n == 0 then [] else Pages(list, n - 1) + ClientPage(list, n - 1)
  }

  lemma {:induction false} PagesPrefix(list: seq<Js>, n: nat)
    ensures Pages(list, n) == list[..if n * Size <= |list| then n * Size else |list|]
  {
    if n > 0 {
      PagesPrefix(list, n - 1);
    }
  }

  /** The client-side pages cover the list exactly: every page but the
      last is full, none is empty, and together they are the list. */
  lemma ClientPagesPartition(list: seq<Js>)
    ensures Pages(list, PageCount(|list|)) == list
    ensures forall p: nat :: p < PageCount(|list|) ==> ClientPage(list, p) != []
    ensures forall p: nat :: p + 1 < PageCount(|list|) ==> |ClientPage(list, p)| == Size
    ensures forall p: nat :: p >= PageCount(|list|) ==> ClientPage(list, p) == []
  {
    PagesPrefix(list, PageCount(|list|));
  }

  // ---------------------------------------------------------------------
  // Response shapes
  // ---------------------------------------------------------------------

  /** A page from the server (`content` with its counts) or a plain
      list. */
  datatype Shape = Paged(content: seq<Js>, totalPages: Js, totalElements: Js) | Plain(list: seq<Js>)

  /** `res?.content`, else `res?.data?.content`, else `Array.isArray(res) ?
      res : res?.data || []`; counts default to 0 when falsy. */
  function ShapeOf(res: Js): (s: Shape)
    ensures Truthy(OptField(res, "content")) ==> s.Paged? && s.content == Items(OptField(res, "content"))
    ensures !Truthy(OptField(res, "content")) && Truthy(OptField(OptField(res, "data"), "content")) ==>
              s.Paged? && s.content == Items(OptField(OptField(res, "data"), "content"))
    ensures res.Arr? ==> s == Plain(res.items)
    ensures s.Paged? ==> (s.totalPages.Num? || Truthy(s.totalPages)) && (s.totalElements.Num? || Truthy(s.totalElements))
    ensures Truthy(OptField(res, "content")) ==>
              s.totalPages == Or(OptField(res, "totalPages"), Num(0))
              && s.totalElements == Or(OptField(res, "totalElements"), Num(0))
    ensures !Truthy(OptField(res, "content")) && Truthy(OptField(OptField(res, "data"), "content")) ==>
              s.totalPages == Or(OptField(OptField(res, "data"), "totalPages"), Num(0))
              && s.totalElements == Or(OptField(OptField(res, "data"), "totalElements"), Num(0))
    ensures !Truthy(OptField(res, "content")) && !Truthy(OptField(OptField(res, "data"), "content")) && !res.Arr? ==>
              s == Plain(Items(Or(OptField(res, "data"), Arr([]))))
  {
    var data := OptField(res, "data");
    if Truthy(OptField(res, "content")) then
      Paged(Items(OptField(res, "content")), Or(OptField(res, "totalPages"), Num(0)),
            Or(OptField(res, "totalElements"), Num(0)))
    else if Truthy(OptField(data, "content")) then
      Paged(Items(OptField(data, "content")), Or(OptField(data, "totalPages"), Num(0)),
            Or(OptField(data, "totalElements"), Num(0)))
    else Plain(if res.Arr? then res.items else Items(Or(data, Arr([]))))
  }

  /** What one response sets: the rows shown, the list cached for
      client-side paging (None: the cache is left alone), and the two
      counts. */
  datatype Loaded = Loaded(shown: seq<Js>, cache: Option<seq<Js>>, totalPages: Js, totalElements: Js)

  /** The branches after the request, for the pagination flag the loader
      started with. */
  function Handle(res: Js, paginated: bool, page: nat): (h: Loaded)
    ensures paginated ==> h.cache.None?
    ensures paginated && ShapeOf(res).Plain? ==>
              h.shown == ShapeOf(res).list && h.totalPages == Num(1) && h.totalElements == Num(|h.shown|)
    ensures paginated && ShapeOf(res).Paged? ==>
              h.shown == ShapeOf(res).content && h.totalPages == ShapeOf(res).totalPages
              && h.totalElements == ShapeOf(res).totalElements
    ensures !paginated ==> h.cache.Some? && h.shown == ClientPage(h.cache.value, page)
                           && h.totalPages == Num(PageCount(|h.cache.value|))
                           && h.totalElements == Num(|h.cache.value|)
  {
    var all := match ShapeOf(res) case Paged(c, _, _) => c case Plain(l) => l;
    if paginated then
      match ShapeOf(res)
      case Paged(c, tp, te) => Loaded(c, None, tp, te)
      case Plain(l) => Loaded(l, None, Num(1), Num(|l|))
    else Loaded(ClientPage(all, page), Some(all), Num(PageCount(|all|)), Num(|all|))
  }

  /** A bare array from the server shows whole in paginated mode, as one
      page. */
  lemma BareListIsOnePage(items: seq<Js>, page: nat)
    ensures Handle(Arr(items), true, page) == Loaded(items, None, Num(1), Num(|items|))
  {
  }

  /** The actor panel or the movie panel: the two load the same way. */
  class CatalogPanel {
    var shown: seq<Js>
    var cache: seq<Js>
    var page: nat
    var totalPages: Js
    var totalElements: Js
    var usePagination: bool
    var loading: bool
    var error: Js
    /** "Failed to load actors" or "Failed to load movies". */
    const failure: string

    constructor (failure: string)
      ensures this.failure == failure
      ensures shown == [] && cache == [] && page == 0 && totalPages == Num(0) && totalElements == Num(0)
      ensures usePagination && loading && error == Str("")
    {
      this.failure := failure;
      shown := [];
      cache := [];
      page := 0;
      totalPages := Num(0);
      totalElements := Num(0);
      usePagination := true;
      loading := true;
      error := Str("");
    }

    /** The answer loadActors or loadMovies goes on with: the paged request
        when paging is on and it succeeded, else the request for the whole
        list; None when the cache serves the page. */
    static function Received(usePagination: bool, cache: seq<Js>, paged: Outcome, full: Outcome): Option<Outcome>
    {
      if usePagination then Some(if paged.Done? then paged else full)
      else if cache == [] then Some(full)
      else None
    }

    /** loadActors / loadMovies. `paged` is the answer to the request for
        the current page, `full` the answer to the request for everything.
        A failed paged request turns paging off, but the rest of this run
        still reads the flag it started with. */
    method Load(paged: Outcome, full: Outcome)
      modifies this
      ensures usePagination == (old(usePagination) && paged.Done?)
      ensures page == old(page) && !loading
      ensures Received(old(usePagination), old(cache), paged, full).None? ==>
                shown == ClientPage(cache, page) && cache == old(cache)
                && totalPages == Num(PageCount(|cache|)) && totalElements == Num(|cache|) && error == Str("")
      ensures (var got := Received(old(usePagination), old(cache), paged, full);
               got.Some? && got.value.Failed? ==>
                 shown == [] && cache == old(cache) && totalPages == Num(0) && totalElements == Num(0)
                 && error == Or(got.value.message, Str(failure)))
      ensures (var got := Received(old(usePagination), old(cache), paged, full);
               got.Some? && got.value.Done? ==>
                 var h := Handle(got.value.value, old(usePagination), page);
                 shown == h.shown && totalPages == h.totalPages && totalElements == h.totalElements
                 && cache == (if h.cache.Some? then h.cache.value else old(cache)) && error == Str(""))
    {
      loading := true;
      error := Str("");
      var paginated := usePagination;
      var got := Received(usePagination, cache, paged, full);
      if paginated && paged.Failed? {
        usePagination := false;
      }
      if got.None? {
        shown := ClientPage(cache, page);
        totalPages := Num(PageCount(|cache|));
        totalElements := Num(|cache|);
      } else if got.value.Failed? {
        error := Or(got.value.message, Str(failure));
        shown := [];
        totalPages := Num(0);
        totalElements := Num(0);
      } else {
        var h := Handle(got.value.value, paginated, page);
        shown := h.shown;
        totalPages := h.totalPages;
        totalElements := h.totalElements;
        if h.cache.Some? {
          cache := h.cache.value;
        }
      }
      loading := false;
    }

    /** handleToggleAvailability after the request: with client-side
        paging and a cache, the movie is flipped in the cache and the page
        re-cut; otherwise the caller reloads (the result is true). */
    method ToggleAvailability(movie: Js, reply: Outcome) returns (reload: bool)
      modifies this
      ensures reply.Failed? ==> !reload && cache == old(cache) && shown == old(shown)
      ensures reply.Done? && !old(usePagination) && old(cache) != [] ==>
                !reload && cache == Toggled(old(cache), Field(movie, "id"), !Truthy(Field(movie, "isAvailable")))
                && shown == ClientPage(cache, page)
      ensures reply.Done? && (old(usePagination) || old(cache) == []) ==>
                reload && cache == old(cache) && shown == old(shown)
      ensures page == old(page) && usePagination == old(usePagination) && totalPages == old(totalPages)
              && totalElements == old(totalElements) && error == old(error) && loading == old(loading)
    {
      reload := false;
      if reply.Done? {
        if !usePagination && |cache| > 0 {
          cache := Toggled(cache, Field(movie, "id"), !Truthy(Field(movie, "isAvailable")));
          shown := ClientPage(cache, page);
        } else {
          reload := true;
        }
      }
    }
  }

  // ---------------------------------------------------------------------
  // Availability
  // ---------------------------------------------------------------------

  /** `{ ...m, isAvailable: value }` */
  function WithAvailability(m: Js, value: bool): (r: Js)
    ensures r.Obj? && "isAvailable" in r.fields && r.fields["isAvailable"] == Bool(value)
    ensures m.Obj? ==> forall k :: k in m.fields && k != "isAvailable" ==> k in r.fields && r.fields[k] == m.fields[k]
  {
    Obj((if m.Obj? then m.fields else map[])["isAvailable" := Bool(value)])
  }

  /** `movies.map(m => m.id === id ? { ...m, isAvailable: value } : m)` */
  function Toggled(movies: seq<Js>, id: Js, value: bool): (r: seq<Js>)
    ensures |r| == |movies|
    ensures forall i :: 0 <= i < |movies| ==>
              if Field(movies[i], "id") == id then r[i] == WithAvailability(movies[i], value) else r[i] == movies[i]
  {
    seq(|movies|, i requires 0 <= i < |movies| =>
      if Field(movies[i], "id") == id then WithAvailability(movies[i], value) else movies[i])
  }

  /** Only the movie with the id changes, and it changes only its flag;
      its id stays, so flipping it again finds it again. */
  lemma ToggledOnlyMatching(movies: seq<Js>, id: Js, value: bool, i: int)
    requires 0 <= i < |movies|
    ensures Field(movies[i], "id") != id ==> Toggled(movies, id, value)[i] == movies[i]
    ensures Field(movies[i], "id") == id ==>
              (Field(Toggled(movies, id, value)[i], "isAvailable") == Bool(value)
               && Field(Toggled(movies, id, value)[i], "id") == id)
  {
    if Field(movies[i], "id") == id && id != Undefined {
      assert movies[i].Obj? && "id" in movies[i].fields;
    }
  }

  /** Flipping twice with the two values gives the state of the second
      flip: the later switch wins. */
  lemma ToggledTwice(movies: seq<Js>, id: Js, a: bool, b: bool)
    ensures Toggled(Toggled(movies, id, a), id, b) == Toggled(movies, id, b)
  {
    var once := Toggled(movies, id, a);
    forall i | 0 <= i < |movies|
      ensures Toggled(once, id, b)[i] == Toggled(movies, id, b)[i]
    {
      ToggledOnlyMatching(movies, id, a, i);
      if Field(movies[i], "id") == id {
        AvailabilityOverwritten(movies[i], a, b);
      }
    }
  }

  /** Setting the flag twice leaves the second value. */
  lemma AvailabilityOverwritten(m: Js, a: bool, b: bool)
    ensures WithAvailability(WithAvailability(m, a), b) == WithAvailability(m, b)
  {
    var fs := if m.Obj? then m.fields else map[];
    assert fs["isAvailable" := Bool(a)]["isAvailable" := Bool(b)] == fs["isAvailable" := Bool(b)];
  }

  // ---------------------------------------------------------------------
  // Selecting users
  // ---------------------------------------------------------------------

  predicate SameId(u: Js, user: Js)
  {
    Field(u, "id") == Field(user, "id")
  }

  /** `prev.some(u => u.id === user.id)` */
  predicate Selected(prev: seq<Js>, user: Js)
  {
    exists u :: u in prev && SameId(u, user)
  }

  /** `prev.filter(u => u.id !== user.id)` */
  function Deselect(prev: seq<Js>, user: Js): (r: seq<Js>)
    ensures |r| <= |prev|
  {
    if prev == [] then []
    else (if SameId(prev[0], user) then [] else [prev[0]]) + Deselect(prev[1..], user)
  }

  /** The filter keeps exactly the users with another id. */
  lemma {:induction false} DeselectMembers(prev: seq<Js>, user: Js)
    ensures forall u :: u in Deselect(prev, user) <==> u in prev && !SameId(u, user)
    decreases |prev|
  {
    if prev != [] {
      DeselectMembers(prev[1..], user);
      DeselectHead(prev, user);
      assert forall u :: u in prev <==> u == prev[0] || u in prev[1..];
    }
  }

  /** handleSelectUser's update: remove the user when selected, else
      append it. */
  function ToggleSelected(prev: seq<Js>, user: Js): (r: seq<Js>)
    ensures Selected(prev, user) ==> !Selected(r, user) && forall u :: u in r <==> u in prev && !SameId(u, user)
    ensures !Selected(prev, user) ==> r == prev + [user]
  {
    DeselectMembers(prev, user);
    if Selected(prev, user) then Deselect(prev, user) else prev + [user]
  }

  lemma DeselectHead(s: seq<Js>, user: Js)
    requires s != []
    ensures Deselect(s, user) == (if SameId(s[0], user) then [] else [s[0]]) + Deselect(s[1..], user)
  {
  }

  lemma {:induction false} DeselectAbsent(prev: seq<Js>, user: Js)
    requires !Selected(prev, user)
    ensures Deselect(prev, user) == prev
    decreases |prev|
  {
    if prev != [] {
      assert prev[0] in prev;
      assert !Selected(prev[1..], user) by {
        forall u | u in prev[1..]
          ensures !SameId(u, user)
        {
          assert u in prev;
        }
      }
      DeselectAbsent(prev[1..], user);
      DeselectHead(prev, user);
      HeadTail(prev);
    }
  }

  lemma {:induction false} DeselectAppend(prev: seq<Js>, x: Js, user: Js)
    ensures Deselect(prev + [x], user) == Deselect(prev, user) + Deselect([x], user)
    decreases |prev|
  {
    DeselectHead([x], user);
    assert [x][1..] == [];
    if prev == [] {
      assert prev + [x] == [x];
    } else {
      var head := if SameId(prev[0], user) then [] else [prev[0]];
      DeselectAppend(prev[1..], x, user);
      DeselectHead(prev + [x], user);
      assert (prev + [x])[1..] == prev[1..] + [x];
      DeselectHead(prev, user);
      Regroup(head, Deselect(prev[1..], user), Deselect([x], user));
    }
  }

  /** Selecting a user that is not selected and then selecting it again
      gives back the original list. */
  lemma SelectTwiceRestores(prev: seq<Js>, user: Js)
    requires !Selected(prev, user)
    ensures ToggleSelected(ToggleSelected(prev, user), user) == prev
  {
    var once := prev + [user];
    assert user in once;
    DeselectAppend(prev, user, user);
    DeselectAbsent(prev, user);
    assert Deselect([user], user) == [];
  }

  // ---------------------------------------------------------------------
  // User search
  // ---------------------------------------------------------------------

  /** The user fields the search reads (username and email are strings for
      every user the admin API lists). */
  datatype AdminUser = AdminUser(username: string, fullName: Option<string>, email: string)

  predicate Matches(u: AdminUser, term: string)
  {
    var t := Lower(term);
    Contains(Lower(u.username), t) || (u.fullName.Some? && Contains(Lower(u.fullName.value), t))
    || Contains(Lower(u.email), t)
  }

  /** filteredUsers */
  function FilteredUsers(users: seq<AdminUser>, term: string): (r: seq<AdminUser>)
    ensures forall u :: u in r <==> u in users && Matches(u, term)
    ensures |r| <= |users|
  {
    if users == [] then []
    else (if Matches(users[0], term) then [users[0]] else []) + FilteredUsers(users[1..], term)
  }

  /** An empty search keeps every user, in order. */
  lemma {:induction false} EmptySearchKeepsAll(users: seq<AdminUser>)
    ensures FilteredUsers(users, "") == users
    decreases |users|
  {
    if users != [] {
      ContainsEmpty(Lower(users[0].username));
      EmptySearchKeepsAll(users[1..]);
    }
  }

  /** The search ignores case: an upper-cased term finds the same users. */
  lemma SearchIgnoresCase(users: seq<AdminUser>, term: string)
    ensures FilteredUsers(users, Upper(term)) == FilteredUsers(users, term)
  {
    LowerOfUpper(term);
    SameTermSameUsers(users, Upper(term), term);
  }

  lemma {:induction false} SameTermSameUsers(users: seq<AdminUser>, a: string, b: string)
    requires Lower(a) == Lower(b)
    ensures FilteredUsers(users, a) == FilteredUsers(users, b)
    decreases |users|
  {
    if users != [] {
      SameTermSameUsers(users[1..], a, b);
    }
  }

  // ---------------------------------------------------------------------
  // Month statistics
  // ---------------------------------------------------------------------

  const MonthNames := ["January", "February", "March", "April", "May", "June", "July",
                       "August", "September", "October", "November", "December"]

  /** getMonthName: the English name of months 1 to 12, else "Month n". */
  function MonthName(n: int): (r: string)
    ensures 1 <= n <= 12 ==> r == MonthNames[n - 1]
    ensures !(1 <= n <= 12) ==> r == "Month " + IntToString(n)
  {
    if 1 <= n <= 12 then MonthNames[n - 1] else "Month " + IntToString(n)
  }

  lemma IntToStringInjective(m: int, n: int)
    requires IntToString(m) == IntToString(n)
    ensures m == n
  {
    var sm := IntToString(m);
    if m >= 0 && n >= 0 {
      NatToStringInjective(m, n);
    } else if m < 0 && n < 0 {
      assert sm[1..] == NatToString(-m) && sm[1..] == NatToString(-n);
      NatToStringInjective(-m, -n);
    }
  }

  /** No month name starts like "Month ". */
  lemma NameNotMo(i: int)
    requires 0 <= i < 12
    ensures MonthNames[i][..2] != "Mo"
  {
    if i == 2 {
      assert MonthNames[i][1] == 'a';
    } else if i == 4 {
      assert MonthNames[i][1] == 'a';
    } else {
      assert MonthNames[i][0] != 'M';
    }
  }

  /** Different months get different labels. */
  lemma MonthNameInjective(m: int, n: int)
    requires MonthName(m) == MonthName(n)
    ensures m == n
  {
    if !(1 <= m <= 12) && !(1 <= n <= 12) {
      NumberedInjective(m, n);
    } else if !(1 <= m <= 12) {
      NamedNotNumbered(n - 1, m);
    } else if !(1 <= n <= 12) {
      NamedNotNumbered(m - 1, n);
    } else {
      NamesDistinct(m - 1, n - 1);
    }
  }

  lemma NumberedInjective(m: int, n: int)
    requires "Month " + IntToString(m) == "Month " + IntToString(n)
    ensures m == n
  {
    var a := "Month " + IntToString(m);
    var b := "Month " + IntToString(n);
    assert a[6..] == IntToString(m) && b[6..] == IntToString(n);
    IntToStringInjective(m, n);
  }

  lemma NamedNotNumbered(i: int, n: int)
    requires 0 <= i < 12
    ensures MonthNames[i] != "Month " + IntToString(n)
  {
    var b := "Month " + IntToString(n);
    assert b[..2] == "Mo";
    NameNotMo(i);
  }

  /** The twelve month names are pairwise different. */
  lemma NamesDistinct(i: int, j: int)
    requires 0 <= i < 12 && 0 <= j < 12 && MonthNames[i] == MonthNames[j]
    ensures i == j
  {
    // The first three letters tell the names apart.
    assert MonthNames[i][..3] == MonthNames[j][..3];
  }

  /** `monthlyStats.filter(m => m.month).map(m => m.month)`, for numeric
      months. */
  function MonthsOf(stats: seq<Js>): (r: seq<int>)
    ensures forall x :: x in r <==> x != 0 && exists i :: 0 <= i < |stats| && Field(stats[i], "month") == Num(x)
  {
    if stats == [] then []
    else
      var m := Field(stats[0], "month");
      var rest := MonthsOf(stats[1..]);
      assert forall i :: 1 <= i < |stats| ==> stats[i] == stats[1..][i - 1];
      (if m.Num? && m.n != 0 then [m.n] else []) + rest
  }

  /** `.filter((value, index, self) => self.indexOf(value) === index)`:
      the first occurrence of each value, reading left to right, skipping
      values already in `seen`. */
  function Dedup(xs: seq<int>, seen: set<int>): (r: seq<int>)
    ensures forall x :: x in r <==> x in xs && x !in seen
    ensures forall i, j :: 0 <= i < j < |r| ==> r[i] != r[j]
  {
    if xs == [] then []
    else if xs[0] in seen then Dedup(xs[1..], seen)
    else [xs[0]] + Dedup(xs[1..], seen + {xs[0]})
  }

  predicate Ascending(xs: seq<int>)
  {
    forall i, j :: 0 <= i < j < |xs| ==> xs[i] < xs[j]
  }

  function InsertAscending(x: int, xs: seq<int>): (r: seq<int>)
    ensures forall y :: y in r <==> y == x || y in xs
    ensures Ascending(xs) && x !in xs ==> Ascending(r)
  {
    if xs == [] || x < xs[0] then
      assert Ascending(xs) && x !in xs ==> Ascending([x] + xs) by {
        if Ascending(xs) && x !in xs && xs != [] {
          assert forall j :: 0 <= j < |xs| ==> xs[0] <= xs[j];
        }
      }
      [x] + xs
    else
      var rest := InsertAscending(x, xs[1..]);
      assert Ascending(xs) && x !in xs ==> Ascending([xs[0]] + rest) by {
        if Ascending(xs) && x !in xs {
          assert Ascending(xs[1..]);
          assert forall y :: y in rest ==> xs[0] < y by {
            forall y | y in rest
              ensures xs[0] < y
            {
              if y != x {
                var j :| 0 <= j < |xs[1..]| && xs[1..][j] == y;
                assert xs[j + 1] == y;
              }
            }
          }
          assert forall j :: 0 <= j < |rest| ==> rest[j] in rest;
        }
      }
      [xs[0]] + rest
  }

  /** `.sort((a, b) => a - b)` */
  function SortAscending(xs: seq<int>): (r: seq<int>)
    ensures forall y :: y in r <==> y in xs
    ensures (forall i, j :: 0 <= i < j < |xs| ==> xs[i] != xs[j]) ==> Ascending(r)
  {
    if xs == [] then []
    else
      var rest := SortAscending(xs[1..]);
      assert (forall i, j :: 0 <= i < j < |xs| ==> xs[i] != xs[j]) ==> Ascending(rest) && xs[0] !in rest by {
        if forall i, j :: 0 <= i < j < |xs| ==> xs[i] != xs[j] {
          assert forall i, j :: 0 <= i < j < |xs[1..]| ==> xs[1..][i] != xs[1..][j] by {
            forall i, j | 0 <= i < j < |xs[1..]|
              ensures xs[1..][i] != xs[1..][j]
            {
              assert xs[1..][i] == xs[i + 1] && xs[1..][j] == xs[j + 1];
            }
          }
        }
      }
      InsertAscending(xs[0], rest)
  }

  /** getMonthOptions */
  function MonthOptions(stats: seq<Js>): seq<int>
  {
    SortAscending(Dedup(MonthsOf(stats), {}))
  }

  /** The options are the months present in the statistics, each once, in
      ascending order. */
  lemma MonthOptionsSpec(stats: seq<Js>)
    ensures Ascending(MonthOptions(stats))
    ensures forall x :: x in MonthOptions(stats) <==>
              x != 0 && exists i :: 0 <= i < |stats| && Field(stats[i], "month") == Num(x)
  {
  }

  // ---------------------------------------------------------------------
  // Director list
  // ---------------------------------------------------------------------

  /** `d && d.name && String(d.name).trim().length > 0 &&
      String(d.name).toLowerCase() !== "unknown director"` */
  predicate ShownDirector(d: Js)
  {
    Truthy(d) && Truthy(Field(d, "name")) && Trim(ToStr(Field(d, "name"))) != ""
    && Lower(ToStr(Field(d, "name"))) != "unknown director"
  }

  /** The directors listed: of an array, those with a usable name; nothing
      for anything else. */
  function DirectorList(directors: Js): (r: seq<Js>)
    ensures forall d :: d in r <==> d in Items(directors) && ShownDirector(d)
  {
    KeepDirectors(Items(directors))
  }

  function KeepDirectors(ds: seq<Js>): (r: seq<Js>)
    ensures forall d :: d in r <==> d in ds && ShownDirector(d)
  {
    if ds == [] then []
    else (if ShownDirector(ds[0]) then [ds[0]] else []) + KeepDirectors(ds[1..])
  }

  /** "Unknown Director", in any case, is never listed; and a listed
      director's name is not blank. */
  lemma UnknownDirectorHidden(directors: Js, d: Js)
    requires d in DirectorList(directors)
    ensures Lower(ToStr(Field(d, "name"))) != "unknown director"
    ensures !IsJsBlank(ToStr(Field(d, "name")))
  {
    TrimEmptyIffBlank(ToStr(Field(d, "name")));
  }
}
